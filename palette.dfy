/** The colour presets of the app (app.py `get_palette`) and the colour of a node type
    (`_node_color`). */
module Palette {
  import opened PyText

  /** The five results of `get_palette`: colours by node type, three edge colours by
      confidence band, and the accent colour. */
  datatype Theme = Theme(types: map<string, string>, edgeLow: string, edgeMid: string, edgeHigh: string,
                         primary: string)

  /** The node types every preset colours. */
  const TYPE_KEYS: seq<string> :=
    ["PERSON", "ORGANIZATION", "CONCEPT", "EVENT", "DATE", "PARTNERSHIP", "MISSION", "SPACECRAFT", "SATELLITE", "ENTITY"]

  /** The colour used when a palette has no "ENTITY" entry. */
  const FALLBACK_COLOUR := "#5E81AC"

  /** The type dictionary of a preset, from its ten colours in `TYPE_KEYS` order. */
  function TypeColours(c: seq<string>): (m: map<string, string>)
    requires |c| == 10
    ensures forall i :: 0 <= i < 10 ==> TYPE_KEYS[i] in m && m[TYPE_KEYS[i]] == c[i]
  {
    map["PERSON" := c[0], "ORGANIZATION" := c[1], "CONCEPT" := c[2], "EVENT" := c[3], "DATE" := c[4],
        "PARTNERSHIP" := c[5], "MISSION" := c[6], "SPACECRAFT" := c[7], "SATELLITE" := c[8], "ENTITY" := c[9]]
  }

  /** The ten type colours of a preset, in `TYPE_KEYS` order. */
  function PresetTypeColours(preset: string): (c: seq<string>)
    ensures |c| == 10
  {
    if preset == "Pastel Fog" then
      ["#7FB7A6", "#96A7C1", "#C4A4B7", "#8EB9C5", "#C9BDA5", "#A8C0A2", "#C6A989", "#93AEC8", "#9BBEA9", "#7F8C99"]
    else if preset == "Dark Slate" then
      ["#89A88E", "#7E95B8", "#9B84A8", "#78A6AE", "#B6A57C", "#8CA58D", "#A9866E", "#7D97B1", "#83A899", "#8A97A6"]
    else
      ["#A3BE8C", "#81A1C1", "#B48EAD", "#88C0D0", "#EBCB8B", "#8FBCBB", "#D08770", "#81A1C1", "#8FBCBB", "#5E81AC"]
  }

  /** The low, middle and high edge colours and the accent colour of a preset. */
  function PresetAccents(preset: string): (c: seq<string>)
    ensures |c| == 4
  {
    if preset == "Pastel Fog" then ["#D7DEE7", "#A9B4C4", "#6B7D92", "#6B7D92"]
    else if preset == "Dark Slate" then ["#6B7280", "#94A3B8", "#CBD5E1", "#8391A1"]
    else ["#D8DEE9", "#A7B1C2", "#5E81AC", "#5E81AC"]
  }

  /** `get_palette(preset)`: "Pastel Fog", "Dark Slate", and "Nord Muted" for every other name.
      Each preset colours the ten upper-case types and also carries "Entity" with the colour
      of "ENTITY". */
  function GetPalette(preset: string): (p: Theme)
    ensures forall i :: 0 <= i < 10 ==> TYPE_KEYS[i] in p.types
    ensures "Entity" in p.types && "ENTITY" in p.types && p.types["Entity"] == p.types["ENTITY"]
  {
    var types := TypeColours(PresetTypeColours(preset));
    var a := PresetAccents(preset);
    var entity := if "ENTITY" in types then types["ENTITY"] else FALLBACK_COLOUR;
    Theme(types["Entity" := entity], a[0], a[1], a[2], a[3])
  }

  /** Any name other than the two named presets gives the default "Nord Muted" preset. */
  lemma PaletteDefault(preset: string)
    requires preset != "Pastel Fog" && preset != "Dark Slate"
    ensures GetPalette(preset) == GetPalette("Nord Muted")
  {
  }

  /** `_node_color(ntype)` against the palette `types`: the colour of the upper-cased type, an
      empty type counting as "Entity", else the "ENTITY" colour, else the fallback. */
  function NodeColor(types: map<string, string>, ntype: string): string {
    var key := Upper(if ntype == [] then "Entity" else ntype);
    if key in types then types[key] else if "ENTITY" in types then types["ENTITY"] else FALLBACK_COLOUR
  }

  lemma UpperLowerChar(c: char)
    ensures UpperChar(LowerChar(c)) == UpperChar(c)
  {
  }

  /** The lookup ignores case: a type, its upper-case and its lower-case form get one colour,
      whatever the palette. */
  lemma NodeColorIgnoresCase(types: map<string, string>, ntype: string)
    ensures NodeColor(types, ntype) == NodeColor(types, Upper(ntype))
    ensures NodeColor(types, ntype) == NodeColor(types, Lower(ntype))
  {
    UpperIdempotent(ntype);
    forall i | 0 <= i < |ntype|
      ensures Upper(Lower(ntype))[i] == Upper(ntype)[i]
    {
      UpperLowerChar(ntype[i]);
    }
    assert Upper(Lower(ntype)) == Upper(ntype);
  }

  /** With a preset's palette every type gets one of the palette's colours, and an empty type
      or a type whose upper-case form is none of the palette's keys gets the "ENTITY" colour. */
  lemma NodeColorInPalette(preset: string, ntype: string)
    ensures NodeColor(GetPalette(preset).types, ntype) in GetPalette(preset).types.Values
    ensures ntype == [] || Upper(ntype) !in GetPalette(preset).types ==>
      NodeColor(GetPalette(preset).types, ntype) == GetPalette(preset).types["ENTITY"]
  {
    assert Upper("Entity") == "ENTITY";
  }
}
