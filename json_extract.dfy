/** `_extract_json` in agent/json_formatter.py: recovering a JSON value from model output by a
    direct parse, then the first balanced `{...}` block, then a code-fence strip. */
module JsonExtract {
  import opened PyText
  import opened PyValue

  /** The scanner's state: brace depth outside strings, inside a string, after a backslash. */
  datatype Scan = Scan(level: int, inStr: bool, esc: bool)

  const Initial := Scan(0, false, false)

  /** One character of the scan. Inside a string only backslash and quote matter; outside,
      a quote opens a string and braces move the depth. */
  function Step(st: Scan, ch: char): Scan {
    if st.inStr then
      if st.esc then st.(esc := false)
      else if ch == '\\' then st.(esc := true)
      else if ch == '"' then st.(inStr := false)
      else st
    else if ch == '"' then st.(inStr := true)
    else if ch == '{' then st.(level := st.level + 1)
    else if ch == '}' then st.(level := st.level - 1)
    else st
  }

  /** The state after scanning `text[start..j]`. */
  function StateAt(text: string, start: nat, j: nat): Scan
    requires start <= j <= |text|
    decreases j - start
  {
    if j == start then Initial else Step(StateAt(text, start, j - 1), text[j - 1])
  }

  /** Position `j` is a '}' outside strings that brings the depth back to zero. */
  predicate Closes(text: string, start: nat, j: nat)
    requires start <= j < |text|
  {
    var st := StateAt(text, start, j);
    !st.inStr && text[j] == '}' && st.level == 1
  }

  /** The scan from position `i` in state `st`: the index where the block closes, if any. */
  function ScanFrom(text: string, i: nat, st: Scan): (r: Option<nat>)
    requires i <= |text|
    ensures r.Some? ==> i <= r.value < |text| && text[r.value] == '}'
    decreases |text| - i
  {
    if i == |text| then None
    else if !st.inStr && text[i] == '}' && st.level - 1 == 0 then Some(i)
    else ScanFrom(text, i + 1, Step(st, text[i]))
  }

  /** Resuming the scan at `i` in the state reached there finds exactly the first closing
      position at or after `i`. */
  lemma {:induction false} ScanFromFirstClose(text: string, start: nat, i: nat)
    requires start <= i <= |text|
    ensures var r := ScanFrom(text, i, StateAt(text, start, i));
      && (r.Some? ==>
            && i <= r.value < |text| && Closes(text, start, r.value)
            && forall j :: i <= j < r.value ==> !Closes(text, start, j))
      && (r.None? ==> forall j :: i <= j < |text| ==> !Closes(text, start, j))
    decreases |text| - i
  {
    if i < |text| && !Closes(text, start, i) {
      assert StateAt(text, start, i + 1) == Step(StateAt(text, start, i), text[i]);
      ScanFromFirstClose(text, start, i + 1);
    }
  }

  /** The balanced block `_extract_json` tries second: from the first '{' to the first
      position where the depth returns to zero. */
  function Candidate(text: string): (r: Option<string>)
    ensures r.Some? ==> 2 <= |r.value| && r.value[0] == '{' && r.value[|r.value| - 1] == '}'
  {
    var s := Find(text, '{');
    if s == -1 then None
    else
      match ScanFrom(text, s, Initial)
      case None => None
      case Some(e) =>
        assert e != s by { assert text[s] == '{'; }
        Some(text[s..e + 1])
  }

  /** Some position at or after `s` closes the block opened at `s`. */
  predicate HasClose(text: string, s: nat)
    requires s <= |text|
  {
    exists e :: s <= e < |text| && Closes(text, s, e)
  }

  /** `c` runs from `s` to the least position that closes the block opened at `s`. */
  predicate IsFirstBlock(text: string, s: nat, c: string)
    requires s <= |text|
  {
    exists e :: && s <= e < |text| && Closes(text, s, e)
                && (forall j :: s <= j < e ==> !Closes(text, s, j))
                && c == text[s..e + 1]
  }

  /** The candidate exists exactly when the text has a '{' and its block closes; it runs from
      the first '{' to the least closing position. */
  lemma CandidateIsFirstBalancedBlock(text: string)
    ensures Candidate(text).Some? <==> Find(text, '{') != -1 && HasClose(text, Find(text, '{'))
    ensures Candidate(text).Some? ==> IsFirstBlock(text, Find(text, '{'), Candidate(text).value)
  {
    var s := Find(text, '{');
    if s != -1 {
      assert StateAt(text, s, s) == Initial;
      ScanFromFirstClose(text, s, s);
      match ScanFrom(text, s, Initial) {
        case Some(e) =>
          assert Closes(text, s, e);
          assert Candidate(text) == Some(text[s..e + 1]);
        case None =>
      }
    }
  }

  /** Count of character `ch` at positions in `[start, j)` outside strings. */
  function OutsideCount(text: string, start: nat, j: nat, ch: char): nat
    requires start <= j <= |text|
    decreases j - start
  {
    if j == start then 0
    else
      var here := if text[j - 1] == ch && !StateAt(text, start, j - 1).inStr then 1 else 0;
      OutsideCount(text, start, j - 1, ch) + here
  }

  /** The depth is the number of '{' minus the number of '}' seen outside strings: braces
      inside string literals never count. */
  lemma {:induction false} LevelCountsBraces(text: string, start: nat, j: nat)
    requires start <= j <= |text|
    ensures StateAt(text, start, j).level == OutsideCount(text, start, j, '{') - OutsideCount(text, start, j, '}')
    decreases j - start
  {
    if j > start {
      LevelCountsBraces(text, start, j - 1);
    }
  }

  /** Inside a string, a backslash and the character after it (a quote included) leave the
      scanner inside the string with no pending escape. */
  lemma EscapeKeepsString(text: string, start: nat, j: nat)
    requires start <= j && j + 2 <= |text|
    requires StateAt(text, start, j).inStr && !StateAt(text, start, j).esc && text[j] == '\\'
    ensures StateAt(text, start, j + 2).inStr && !StateAt(text, start, j + 2).esc
    ensures StateAt(text, start, j + 2).level == StateAt(text, start, j).level
  {
    assert StateAt(text, start, j + 1) == Step(StateAt(text, start, j), text[j]);
  }

  /** A brace inside a string literal is skipped by the scan: in `{"}"}` the block closes at
      the last character, not the third. */
  lemma BraceInStringSkipped()
    ensures Candidate("{\"}\"}") == Some("{\"}\"}")
  {
    var t := "{\"}\"}";
    assert Find(t, '{') == 0;
    assert ScanFrom(t, 4, Scan(1, false, false)) == Some(4);
    assert ScanFrom(t, 3, Scan(1, true, false)) == Some(4);
    assert ScanFrom(t, 2, Scan(1, true, false)) == Some(4);
    assert ScanFrom(t, 1, Scan(1, false, false)) == Some(4);
    assert ScanFrom(t, 0, Initial) == Some(4);
    assert t[0..5] == t;
  }

  predicate IsBacktick(c: char) { c == '`' }

  /** The third attempt: with the stripped text opening a code fence, strip backticks from both
      ends and parse from the first '{'. */
  function FenceAttempt(text: string, loads: string -> Option<Json>): Json {
    match FenceBody(text)
    case Some(body) => if loads(body).Some? then loads(body).value else JObj(map[])
    case None => JObj(map[])
  }

  /** The text the fence attempt hands to the parser: with the stripped text opening a code
      fence and a '{' left once the backticks are gone, everything from that '{' on. */
  function FenceBody(text: string): (r: Option<string>)
    ensures r.Some? ==> StartsWith(Strip(text), "```") && r.value != [] && r.value[0] == '{'
    ensures r.None? <==> !StartsWith(Strip(text), "```") || '{' !in Trim(Strip(text), IsBacktick)
  {
    var cleaned := Strip(text);
    if StartsWith(cleaned, "```") then
      var c := Trim(cleaned, IsBacktick);
      var k := Find(c, '{');
      if k != -1 then Some(c[k..]) else None
    else None
  }

  /** What `_extract_json` returns, with `json.loads` as the parameter `loads` (None where it
      raises): the direct parse, else the parsed balanced block, else the fenced body, else `{}`. */
  function ExtractJsonSpec(text: string, loads: string -> Option<Json>): Json {
    match loads(text)
    case Some(v) => v
    case None =>
      match Candidate(text)
      case Some(c) => if loads(c).Some? then loads(c).value else FenceAttempt(text, loads)
      case None => FenceAttempt(text, loads)
  }

  /** When the whole text parses, that value wins; when it does not but the balanced block
      does, the block's value is returned. */
  lemma ExtractJsonOrder(text: string, loads: string -> Option<Json>)
    ensures loads(text).Some? ==> ExtractJsonSpec(text, loads) == loads(text).value
    ensures loads(text).None? && Candidate(text).Some? && loads(Candidate(text).value).Some?
      ==> ExtractJsonSpec(text, loads) == loads(Candidate(text).value).value
  {
  }

  /** Extraction never fails: when the parser accepts nothing, the result is `{}`. */
  lemma ExtractJsonNothingParses(text: string, loads: string -> Option<Json>)
    requires forall x :: loads(x).None?
    ensures ExtractJsonSpec(text, loads) == JObj(map[])
  {
    assert loads(text).None?;
    if Candidate(text).Some? {
      assert loads(Candidate(text).value).None?;
    }
    FallbackToFence(text, loads);
    FenceNothingParses(text, loads);
  }

  lemma FenceNothingParses(text: string, loads: string -> Option<Json>)
    requires forall x :: loads(x).None?
    ensures FenceAttempt(text, loads) == JObj(map[])
  {
    var body := FenceBody(text);
    if body.Some? {
      assert loads(body.value).None?;
    }
  }

  /** When neither the direct parse nor the balanced block succeeds, the fence attempt decides. */
  lemma FallbackToFence(text: string, loads: string -> Option<Json>)
    requires loads(text).None?
    requires Candidate(text).None? || loads(Candidate(text).value).None?
    ensures ExtractJsonSpec(text, loads) == FenceAttempt(text, loads)
  {
  }

  /** The scanning loop of `_extract_json` from the first '{': the position where the depth,
      counted outside string literals, returns to zero, if any. */
  method ScanToClose(text: string, start: nat) returns (close: Option<nat>)
    requires start <= |text|
    ensures close == ScanFrom(text, start, Initial)
  {
    var level := 0;
    var inStr := false;
    var esc := false;
    var i := start;
    while i < |text|
      invariant start <= i <= |text|
      invariant ScanFrom(text, start, Initial) == ScanFrom(text, i, Scan(level, inStr, esc))
      decreases |text| - i
    {
      var ch := text[i];
      ghost var st := Scan(level, inStr, esc);
      if inStr {
        if esc {
          esc := false;
        } else if ch == '\\' {
          esc := true;
        } else if ch == '"' {
          inStr := false;
        }
      } else {
        if ch == '"' {
          inStr := true;
        } else if ch == '{' {
          level := level + 1;
        } else if ch == '}' {
          level := level - 1;
          if level == 0 {
            return Some(i);
          }
        }
      }
      assert Scan(level, inStr, esc) == Step(st, ch);
      i := i + 1;
    }
    return None;
  }

  /** `_extract_json(text)`. The balanced block found by the scan is parsed once the scan
      stops at it, which is where the loop parses it. */
  method ExtractJson(text: string, loads: string -> Option<Json>) returns (r: Json)
    ensures r == ExtractJsonSpec(text, loads)
  {
    var direct := loads(text);
    if direct.Some? {
      return direct.value;
    }
    var start := Find(text, '{');
    if start != -1 {
      var close := ScanToClose(text, start);
      if close.Some? {
        var candidate := text[start..close.value + 1];
        assert Candidate(text) == Some(candidate);
        var parsed := loads(candidate);
        if parsed.Some? {
          return parsed.value;
        }
      }
    }
    FallbackToFence(text, loads);
    r := FenceAttempt(text, loads);
  }
}
