/** Decoded JSON values as the pipeline's Python code sees them, with Python's truthiness,
    `dict.get`, `a or b`, `str(v)` and `float(v)`. */
module PyValue {
  import opened PyText

  /** What `json.loads` produces: None, bool, int, float, str, list or dict. */
  datatype Json =
    | JNull
    | JBool(b: bool)
    | JInt(i: int)
    | JFloat(f: real)
    | JStr(s: string)
    | JArr(items: seq<Json>)
    | JObj(fields: map<string, Json>)

  type Dict = map<string, Json>

  datatype Option<T> = None | Some(value: T) {
    function GetOr(default: T): T {
      match this
      case Some(v) => v
      case None => default
    }
  }

  /** The exceptions the modelled code lets escape: `.upper()` on a non-string, the planner's
      empty query, a document built from non-string text, a missing state key, and an index
      past the end of a list. */
  datatype PyError = AttributeError | ValueError | ValidationError | KeyError | IndexError

  datatype Result<T> = Ok(value: T) | Raised(error: PyError)

  /** Python truthiness: None, False, 0, 0.0, "", [] and {} are false. */
  predicate Truthy(v: Json) {
    match v
    case JNull => false
    case JBool(b) => b
    case JInt(i) => i != 0
    case JFloat(f) => f != 0.0
    case JStr(s) => |s| != 0
    case JArr(a) => |a| != 0
    case JObj(m) => |m| != 0
  }

  /** Python `d.get(k, default)`. */
  function Get(d: Dict, k: string, default: Json): Json {
    if k in d then d[k] else default
  }

  /** Python `a or b`. */
  function Or(a: Json, b: Json): (r: Json)
    ensures Truthy(b) ==> Truthy(r)
  {
    if Truthy(a) then a else b
  }

  /** Python `str(f)` for a float, in positional notation with at most 16 fractional digits
      (Python switches to exponent notation for very large or very small magnitudes). */
  function FloatText(f: real): (r: string)
    ensures r != []
    decreases if f < 0.0 then 1 else 0
  {
    if f < 0.0 then "-" + FloatText(-f)
    else
      var n := f.Floor;
      var frac := f - n as real;
      var whole := if n < 0 then "0" else NatText(n);
      if frac <= 0.0 then whole + ".0"
      else
        var digits := RTrim(FracDigits(frac, 16), c => c == '0');
        whole + "." + (if digits == [] then "0" else digits)
  }

  /** The first `k` decimal digits of a fraction in [0, 1). */
  function FracDigits(frac: real, k: nat): string
    decreases k
  {
    if k == 0 || frac <= 0.0 || frac >= 1.0 then []
    else
      var t := frac * 10.0;
      var d := t.Floor;
      if 0 <= d < 10 then [DigitChar(d)] + FracDigits(t - d as real, k - 1) else []
  }

  /** Python `str(v)`. A string is itself; every other value prints as non-empty text.
      Non-empty lists and dicts print as "[...]" and "{...}". */
  function PyStr(v: Json): (r: string)
    ensures v.JStr? ==> r == v.s
    ensures !v.JStr? ==> r != []
  {
    match v
    case JNull => "None"
    case JBool(b) => if b then "True" else "False"
    case JInt(i) => IntText(i)
    case JFloat(f) => FloatText(f)
    case JStr(s) => s
    case JArr(a) => if a == [] then "[]" else "[...]"
    case JObj(m) => if m == map[] then "{}" else "{...}"
  }

  /** The text of a truthy value is never empty. */
  lemma TruthyText(v: Json)
    requires Truthy(v)
    ensures PyStr(v) != []
  {
  }

  function NatValue(s: string): nat
    requires forall i :: 0 <= i < |s| ==> IsDigit(s[i])
    decreases |s|
  {
    if s == [] then 0
    else
      var c := s[|s| - 1];
      assert IsDigit(c);
      10 * NatValue(s[..|s| - 1]) + (c as int - '0' as int)
  }

  function Pow10(k: nat): (r: nat)
    ensures r >= 1
  {
    if k == 0 then 1 else 10 * Pow10(k - 1)
  }

  predicate AllDigits(s: string) { forall i :: 0 <= i < |s| ==> IsDigit(s[i]) }

  /** An unsigned decimal: digits with at most one '.', and at least one digit. */
  function ParseUnsigned(t: string): Option<real>
  {
    var k := Find(t, '.');
    if k == -1 then
      if t != [] && AllDigits(t) then Some(NatValue(t) as real) else None
    else
      var whole, frac := t[..k], t[k + 1..];
      if (whole != [] || frac != []) && AllDigits(whole) && AllDigits(frac)
      then Some(NatValue(whole) as real + NatValue(frac) as real / Pow10(|frac|) as real)
      else None
  }

  /** Python `float(s)` on a string, for the decimal forms: surrounding whitespace, an
      optional sign, digits and at most one '.'. Anything else is a ValueError (None). */
  function ParseFloat(s: string): Option<real>
  {
    var t := Strip(s);
    if t != [] && (t[0] == '+' || t[0] == '-') then
      match ParseUnsigned(t[1..])
      case Some(m) => Some(if t[0] == '-' then -m else m)
      case None => None
    else ParseUnsigned(t)
  }

  /** Python `float(v)`; None stands for the exception it raises. */
  function ToFloat(v: Json): Option<real>
  {
    match v
    case JBool(b) => Some(if b then 1.0 else 0.0)
    case JInt(i) => Some(i as real)
    case JFloat(f) => Some(f)
    case JStr(s) => ParseFloat(s)
    case _ => None
  }

  /** A percentage is not a float literal: `float("200%")` raises. */
  lemma PercentIsNotAFloat()
    ensures ParseFloat("200%") == None
  {
    var t := "200%";
    assert Strip(t) == t by { StripFixed(t); }
    assert t[0] != '+' && t[0] != '-';
    assert '.' !in t;
    assert !AllDigits(t) by { assert !IsDigit(t[3]); }
  }
}
