/** Tag bags as the overlay reads them: Overpass tags are string-to-string maps, GeoJSON
    properties may also hold booleans. Accessors follow JavaScript truthiness, and
    `parseInt` is modelled for the `layer` tag. */
module Tags {

  datatype Option<T> = None | Some(value: T)

  /** A property value. Overpass exports only strings; some GeoJSON producers emit booleans. */
  datatype Value = Str(s: string) | Bool(b: bool)

  /** A GeoJSON `properties` bag (an absent bag reads as the empty map). */
  type Props = map<string, Value>

  /** An Overpass `tags` bag (an absent bag reads as the empty map). */
  type StringTags = map<string, string>

  /** JavaScript truthiness: the empty string and `false` are falsy. */
  predicate Truthy(v: Value) {
    match v
    case Str(s) => s != ""
    case Bool(b) => b
  }

  /** `props[k]` is present and truthy. */
  predicate Has(p: Props, k: string) {
    k in p && Truthy(p[k])
  }

  /** `props[k] === s` for a string `s`. */
  predicate IsText(p: Props, k: string, s: string) {
    k in p && p[k] == Str(s)
  }

  /** `props[k] === true`. */
  predicate IsTrue(p: Props, k: string) {
    k in p && p[k] == Bool(true)
  }

  /** The string JavaScript builds from a value in a template literal. */
  function ToText(v: Value): string {
    match v
    case Str(s) => s
    case Bool(b) => if b then "true" else "false"
  }

  /** `tags[k] || ''` for an Overpass tag bag. */
  function Text(t: StringTags, k: string): string {
    if k in t then t[k] else ""
  }

  /** An Overpass tag bag seen as a property bag. */
  function Lift(t: StringTags): (p: Props)
    ensures p.Keys == t.Keys
    ensures forall k :: k in t ==> p[k] == Str(t[k])
  {
    map k | k in t :: Str(t[k])
  }

  /** The accessors on a lifted Overpass bag read its strings: `tags[k] === v` holds exactly
      for the stored string, a key is truthy exactly when its string is non-empty, no key is
      ever the boolean `true`, and a template literal gives back the stored string. */
  lemma LiftReads(t: StringTags, k: string, v: string)
    ensures IsText(Lift(t), k, v) <==> k in t && t[k] == v
    ensures Has(Lift(t), k) <==> k in t && t[k] != ""
    ensures !IsTrue(Lift(t), k)
    ensures k in t ==> ToText(Lift(t)[k]) == t[k]
  {
  }

  predicate IsDigit(c: char) {
    '0' <= c <= '9'
  }

  predicate IsSpace(c: char) {
    c == ' ' || c == '\t' || c == '\n' || c == '\r' || c == '\U{0B}' || c == '\U{0C}'
  }

  /** The string with its leading white space removed. */
  function TrimStart(s: string): string {
    if s != [] && IsSpace(s[0]) then TrimStart(s[1..]) else s
  }

  /** Length of the longest prefix of decimal digits. */
  function DigitRun(s: string): (n: nat)
    ensures n <= |s|
  {
    if s != [] && IsDigit(s[0]) then 1 + DigitRun(s[1..]) else 0
  }

  /** The number a string of decimal digits denotes. */
  function DigitsValue(d: string): int {
    if d == [] then 0 else DigitsValue(d[..|d| - 1]) * 10 + (d[|d| - 1] as int - '0' as int)
  }

  /** The leading digit run as a number; `None` when there is no digit. */
  function ParseDigits(u: string): Option<int> {
    var n := DigitRun(u);
    if n == 0 then None else Some(DigitsValue(u[..n]))
  }

  /** An optional sign, then the digit run. */
  function ParseSigned(t: string): Option<int> {
    if t != [] && t[0] == '-' then
      match ParseDigits(t[1..])
      case None => None
      case Some(v) => Some(-v)
    else if t != [] && t[0] == '+' then ParseDigits(t[1..])
    else ParseDigits(t)
  }

  /** JavaScript `parseInt(s)` on a decimal string: leading white space, an optional sign,
      then the longest run of digits; `None` stands for `NaN` (no digit after the sign). */
  function ParseInt(s: string): Option<int> {
    ParseSigned(TrimStart(s))
  }

  /** After the white space, a minus sign followed by digits parses to the negated number. */
  lemma ParseIntMinus(s: string, u: string)
    requires TrimStart(s) == ['-'] + u && DigitRun(u) > 0
    ensures ParseInt(s) == Some(-DigitsValue(u[..DigitRun(u)]))
  {
    assert TrimStart(s)[1..] == u;
  }

  /** Without a sign, the leading digit run is the number, and no digits is `NaN`. */
  lemma ParseIntPlain(s: string)
    requires TrimStart(s) != [] && TrimStart(s)[0] != '-' && TrimStart(s)[0] != '+'
    ensures ParseInt(s) == if DigitRun(TrimStart(s)) == 0 then None
                           else Some(DigitsValue(TrimStart(s)[..DigitRun(TrimStart(s))]))
  {
  }

  /** Every character of the leading digit run is a digit. */
  lemma {:induction false} DigitRunDigits(s: string)
    ensures forall i :: 0 <= i < DigitRun(s) ==> IsDigit(s[i])
  {
    if s != [] && IsDigit(s[0]) {
      DigitRunDigits(s[1..]);
      assert forall i :: 1 <= i < DigitRun(s) ==> s[i] == s[1..][i - 1];
    }
  }

  /** A string of decimal digits denotes a non-negative number. */
  lemma {:induction false} DigitsNonNegative(d: string)
    requires forall i :: 0 <= i < |d| ==> IsDigit(d[i])
    ensures DigitsValue(d) >= 0
  {
    if d != [] {
      DigitsNonNegative(d[..|d| - 1]);
    }
  }

  /** A negative result needs a minus sign right after the white space: an unsigned or
      `+`-signed number is never below zero, so a negative `layer` is always written `-…`. */
  lemma ParseIntSign(s: string)
    ensures ParseInt(s).Some? && ParseInt(s).value < 0 ==> TrimStart(s) != [] && TrimStart(s)[0] == '-'
  {
    var t := TrimStart(s);
    DigitRunDigits(t);
    DigitsNonNegative(t[..DigitRun(t)]);
    if t != [] {
      DigitRunDigits(t[1..]);
      DigitsNonNegative(t[1..][..DigitRun(t[1..])]);
    }
  }

  lemma OneDigit(c: char)
    requires IsDigit(c)
    ensures DigitRun([c]) == 1 && [c][..1] == [c] && DigitsValue([c]) == c as int - '0' as int
  {
    assert [c][1..] == [];
    assert [c][..0] == [];
  }

  /** `parseInt` of a minus sign and one digit is that digit negated. */
  lemma ParseMinusDigit(d: char)
    requires IsDigit(d)
    ensures ParseInt(['-', d]) == Some(-(d as int - '0' as int))
  {
    var s := ['-', d];
    assert TrimStart(s) == s;
    assert s == ['-'] + [d];
    OneDigit(d);
    ParseIntMinus(s, [d]);
  }

  /** `parseInt` skips leading white space before a digit. */
  lemma ParseSpacedDigit(c: char, d: char)
    requires IsSpace(c) && IsDigit(d)
    ensures ParseInt([c, d]) == Some(d as int - '0' as int)
  {
    var s := [c, d];
    assert s[1..] == [d];
    assert TrimStart([d]) == [d];
    assert TrimStart(s) == TrimStart([d]);
    OneDigit(d);
    ParseIntPlain(s);
  }

  /** `parseInt` of a single digit is that digit. */
  lemma ParseDigit(d: char)
    requires IsDigit(d)
    ensures ParseInt([d]) == Some(d as int - '0' as int)
  {
    assert TrimStart([d]) == [d];
    OneDigit(d);
    ParseIntPlain([d]);
  }

  /** `parseInt` of a string starting with anything other than white space, a sign or a
      digit is `NaN`. */
  lemma ParseNonNumber(s: string)
    requires s != [] && !IsSpace(s[0]) && !IsDigit(s[0]) && s[0] != '-' && s[0] != '+'
    ensures ParseInt(s) == None
  {
    assert TrimStart(s) == s;
    ParseIntPlain(s);
  }

  /** `props.layer && parseInt(props.layer)`: the layer number when there is one. A boolean
      layer parses as `NaN`. */
  function LayerOf(p: Props): Option<int> {
    if "layer" in p && p["layer"].Str? then ParseInt(p["layer"].s) else None
  }
}
