/** The parts of the JavaScript runtime the forms pipeline relies on.

    Values decoded from JSON are a `Json` tree. Number parsing and printing, `JSON.stringify`,
    date parsing and locale collation are not defined here: they are fields of a `Runtime`
    record that the operations take as a parameter, so every result is stated for whatever
    those built-ins return. String trimming, ASCII lower-casing, substring search and the
    decimal rounding of `Number.prototype.toFixed` are defined (on exact reals). */
module JsRuntime {
  import opened Wrappers

  /** A decoded JSON value. Numbers are exact reals; objects map field names to values. */
  datatype Json =
    | JNull
    | JString(s: string)
    | JNumber(n: real)
    | JBool(b: bool)
    | JArray(items: seq<Json>)
    | JObject(fields: map<string, Json>)

  /** Built-ins the model leaves uninterpreted. */
  datatype Runtime = Runtime(
    numberOf: string -> Option<real>,     // Number(s); None when the result is NaN
    numberToString: real -> string,       // String(n), Number.prototype.toString
    stringify: Json -> string,            // JSON.stringify
    parseDate: string -> Option<int>,     // Date.parse(s) in ms; None when NaN
    localeLeq: (string, string) -> bool)  // a.localeCompare(b) <= 0

  /** The characters `String.prototype.trim` removes: WhiteSpace and LineTerminator. */
  predicate IsWhitespace(c: char) {
    || c == ' ' || c == '\t' || c == '\n' || c == '\r'
    || c == '\U{000B}' || c == '\U{000C}' || c == '\U{00A0}' || c == '\U{1680}'
    || ('\U{2000}' <= c <= '\U{200A}')
    || c == '\U{2028}' || c == '\U{2029}' || c == '\U{202F}' || c == '\U{205F}'
    || c == '\U{3000}' || c == '\U{FEFF}'
  }

  /** Number of whitespace characters at the start of `s`. */
  function LeadingWhitespace(s: string): (n: nat)
    ensures n <= |s| && (n == |s| || !IsWhitespace(s[n]))
    ensures forall k :: 0 <= k < n ==> IsWhitespace(s[k])
  {
    if s != [] && IsWhitespace(s[0]) then 1 + LeadingWhitespace(s[1..]) else 0
  }

  /** The end of `s[lo..m]` once the whitespace before `m` is cut off. */
  function TrailingCut(s: string, lo: nat, m: nat): (e: nat)
    requires lo <= m <= |s|
    requires forall k :: m <= k < |s| ==> IsWhitespace(s[k])
    ensures lo <= e <= m && (e == lo || !IsWhitespace(s[e - 1]))
    ensures forall k :: e <= k < |s| ==> IsWhitespace(s[k])
    decreases m
  {
    if m > lo && IsWhitespace(s[m - 1]) then TrailingCut(s, lo, m - 1) else m
  }

  /** `s.trim()` */
  function Trim(s: string): string {
    var i := LeadingWhitespace(s);
    s[i..TrailingCut(s, i, |s|)]
  }

  /** `r` is the slice of `s` at `i`, and only whitespace lies around it. */
  ghost predicate TrimmedAt(s: string, r: string, i: int) {
    && 0 <= i <= |s| - |r| && r == s[i..i + |r|]
    && (forall k :: 0 <= k < i ==> IsWhitespace(s[k]))
    && (forall k :: i + |r| <= k < |s| ==> IsWhitespace(s[k]))
  }

  /** Trimming yields the slice of `s` that neither starts nor ends with whitespace, everything
      cut off on either side being whitespace. */
  lemma TrimSpec(s: string)
    ensures |Trim(s)| <= |s|
    ensures Trim(s) == [] || (!IsWhitespace(Trim(s)[0]) && !IsWhitespace(Trim(s)[|Trim(s)| - 1]))
    ensures exists i :: TrimmedAt(s, Trim(s), i)
  {
    var i := LeadingWhitespace(s);
    var e := TrailingCut(s, i, |s|);
    assert TrimmedAt(s, s[i..e], i);
  }

  lemma TrimKeepsInner(s: string)
    requires s == [] || (!IsWhitespace(s[0]) && !IsWhitespace(s[|s| - 1]))
    ensures Trim(s) == s
  {
  }

  lemma TrimIdempotent(s: string)
    ensures Trim(Trim(s)) == Trim(s)
  {
    TrimSpec(s);
    TrimKeepsInner(Trim(s));
  }

  /** `s.toLowerCase()` on ASCII letters; other characters are kept. */
  function ToLower(s: string): string {
    if s == [] then [] else [LowerChar(s[0])] + ToLower(s[1..])
  }

  function LowerChar(c: char): char {
    if 'A' <= c <= 'Z' then (c as int - 'A' as int + 'a' as int) as char else c
  }

  lemma {:induction false} ToLowerChars(s: string)
    ensures |ToLower(s)| == |s|
    ensures forall k :: 0 <= k < |s| ==> ToLower(s)[k] == LowerChar(s[k])
  {
    if s != [] {
      ToLowerChars(s[1..]);
    }
  }

  lemma ToLowerIdempotent(s: string)
    ensures ToLower(ToLower(s)) == ToLower(s)
  {
    ToLowerChars(s);
    ToLowerChars(ToLower(s));
  }

  predicate StartsWith(s: string, w: string) {
    |w| <= |s| && s[..|w|] == w
  }

  /** `s.includes(w)` */
  predicate Contains(s: string, w: string) {
    StartsWith(s, w) || (s != [] && Contains(s[1..], w))
  }

  ghost predicate OccursAt(s: string, w: string, i: int) {
    0 <= i <= |s| - |w| && s[i..i + |w|] == w
  }

  lemma {:induction false} ContainsAt(s: string, w: string)
    ensures Contains(s, w) <==> exists i :: OccursAt(s, w, i)
  {
    if StartsWith(s, w) {
      assert OccursAt(s, w, 0);
    }
    if s != [] {
      ContainsAt(s[1..], w);
      if Contains(s[1..], w) {
        var i :| OccursAt(s[1..], w, i);
        var here, there := s[i + 1..i + 1 + |w|], s[1..][i..i + |w|];
        forall k | 0 <= k < |w| ensures here[k] == there[k] {
          assert s[1..][i + k] == s[i + 1 + k];
        }
        assert here == there;
        assert OccursAt(s, w, i + 1);
      }
      if exists i :: OccursAt(s, w, i) {
        var i :| OccursAt(s, w, i);
        if i > 0 {
          assert s[1..][i - 1..i - 1 + |w|] == s[i..i + |w|];
          assert OccursAt(s[1..], w, i - 1);
        }
      }
    } else if exists i :: OccursAt(s, w, i) {
      var i :| OccursAt(s, w, i);
      assert i == 0 && w == [];
    }
  }

  /** `String(b)` for a boolean */
  function BoolToString(b: bool): string {
    if b then "true" else "false"
  }

  function DigitChar(d: nat): char
    requires d < 10
  {
    ('0' as int + d) as char
  }

  function NatToString(n: nat): (r: string)
    ensures |r| > 0
    ensures forall k :: 0 <= k < |r| ==> '0' <= r[k] <= '9'
  {
    if n < 10 then [DigitChar(n)] else NatToString(n / 10) + [DigitChar(n % 10)]
  }

  /** `String(n)` for an integer */
  function IntToString(n: int): string {
    if n < 0 then "-" + NatToString(-n) else NatToString(n)
  }

  /** `items.join(sep)` */
  function Join(items: seq<string>, sep: string): string {
    if items == [] then ""
    else if |items| == 1 then items[0]
    else items[0] + sep + Join(items[1..], sep)
  }

  /** Rounds a non-negative real to the nearest tenth, halves upward. */
  function RoundTenths(x: real): (r: real)
    requires x >= 0.0
    ensures -0.05 < r - x <= 0.05 && r >= 0.0
  {
    (x * 10.0 + 0.5).Floor as real / 10.0
  }

  /** Rounds a non-negative real to the nearest hundredth, halves upward. */
  function RoundHundredths(x: real): (r: real)
    requires x >= 0.0
    ensures -0.005 < r - x <= 0.005 && r >= 0.0
  {
    (x * 100.0 + 0.5).Floor as real / 100.0
  }

  /** `Number(x.toFixed(1))` on the exact value of `x`: toFixed rounds the magnitude and
      keeps the sign, so halves go away from zero. */
  function ToFixed1(x: real): (r: real)
    ensures -0.05 <= r - x <= 0.05
    ensures x >= 0.0 ==> r >= 0.0
  {
    if x < 0.0 then -RoundTenths(-x) else RoundTenths(x)
  }

  /** `Number(x.toFixed(2))` on the exact value of `x`. */
  function ToFixed2(x: real): (r: real)
    ensures -0.005 <= r - x <= 0.005
    ensures x >= 0.0 ==> r >= 0.0
  {
    if x < 0.0 then -RoundHundredths(-x) else RoundHundredths(x)
  }
}
