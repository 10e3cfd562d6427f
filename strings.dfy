/** String helpers: ASCII lower-casing stands in for the culture-sensitive
    `ToLower`, plus `string.IsNullOrEmpty` and `string.Join`. */
module Strings {
  import opened Wrappers

  function LowerChar(c: char): char {
    if 'A' <= c <= 'Z' then (c as int + 32) as char else c
  }

  predicate IsLowerChar(c: char) {
    !('A' <= c <= 'Z')
  }

  /** `s.ToLower()` over ASCII. */
  function ToLower(s: string): (r: string)
    ensures |r| == |s|
    ensures forall i :: 0 <= i < |s| ==> r[i] == LowerChar(s[i])
  {
    if s == [] then [] else [LowerChar(s[0])] + ToLower(s[1..])
  }

  /** Every character of a lower-cased string is already lower case, so that
      lower-casing twice is the same as once. */
  lemma {:induction false} ToLowerIdempotent(s: string)
    ensures ToLower(ToLower(s)) == ToLower(s)
  {
    var t := ToLower(s);
    assert forall i :: 0 <= i < |t| ==> LowerChar(t[i]) == t[i];
    assert ToLower(t) == t;
  }

  /** `a.ToLower() == b.ToLower()`. */
  predicate EqualsIgnoreCase(a: string, b: string) {
    ToLower(a) == ToLower(b)
  }

  /** `a?.ToLower()`: a null reference stays null. */
  function LowerOrNull(s: Option<string>): (r: Option<string>)
    ensures r.None? <==> s.None?
    ensures r.Some? ==> |r.value| == |s.value| && ToLower(r.value) == r.value
  {
    match s
    case None => None
    case Some(t) => ToLowerIdempotent(t); Some(ToLower(t))
  }

  /** `a.ToLower() == b.ToLower()` on references that may be null: `None`
      when either `ToLower` call would throw a NullReferenceException. */
  function LowerEquals(a: Option<string>, b: Option<string>): (r: Option<bool>)
    ensures r.None? <==> (a.None? || b.None?)
    ensures r.Some? ==> (r.value <==> EqualsIgnoreCase(a.value, b.value))
  {
    if a.None? || b.None? then None else Some(EqualsIgnoreCase(a.value, b.value))
  }

  /** `string.IsNullOrEmpty(s)`. */
  predicate IsNullOrEmpty(s: Option<string>) {
    s.None? || s.value == ""
  }

  /** A null reference interpolated into a C# string reads as empty text. */
  function Text(s: Option<string>): string {
    if s.None? then "" else s.value
  }

  /** `string.Join(sep, xs)`. */
  function Join(sep: string, xs: seq<string>): string {
    if xs == [] then "" else if |xs| == 1 then xs[0] else xs[0] + sep + Join(sep, xs[1..])
  }
}
