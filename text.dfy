/** Small shared vocabulary: an optional value and the longest-prefix scan
    that both the request tokenizer and the response parser are built from. */
module Text {

  datatype Option<+T> = None | Some(value: T)

  /** Every character of `s` satisfies `keep`. */
  predicate All(s: string, keep: char -> bool) {
    forall i :: 0 <= i < |s| ==> keep(s[i])
  }

  /** The length of the longest prefix of `s` whose characters all satisfy `keep`. */
  function SpanLength(s: string, keep: char -> bool): (n: nat)
    ensures n <= |s|
    ensures forall i :: 0 <= i < n ==> keep(s[i])
    ensures n < |s| ==> !keep(s[n])
  {
    if s == [] || !keep(s[0]) then 0 else 1 + SpanLength(s[1..], keep)
  }

  /** A prefix whose characters satisfy `keep`, followed by the end of the
      string or by a character that does not, is exactly what `SpanLength` measures. */
  lemma {:induction false} SpanLengthOf(a: string, b: string, keep: char -> bool)
    requires All(a, keep)
    requires b == [] || !keep(b[0])
    ensures SpanLength(a + b, keep) == |a|
  {
    if a != [] {
      assert (a + b)[0] == a[0];
      assert (a + b)[1..] == a[1..] + b;
      SpanLengthOf(a[1..], b, keep);
    } else {
      assert a + b == b;
    }
  }

  /** `p` is a prefix of `s`. */
  predicate StartsWith(s: string, p: string) {
    |p| <= |s| && s[..|p|] == p
  }

  /** What follows the literal `lit` at the front of `s`, if `s` starts with it. */
  function Expect(s: string, lit: string): (r: Option<string>)
    ensures r.Some? <==> StartsWith(s, lit)
    ensures r.Some? ==> s == lit + r.value
  {
    if StartsWith(s, lit) then
      assert s == s[..|lit|] + s[|lit|..];
      Some(s[|lit|..])
    else None
  }

  lemma ExpectLiteral(lit: string, rest: string)
    ensures Expect(lit + rest, lit) == Some(rest)
  {
    assert (lit + rest)[..|lit|] == lit;
    assert (lit + rest)[|lit|..] == rest;
  }
}
