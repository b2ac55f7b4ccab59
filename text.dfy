/**
 * Bytes and text as the relay sees them.
 *
 * A Rust `String` is a byte vector that is known to be valid UTF-8; the model
 * represents it the same way, as its UTF-8 bytes. `String::from_utf8` accepts
 * a byte vector exactly when `ValidUtf8` holds (the well-formed byte sequences
 * of Table 3-7 of the Unicode Standard, chapter 3), and then keeps the bytes
 * unchanged.
 */
module Text {

  newtype byte = x: int | 0 <= x < 0x100

  type Bytes = seq<byte>

  /** `n` zero bytes: what a zero-filled buffer holds. */
  function Zeros(n: nat): (z: Bytes)
    ensures |z| == n && forall i :: 0 <= i < n ==> z[i] == 0
  {
    seq(n, _ => 0)
  }

  predicate IsAscii(b: byte) { b < 0x80 }

  /** The bytes of an ASCII string literal. */
  function Ascii(s: string): (r: Bytes)
    requires forall i :: 0 <= i < |s| ==> s[i] < 128 as char
    ensures |r| == |s| && forall i :: 0 <= i < |s| ==> r[i] as int == s[i] as int && IsAscii(r[i])
  {
    seq(|s|, i requires 0 <= i < |s| => s[i] as byte)
  }

  /** `A-Z`, `a-z` and `0-9`, the alphabet of rand's `Alphanumeric` distribution. */
  predicate IsAlphanumeric(b: byte) {
    ('A' as byte <= b <= 'Z' as byte) || ('a' as byte <= b <= 'z' as byte) || ('0' as byte <= b <= '9' as byte)
  }

  predicate IsContinuation(b: byte) { 0x80 <= b <= 0xBF }

  /**
   * The length of the well-formed UTF-8 sequence at the start of `s`,
   * or 0 when `s` does not start with one.
   */
  function LeadWidth(s: Bytes): (w: nat)
    requires |s| > 0
    ensures w <= 4 && w <= |s|
    ensures w > 0 ==> forall k :: 0 < k < w ==> IsContinuation(s[k])
    ensures w == 1 <==> IsAscii(s[0])
  {
    var b := s[0];
    if b < 0x80 then 1
    else if 0xC2 <= b <= 0xDF then
      if |s| >= 2 && IsContinuation(s[1]) then 2 else 0
    else if b == 0xE0 then
      if |s| >= 3 && 0xA0 <= s[1] <= 0xBF && IsContinuation(s[2]) then 3 else 0
    else if (0xE1 <= b <= 0xEC) || (0xEE <= b <= 0xEF) then
      if |s| >= 3 && IsContinuation(s[1]) && IsContinuation(s[2]) then 3 else 0
    else if b == 0xED then
      if |s| >= 3 && 0x80 <= s[1] <= 0x9F && IsContinuation(s[2]) then 3 else 0
    else if b == 0xF0 then
      if |s| >= 4 && 0x90 <= s[1] <= 0xBF && IsContinuation(s[2]) && IsContinuation(s[3]) then 4 else 0
    else if 0xF1 <= b <= 0xF3 then
      if |s| >= 4 && IsContinuation(s[1]) && IsContinuation(s[2]) && IsContinuation(s[3]) then 4 else 0
    else if b == 0xF4 then
      if |s| >= 4 && 0x80 <= s[1] <= 0x8F && IsContinuation(s[2]) && IsContinuation(s[3]) then 4 else 0
    else 0
  }

  /** `s` is a concatenation of well-formed UTF-8 sequences. */
  predicate ValidUtf8(s: Bytes)
    decreases |s|
  {
    s == [] || (LeadWidth(s) > 0 && ValidUtf8(s[LeadWidth(s)..]))
  }

  /** The width of a leading sequence depends only on its own bytes. */
  lemma LeadWidthOfPrefix(s: Bytes, t: Bytes)
    requires |s| > 0 && LeadWidth(s) > 0
    requires |t| >= LeadWidth(s) && t[..LeadWidth(s)] == s[..LeadWidth(s)]
    ensures LeadWidth(t) == LeadWidth(s)
  {
    var w := LeadWidth(s);
    assert forall k :: 0 <= k < w ==> t[k] == t[..w][k] == s[..w][k] == s[k];
  }

  /** Text made only of ASCII bytes (in particular, of zero bytes) is valid. */
  lemma {:induction false} AsciiIsValid(s: Bytes)
    requires forall i :: 0 <= i < |s| ==> IsAscii(s[i])
    ensures ValidUtf8(s)
  {
    if s != [] {
      AsciiIsValid(s[1..]);
    }
  }

  /** An ASCII prefix neither makes nor mends an encoding error. */
  lemma {:induction false} AsciiPrefixKeepsValidity(a: Bytes, b: Bytes)
    requires forall i :: 0 <= i < |a| ==> IsAscii(a[i])
    ensures ValidUtf8(a + b) <==> ValidUtf8(b)
  {
    if a != [] {
      assert (a + b)[0] == a[0];
      assert LeadWidth(a + b) == 1;
      assert (a + b)[1..] == a[1..] + b by {
        assert forall k :: 0 <= k < |a| + |b| - 1 ==> (a + b)[1..][k] == (a[1..] + b)[k];
      }
      AsciiPrefixKeepsValidity(a[1..], b);
      assert ValidUtf8(a + b) <==> ValidUtf8((a + b)[1..]);
    } else {
      assert a + b == b;
    }
  }

  /** Splitting a concatenation inside its first part. */
  lemma SplitConcat(a: Bytes, b: Bytes, w: nat)
    requires w <= |a|
    ensures (a + b)[..w] == a[..w] && (a + b)[w..] == a[w..] + b
  {
    assert forall k :: 0 <= k < |a| + |b| - w ==> (a + b)[w..][k] == (a[w..] + b)[k];
  }

  /** Valid texts are closed under concatenation. */
  lemma {:induction false} ConcatIsValid(a: Bytes, b: Bytes)
    requires ValidUtf8(a) && ValidUtf8(b)
    ensures ValidUtf8(a + b)
    decreases |a|
  {
    if a != [] {
      var w := LeadWidth(a);
      SplitConcat(a, b, w);
      LeadWidthOfPrefix(a, a + b);
      ConcatIsValid(a[w..], b);
    } else {
      assert a + b == b;
    }
  }

  /**
   * A leading sequence of `a` followed by zeros lies inside `a`: every byte
   * after its first is a continuation byte, which a zero byte is not.
   */
  lemma LeadWidthBeforeZeros(a: Bytes, n: nat)
    requires a != [] && LeadWidth(a + Zeros(n)) > 0
    ensures LeadWidth(a + Zeros(n)) <= |a|
    ensures LeadWidth(a) == LeadWidth(a + Zeros(n))
  {
    var s := a + Zeros(n);
    var w := LeadWidth(s);
    assert w <= |a| by {
      assert |a| < |s| ==> s[|a|] == 0;
    }
    SplitConcat(a, Zeros(n), w);
    LeadWidthOfPrefix(s, a);
  }

  /**
   * Trailing zero bytes never complete a character: a text followed by
   * zeros is valid exactly when the text itself is.
   */
  lemma {:induction false} ZeroPaddingKeepsValidity(a: Bytes, n: nat)
    ensures ValidUtf8(a + Zeros(n)) <==> ValidUtf8(a)
    decreases |a|
  {
    var z := Zeros(n);
    if ValidUtf8(a) {
      AsciiIsValid(z);
      ConcatIsValid(a, z);
    }
    if a != [] && ValidUtf8(a + z) {
      var w := LeadWidth(a + z);
      LeadWidthBeforeZeros(a, n);
      SplitConcat(a, z, w);
      ZeroPaddingKeepsValidity(a[w..], n);
      assert ValidUtf8(a[w..]);
    }
  }
}
