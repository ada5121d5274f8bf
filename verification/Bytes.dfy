/** Octets, big-endian integers, UTF-8 text and byte order: the vocabulary that
    the codec and the vaults share. */
module Bytes {

  type byte = n: int | 0 <= n < 256

  type bytes = seq<byte>

  /** `Option`, as the source uses it for absent fields. */
  datatype Option<+T> = None | Some(value: T)

  const U16_LIMIT: nat := 0x1_0000
  const U32_LIMIT: nat := 0x1_0000_0000
  const U64_LIMIT: nat := 0x1_0000_0000_0000_0000

  type u64 = n: int | 0 <= n < U64_LIMIT

  /** Text is the bytes of a well-formed UTF-8 string, as a Rust `String` is. */
  type text = s: bytes | ValidUtf8(s)

  // ---------------------------------------------------------------------
  // Big-endian integers
  // ---------------------------------------------------------------------

  function Pow256(k: nat): (p: nat)
    ensures p > 0
  {
    if k == 0 then 1 else 256 * Pow256(k - 1)
  }

  /** The `k` low-order octets of `n`, most significant first (`to_be_bytes`). */
  function ToBigEndian(n: nat, k: nat): (s: bytes)
    ensures |s| == k
  {
    if k == 0 then [] else ToBigEndian(n / 256, k - 1) + [n % 256]
  }

  /** The value of `s` read most significant octet first (`from_be_bytes`). */
  function FromBigEndian(s: bytes): (n: nat)
    ensures n < Pow256(|s|)
  {
    if s == [] then 0 else FromBigEndian(s[..|s| - 1]) * 256 + s[|s| - 1]
  }

  lemma {:induction false} BigEndianRoundTrip(n: nat, k: nat)
    requires n < Pow256(k)
    ensures FromBigEndian(ToBigEndian(n, k)) == n
  {
    if k > 0 {
      Quotient(n, Pow256(k - 1));
      BigEndianRoundTrip(n / 256, k - 1);
      LastOctet(ToBigEndian(n / 256, k - 1), n % 256);
    }
  }

  lemma LastOctet(front: bytes, last: byte)
    ensures FromBigEndian(front + [last]) == FromBigEndian(front) * 256 + last
  {
    assert (front + [last])[..|front|] == front;
  }

  lemma Quotient(n: nat, p: nat)
    requires n < 256 * p
    ensures n / 256 < p && n / 256 * 256 + n % 256 == n
  {
  }

  lemma {:induction false} BigEndianCanonical(s: bytes)
    ensures ToBigEndian(FromBigEndian(s), |s|) == s
  {
    if s != [] {
      BigEndianCanonical(s[..|s| - 1]);
      assert s == s[..|s| - 1] + [s[|s| - 1]];
    }
  }

  /** The widths the formats use are exactly the machine-integer ranges. */
  lemma Widths()
    ensures Pow256(1) == 256
    ensures Pow256(2) == U16_LIMIT
    ensures Pow256(4) == U32_LIMIT
    ensures Pow256(8) == U64_LIMIT
  {
    assert Pow256(3) == 0x100_0000;
    assert Pow256(5) == 0x100_0000_0000;
    assert Pow256(6) == 0x1_0000_0000_0000;
    assert Pow256(7) == 0x100_0000_0000_0000;
  }

  // ---------------------------------------------------------------------
  // UTF-8 (section 4 of RFC 3629)
  // ---------------------------------------------------------------------

  predicate Continuation(b: byte) { 0x80 <= b <= 0xBF }

  /** The length of the well-formed character at the head of `s`, or 0. */
  function CharWidth(s: bytes): (w: nat)
    ensures w <= |s|
  {
    if |s| == 0 then 0
    else if s[0] <= 0x7F then 1
    else if |s| >= 2 && 0xC2 <= s[0] <= 0xDF && Continuation(s[1]) then 2
    else if |s| >= 3 && 0xE0 <= s[0] <= 0xEF && Continuation(s[1]) && Continuation(s[2])
            && (s[0] == 0xE0 ==> s[1] >= 0xA0) && (s[0] == 0xED ==> s[1] <= 0x9F) then 3
    else if |s| >= 4 && 0xF0 <= s[0] <= 0xF4 && Continuation(s[1]) && Continuation(s[2]) && Continuation(s[3])
            && (s[0] == 0xF0 ==> s[1] >= 0x90) && (s[0] == 0xF4 ==> s[1] <= 0x8F) then 4
    else 0
  }

  predicate ValidUtf8(s: bytes)
  {
    s == [] || (CharWidth(s) > 0 && ValidUtf8(s[CharWidth(s)..]))
  }

  /** Whether the character at the head of `s` has the White_Space property. */
  predicate LeadsWithSpace(s: bytes)
  {
    var w := CharWidth(s);
    if w == 1 then 0x09 <= s[0] <= 0x0D || s[0] == 0x20
    else if w == 2 then s[0] == 0xC2 && (s[1] == 0x85 || s[1] == 0xA0)
    else if w == 3 then
      || (s[0] == 0xE1 && s[1] == 0x9A && s[2] == 0x80)
      || (s[0] == 0xE2 && s[1] == 0x80 && (0x80 <= s[2] <= 0x8A || 0xA8 <= s[2] <= 0xA9 || s[2] == 0xAF))
      || (s[0] == 0xE2 && s[1] == 0x81 && s[2] == 0x9F)
      || (s[0] == 0xE3 && s[1] == 0x80 && s[2] == 0x80)
    else false
  }

  /** `s.trim().is_empty()`: nothing but white space. */
  predicate Blank(s: bytes)
  {
    s == [] || (CharWidth(s) > 0 && LeadsWithSpace(s) && Blank(s[CharWidth(s)..]))
  }

  // ---------------------------------------------------------------------
  // Prefixes and byte order
  // ---------------------------------------------------------------------

  predicate StartsWith(s: bytes, p: bytes)
  {
    |p| <= |s| && s[..|p|] == p
  }

  lemma StartsWithConcat(p: bytes, rest: bytes)
    ensures StartsWith(p + rest, p)
    ensures (p + rest)[|p|..] == rest
  {
    assert (p + rest)[..|p|] == p;
  }

  lemma StartsWithSplit(s: bytes, p: bytes)
    requires StartsWith(s, p)
    ensures s == p + s[|p|..]
  {
  }

  lemma ConcatAssociative(a: bytes, b: bytes, c: bytes)
    ensures a + (b + c) == (a + b) + c
  {
  }

  /** Lexical byte order, strict: how Rust compares `str` and `[u8]`. */
  predicate Less(a: bytes, b: bytes)
  {
    b != [] && (a == [] || a[0] < b[0] || (a[0] == b[0] && Less(a[1..], b[1..])))
  }

  lemma {:induction false} LessTotal(a: bytes, b: bytes)
    ensures a == b || Less(a, b) || Less(b, a)
    ensures !(Less(a, b) && (a == b || Less(b, a)))
  {
    if a != [] && b != [] {
      LessTotal(a[1..], b[1..]);
      assert a == [a[0]] + a[1..] && b == [b[0]] + b[1..];
    }
  }

  lemma {:induction false} LessTransitive(a: bytes, b: bytes, c: bytes)
    requires Less(a, b) && Less(b, c)
    ensures Less(a, c)
  {
    if a != [] && a[0] == b[0] == c[0] {
      LessTransitive(a[1..], b[1..], c[1..]);
    }
  }

  // ---------------------------------------------------------------------
  // Search
  // ---------------------------------------------------------------------

  /** The first element from `i` on that satisfies `p`. */
  function FirstFrom<T>(s: seq<T>, p: T -> bool, i: nat): (r: Option<nat>)
    requires i <= |s|
    ensures r.Some? ==> i <= r.value < |s| && p(s[r.value]) && forall j | i <= j < r.value :: !p(s[j])
    ensures r.None? ==> forall j | i <= j < |s| :: !p(s[j])
    decreases |s| - i
  {
    if i == |s| then None else if p(s[i]) then Some(i) else FirstFrom(s, p, i + 1)
  }

  method FindFirst<T>(s: seq<T>, p: T -> bool) returns (r: Option<nat>)
    ensures r == FirstFrom(s, p, 0)
  {
    var i := 0;
    while i < |s|
      invariant i <= |s| && FirstFrom(s, p, i) == FirstFrom(s, p, 0)
    {
      if p(s[i]) { return Some(i); }
      i := i + 1;
    }
    return None;
  }
}
