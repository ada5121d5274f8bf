/** UTF-8 by its encoder (section 3 of RFC 3629): the byte strings that `Bytes` accepts are
    exactly the encodings of scalar values, and the blank ones those of white space. */
module Utf8Text {
  import opened Bytes

  predicate Scalar(n: nat) { n < 0xD800 || 0xE000 <= n < 0x110000 }

  /** The scalar values with the White_Space property. */
  predicate White(n: nat)
  {
    n in {0x20, 0x85, 0xA0, 0x1680, 0x2028, 0x2029, 0x202F, 0x205F, 0x3000} || 0x09 <= n <= 0x0D || 0x2000 <= n <= 0x200A
  }

  function EncodedScalar(n: nat): (s: bytes)
    requires Scalar(n)
    ensures 1 <= |s| <= 4
  {
    if n < 0x80 then [n]
    else if n < 0x800 then [0xC0 + n / 64, 0x80 + n % 64]
    else if n < 0x10000 then [0xE0 + n / 4096, 0x80 + n / 64 % 64, 0x80 + n % 64]
    else [0xF0 + n / 262144, 0x80 + n / 4096 % 64, 0x80 + n / 64 % 64, 0x80 + n % 64]
  }

  predicate Scalars(ns: seq<nat>) { forall i | 0 <= i < |ns| :: Scalar(ns[i]) }

  predicate Whites(ns: seq<nat>) { forall i | 0 <= i < |ns| :: White(ns[i]) }

  function Encoded(ns: seq<nat>): (s: bytes)
    requires Scalars(ns)
  {
    if ns == [] then [] else EncodedScalar(ns[0]) + Encoded(ns[1..])
  }

  /** The number with these base-64 digits behind `high`. */
  function Digits2(high: nat, c: nat): (n: nat) { high * 64 + c }

  function Digits3(high: nat, b: nat, c: nat): (n: nat) { Digits2(Digits2(high, b), c) }

  function Digits4(high: nat, a: nat, b: nat, c: nat): (n: nat) { Digits2(Digits3(high, a, b), c) }

  /** The low bits of a continuation byte. */
  function Low(c: byte): (n: nat) { if c >= 0x80 then c - 0x80 else 0 }

  /** The scalar value at the head of `s`. */
  function HeadScalar(s: bytes): (n: nat)
    requires CharWidth(s) > 0
  {
    var first: nat := s[0];
    match CharWidth(s)
    case 1 => first
    case 2 => Digits2(first - 0xC0, Low(s[1]))
    case 3 => Digits3(first - 0xE0, Low(s[1]), Low(s[2]))
    case _ => Digits4(first - 0xF0, Low(s[1]), Low(s[2]), Low(s[3]))
  }

  lemma OneDigit(high: nat, c: nat)
    requires c < 64
    ensures Digits2(high, c) / 64 == high && Digits2(high, c) % 64 == c
  {
  }

  lemma Shifts(n: nat)
    ensures n / 4096 == n / 64 / 64 && n / 262144 == n / 64 / 64 / 64
  {
  }

  lemma DigitsBack(high: nat, a: nat, b: nat, c: nat)
    requires a < 64 && b < 64 && c < 64
    ensures Digits2(high, c) / 64 == high && Digits2(high, c) % 64 == c
    ensures var n := Digits3(high, b, c); n / 4096 == high && n / 64 % 64 == b && n % 64 == c
    ensures var n := Digits4(high, a, b, c); n / 262144 == high && n / 4096 % 64 == a && n / 64 % 64 == b && n % 64 == c
  {
    hide Digits2;
    OneDigit(high, c);
    OneDigit(high, b);
    OneDigit(Digits2(high, b), c);
    Shifts(Digits3(high, b, c));
    OneDigit(high, a);
    OneDigit(Digits2(high, a), b);
    OneDigit(Digits3(high, a, b), c);
    Shifts(Digits4(high, a, b, c));
  }

  lemma DigitsOf(n: nat)
    ensures n == Digits2(n / 64, n % 64)
    ensures n == Digits3(n / 4096, n / 64 % 64, n % 64)
    ensures n == Digits4(n / 262144, n / 4096 % 64, n / 64 % 64, n % 64)
  {
    Shifts(n);
  }

  lemma HeadBounds(s: bytes)
    requires CharWidth(s) > 0
    ensures var n := HeadScalar(s);
      && Scalar(n) && (CharWidth(s) == 1 <==> n < 0x80) && (CharWidth(s) <= 2 <==> n < 0x800) && (CharWidth(s) <= 3 <==> n < 0x10000)
  {
  }

  lemma EncodesTwo(s: bytes)
    requires CharWidth(s) == 2
    ensures Scalar(HeadScalar(s)) && EncodedScalar(HeadScalar(s)) == s[..2]
  {
    HeadBounds(s);
    DigitsBack(s[0] - 0xC0, 0, 0, Low(s[1]));
    hide Scalar, Digits2;
  }

  lemma EncodesThree(s: bytes)
    requires CharWidth(s) == 3
    ensures Scalar(HeadScalar(s)) && EncodedScalar(HeadScalar(s)) == s[..3]
  {
    HeadBounds(s);
    DigitsBack(s[0] - 0xE0, 0, Low(s[1]), Low(s[2]));
    hide Scalar, Digits3;
  }

  lemma EncodesFour(s: bytes)
    requires CharWidth(s) == 4
    ensures Scalar(HeadScalar(s)) && EncodedScalar(HeadScalar(s)) == s[..4]
  {
    HeadBounds(s);
    DigitsBack(s[0] - 0xF0, Low(s[1]), Low(s[2]), Low(s[3]));
    hide Scalar, Digits4;
  }

  lemma HeadEncodes(s: bytes)
    requires CharWidth(s) > 0
    ensures Scalar(HeadScalar(s)) && EncodedScalar(HeadScalar(s)) == s[..CharWidth(s)]
  {
    HeadBounds(s);
    hide Digits2, Digits3, Digits4;
    match CharWidth(s)
    case 1 =>
    case 2 => EncodesTwo(s);
    case 3 => EncodesThree(s);
    case _ => EncodesFour(s);
  }

  lemma HeadIsSpace(s: bytes)
    requires CharWidth(s) > 0
    ensures LeadsWithSpace(s) <==> White(HeadScalar(s))
  {
  }

  /** The bytes of `s` start with those of the scalar. */
  predicate Leads(s: bytes, n: nat)
    requires Scalar(n)
  {
    |s| >= |EncodedScalar(n)| && forall i | 0 <= i < |EncodedScalar(n)| :: s[i] == EncodedScalar(n)[i]
  }

  lemma WidthOfScalar(n: nat, s: bytes)
    requires Scalar(n) && Leads(s, n)
    ensures CharWidth(s) == |EncodedScalar(n)|
  {
    var e := EncodedScalar(n);
    assert s[0] == e[0] && (|e| > 1 ==> s[1] == e[1]) && (|e| > 2 ==> s[2] == e[2]) && (|e| > 3 ==> s[3] == e[3]);
  }

  lemma ScalarWidth(n: nat, s: bytes)
    requires Scalar(n) && Leads(s, n)
    ensures CharWidth(s) == |EncodedScalar(n)| && HeadScalar(s) == n
  {
    hide CharWidth, Digits2, Digits3, Digits4;
    WidthOfScalar(n, s);
    DigitsOf(n);
    var e := EncodedScalar(n);
    assert s[0] == e[0] && (|e| > 1 ==> s[1] == e[1]) && (|e| > 2 ==> s[2] == e[2]) && (|e| > 3 ==> s[3] == e[3]);
  }

  lemma ScalarAtHead(n: nat, rest: bytes)
    requires Scalar(n)
    ensures var s := EncodedScalar(n) + rest; CharWidth(s) == |EncodedScalar(n)| && HeadScalar(s) == n && s[CharWidth(s)..] == rest
  {
    hide CharWidth, EncodedScalar, HeadScalar;
    ScalarWidth(n, EncodedScalar(n) + rest);
  }

  /** Encodings are valid, and blank exactly when all is white space. */
  lemma {:induction false} EncodedIsValid(ns: seq<nat>)
    requires Scalars(ns)
    ensures ValidUtf8(Encoded(ns)) && (Blank(Encoded(ns)) <==> Whites(ns))
  {
    hide CharWidth, EncodedScalar, HeadScalar, Scalar, White, LeadsWithSpace;
    if ns != [] {
      ScalarAtHead(ns[0], Encoded(ns[1..]));
      HeadIsSpace(Encoded(ns));
      EncodedIsValid(ns[1..]);
      assert forall i | 1 <= i < |ns| :: ns[i] == ns[1..][i - 1];
    }
  }

  lemma {:induction false} Decodes(s: bytes) returns (ns: seq<nat>)
    requires ValidUtf8(s)
    ensures Scalars(ns) && s == Encoded(ns)
  {
    if s == [] {
      ns := [];
    } else {
      hide CharWidth, EncodedScalar, HeadScalar, Scalar;
      var rest := Decodes(s[CharWidth(s)..]);
      HeadEncodes(s);
      ns := [HeadScalar(s)] + rest;
      assert ns[1..] == rest && s == s[..CharWidth(s)] + s[CharWidth(s)..];
    }
  }

  /** The valid byte strings are the encodings of scalar values. */
  lemma ValidExactly(s: bytes)
    ensures ValidUtf8(s) <==> exists ns | Scalars(ns) :: s == Encoded(ns)
  {
    hide ValidUtf8, Encoded, Blank;
    if ValidUtf8(s) {
      var ns := Decodes(s);
    }
    if ns :| Scalars(ns) && s == Encoded(ns) {
      EncodedIsValid(ns);
    }
  }

  /** The text is nothing but white space. */
  ghost predicate OnlySpace(s: bytes) { exists ns | Scalars(ns) && Whites(ns) :: s == Encoded(ns) }

  /** `s.trim().is_empty()` is being nothing but white space. */
  lemma BlankExactly(s: text)
    ensures Blank(s) <==> OnlySpace(s)
  {
    hide ValidUtf8, Encoded, Blank, Scalars, Whites;
    var ns := Decodes(s);
    EncodedIsValid(ns);
    if OnlySpace(s) {
      var ms :| Scalars(ms) && Whites(ms) && s == Encoded(ms);
      EncodedIsValid(ms);
    }
  }
}
