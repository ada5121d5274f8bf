/** Which bundles encode and which messages decode, field by field and in numbers, and one
    bundle with its exact bytes. */
module OAuthAcceptance {
  import opened Bytes
  import opened OAuthWire
  import opened OAuthBundle
  import opened Utf8Text

  // ---------------------------------------------------------------------
  // The fields
  // ---------------------------------------------------------------------

  const LOWER_BEARER: bytes := [98, 101, 97, 114, 101, 114]
  const UPPER_BEARER: bytes := [66, 69, 65, 82, 69, 82]

  predicate SaysBearer(s: bytes) { |s| == 6 && forall i | 0 <= i < 6 :: s[i] == LOWER_BEARER[i] || s[i] == UPPER_BEARER[i] }

  /** What every bundle must state. */
  ghost predicate Stated(c: Core)
  {
    && !OnlySpace(c.provider) && !OnlySpace(c.issuer) && !OnlySpace(c.audience)
    && (c.resource.Some? ==> !OnlySpace(c.resource.value))
    && SaysBearer(c.tokenType)
    && |c.accessToken| > 0
    && c.expiresAt > 0
    && !OnlySpace(c.subjectHash) && !OnlySpace(c.displayIdentity)
    && |c.scopes| <= 128
    && (forall i | 0 <= i < |c.scopes| :: |c.scopes[i]| > 0)
  }

  predicate Short(b: bytes) { |b| <= 65536 }

  predicate ShortIfAny(b: Option<bytes>) { b.None? || Short(b.value) }

  /** No field is longer than 65536 bytes. */
  predicate ShortFields(b: Bundle)
  {
    var c := b.core;
    && Short(c.provider) && Short(c.issuer) && Short(c.audience) && ShortIfAny(c.resource) && Short(c.tokenType)
    && Short(c.accessToken) && ShortIfAny(c.refreshToken) && (forall i | 0 <= i < |c.scopes| :: Short(c.scopes[i]))
    && Short(c.subjectHash) && Short(c.displayIdentity) && ShortIfAny(b.idToken)
    && (b.accountIdentity.Some? ==>
          var i := b.accountIdentity.value;
          ShortIfAny(i.email) && ShortIfAny(i.displayName) && ShortIfAny(i.accountId) && ShortIfAny(i.plan) && ShortIfAny(i.issuer))
  }

  lemma StatedIsValid(c: Core)
    ensures Stated(c) <==> Valid(c)
  {
    hide Blank, OnlySpace;
    BlankExactly(c.provider);
    BlankExactly(c.issuer);
    BlankExactly(c.audience);
    if c.resource.Some? { BlankExactly(c.resource.value); }
    BlankExactly(c.subjectHash);
    BlankExactly(c.displayIdentity);
    BearerEither(c.tokenType);
  }

  lemma BearerEither(s: bytes)
    ensures IsBearer(s) <==> SaysBearer(s)
  {
    if |s| == 6 {
      assert SaysBearer(s) <==>
        (s[0] == 98 || s[0] == 66) && (s[1] == 101 || s[1] == 69) && (s[2] == 97 || s[2] == 65)
        && (s[3] == 114 || s[3] == 82) && (s[4] == 101 || s[4] == 69) && (s[5] == 114 || s[5] == 82);
    }
  }

  // ---------------------------------------------------------------------
  // The size
  // ---------------------------------------------------------------------

  function TimeSize(n: Option<u64>): (k: nat) { if n.Some? then 9 else 1 }

  function FieldSize(b: bytes): (k: nat) { 4 + |b| }

  function OptionalSize(b: Option<bytes>): (k: nat) { if b.Some? then 5 + |b.value| else 1 }

  function ScopeSizes(scopes: seq<text>): (k: nat) { if scopes == [] then 0 else FieldSize(scopes[0]) + ScopeSizes(scopes[1..]) }

  function CoreSize(c: Core): (k: nat)
  {
    16 + TimeSize(c.refreshExpiresAt) + FieldSize(c.provider) + FieldSize(c.issuer) + FieldSize(c.audience)
    + OptionalSize(c.resource) + FieldSize(c.tokenType) + FieldSize(c.accessToken) + OptionalSize(c.refreshToken)
    + 2 + ScopeSizes(c.scopes) + FieldSize(c.subjectHash) + FieldSize(c.displayIdentity)
  }

  function IdentitySize(i: Identity): (k: nat)
  {
    OptionalSize(i.email) + OptionalSize(i.displayName) + OptionalSize(i.accountId) + OptionalSize(i.plan)
    + OptionalSize(i.issuer) + 9
  }

  function EncodedSize(b: Bundle): (k: nat)
  {
    20 + CoreSize(b.core)
    + (if b.refreshAfter.Some? || b.refreshRejectedUntil.Some?
       then 24 + TimeSize(b.refreshAfter) + TimeSize(b.refreshRejectedUntil)
       else if b.refreshOnFirstUse then 22 else 0)
    + (if b.imported.Some? then 59 else 0)
    + (if b.accountIdentity.None? && b.idToken.None? then 0
       else 25 + (if b.accountIdentity.Some? then IdentitySize(b.accountIdentity.value) else 0) + OptionalSize(b.idToken))
  }

  lemma {:induction false} ScopesWritten(scopes: seq<text>, rest: bytes)
    requires ScopesFit(scopes)
    ensures |Scopes(scopes, rest)| == ScopeSizes(scopes) + |rest|
  {
    if scopes != [] { ScopesWritten(scopes[1..], rest); }
  }

  lemma CoreWritten(c: Core, rest: bytes)
    requires CoreFits(c)
    ensures |CoreBytes(c, rest)| == CoreSize(c) + |rest|
  {
    ScopesWritten(c.scopes, Field(c.subjectHash) + (Field(c.displayIdentity) + rest));
  }

  lemma IdentityWritten(i: Identity, rest: bytes)
    requires IdentityFits(i)
    ensures |IdentityBytes(i, rest)| == IdentitySize(i) + |rest|
  {
  }

  lemma ExtensionWritten(x: IdentityExtension)
    requires ExtensionFits(x)
    ensures |ExtensionBytes(x, [])| ==
      (if x.NoIdentity? then 0
       else 25 + (if x.identity.Some? then IdentitySize(x.identity.value) else 0) + OptionalSize(x.idToken))
  {
    hide IdentityBytes, IdentitySize;
    if x.WithIdentity? && x.identity.Some? { IdentityWritten(x.identity.value, OptionalField(x.idToken) + []); }
  }

  lemma LifecycleWritten(l: Lifecycle, rest: bytes)
    ensures |LifecycleBytes(l, rest)| == |rest| +
      (if l.NoLifecycle? then 0 else if l.FirstUse? then 22 else 24 + TimeSize(l.after) + TimeSize(l.rejectedUntil))
  {
  }

  lemma FingerprintWritten(f: Option<fingerprint>, rest: bytes)
    ensures |FingerprintBytes(f, rest)| == |rest| + if f.Some? then 59 else 0
  {
  }

  lemma Written(b: Bundle)
    requires Fits(WireOf(b))
    ensures |Write(WireOf(b))| == EncodedSize(b)
  {
    hide CoreBytes, ExtensionBytes, LifecycleBytes, FingerprintBytes, CoreSize, IdentitySize, CoreFits, ExtensionFits;
    var w := WireOf(b);
    var s1 := ExtensionBytes(w.identity, []);
    var s2 := FingerprintBytes(w.imported, s1);
    var s3 := LifecycleBytes(w.lifecycle, s2);
    ExtensionWritten(w.identity);
    FingerprintWritten(w.imported, s1);
    LifecycleWritten(w.lifecycle, s2);
    CoreWritten(w.core, s3);
  }

  lemma ShortFits(b: Bundle)
    requires |b.core.scopes| <= 128
    ensures ShortFields(b) <==> Fits(WireOf(b))
  {
  }

  // ---------------------------------------------------------------------
  // Acceptance
  // ---------------------------------------------------------------------

  /** A bundle encodes if and only if its fields are stated, none is too long, and the whole is at most
      262144 bytes; each failing part has its own error, in that order; and the size is exact. */
  lemma EncodeExact(b: Bundle)
    ensures Encode(b).Ok? <==> Stated(b.core) && ShortFields(b) && EncodedSize(b) <= 262144
    ensures !Stated(b.core) ==> Encode(b) == Err(InvalidFields)
    ensures Stated(b.core) && !ShortFields(b) ==> Encode(b) == Err(FieldOversized)
    ensures Stated(b.core) && ShortFields(b) && EncodedSize(b) > 262144 ==> Encode(b) == Err(BundleOversized)
    ensures Encode(b).Ok? ==> |Encode(b).value| == EncodedSize(b)
  {
    hide Valid, Write, WireOf, EncodedSize, ShortFields, Fits;
    StatedIsValid(b.core);
    if Stated(b.core) {
      ShortFits(b);
      if Fits(WireOf(b)) { Written(b); }
    }
  }

  /** A message decodes if and only if its fields are stated; otherwise its fields are named invalid. */
  lemma DecodeExact(w: Wire)
    requires Fits(w) && |Write(w)| <= 262144
    ensures Decode(Write(w)) == if Stated(w.core) then Ok(BundleOf(w)) else Err(InvalidFields)
  {
    hide Valid, Write, Read, Fits, BundleOf;
    WireBack(w);
    StatedIsValid(w.core);
  }

  /** Nothing else decodes. */
  lemma DecodeOnly(s: bytes)
    ensures Decode(s).Ok? <==> exists w :: Fits(w) && Write(w) == s && |s| <= 262144 && Stated(w.core)
  {
    hide Valid, Write, Fits, BundleOf, Stated;
    if Decode(s).Ok? {
      var w := Read(s).value;
      StatedIsValid(w.core);
    }
    if w :| Fits(w) && Write(w) == s && |s| <= 262144 && Stated(w.core) {
      DecodeExact(w);
    }
  }

  // ---------------------------------------------------------------------
  // The bytes themselves
  // ---------------------------------------------------------------------

  type letter = c: byte | 65 <= c <= 122 witness 65

  function One(c: letter): (t: text)
    ensures t == [c]
  {
    LetterIsText(c);
    [c]
  }

  lemma LetterIsText(c: letter)
    ensures ValidUtf8([c]) && !Blank([c])
  {
    assert [c][1..] == [];
  }

  /** `Bearer` */
  function Bearer(): (t: text)
    ensures t == [66, 101, 97, 114, 101, 114]
  {
    var t: bytes := [66, 101, 97, 114, 101, 114];
    AsciiIsText(t);
    t
  }

  lemma {:induction false} AsciiIsText(s: bytes)
    requires forall i | 0 <= i < |s| :: s[i] < 128
    ensures ValidUtf8(s)
  {
    if s != [] { AsciiIsText(s[1..]); }
  }

  /** A number below 256 is zeros and one octet. */
  lemma {:induction false} SmallNumber(n: nat, k: nat)
    requires n < 256
    ensures ToBigEndian(n, k + 1) == seq(k, _ => 0) + [n]
    ensures k >= 1 ==> ToBigEndian(n, k) == seq(k - 1, _ => 0) + [n]
  {
    ZeroBytes(k);
    if k >= 1 { ZeroBytes(k - 1); }
  }

  lemma {:induction false} ZeroBytes(k: nat)
    ensures ToBigEndian(0, k) == seq(k, _ => 0)
  {
    if k > 0 { ZeroBytes(k - 1); }
  }

  lemma Expiry()
    ensures U64Bytes(1700000000000) == [0, 0, 1, 139, 207, 229, 104, 0]
  {
    ZeroBytes(2);
    assert ToBigEndian(1, 3) == [0, 0, 1];
    assert ToBigEndian(395, 4) == [0, 0, 1, 139];
    assert ToBigEndian(101327, 5) == [0, 0, 1, 139, 207];
    assert ToBigEndian(25939941, 6) == [0, 0, 1, 139, 207, 229];
    assert ToBigEndian(6640625000, 7) == [0, 0, 1, 139, 207, 229, 104];
  }

  /** A field of one letter. */
  function Framed(c: byte): (b: bytes) { [0, 0, 0, 1, c] }

  lemma LetterField(c: letter)
    ensures FieldFits([c]) && Field([c]) == Framed(c)
  {
    SmallNumber(1, 4);
  }

  /** An ordinary bearer token that expires at 1700000000000: the fields of `s` in the order in which
      they are declared, one letter each. */
  function Ordinary(s: seq<letter>): (b: Bundle)
    requires |s| == 7
  {
    Bundle(Core(1, 1700000000000, None, One(s[0]), One(s[1]), One(s[2]), None, Bearer(), [s[3]], None,
                [One(s[4])], One(s[5]), One(s[6])),
           false, None, None, None, None, None)
  }

  const ONE: bytes := [0, 0, 0, 0, 0, 0, 0, 1]
  const EXPIRY: bytes := [0, 0, 1, 139, 207, 229, 104, 0]
  const BEARER_FIELD: bytes := [0, 0, 0, 6, 66, 101, 97, 114, 101, 114]

  function GrantPart(s: seq<letter>, rest: bytes): (b: bytes)
    requires |s| == 7
  {
    [0, 1] + (Framed(s[4]) + (Framed(s[5]) + (Framed(s[6]) + rest)))
  }

  function TokenPart(s: seq<letter>, rest: bytes): (b: bytes)
    requires |s| == 7
  {
    [0] + (BEARER_FIELD + (Framed(s[3]) + ([0] + GrantPart(s, rest))))
  }

  function OrdinaryBytes(s: seq<letter>, rest: bytes): (b: bytes)
    requires |s| == 7
  {
    MAGIC + (ONE + (EXPIRY + ([0] + (Framed(s[0]) + (Framed(s[1]) + (Framed(s[2]) + TokenPart(s, rest)))))))
  }

  /** An ordinary bundle is far within the limits. */
  lemma OrdinaryFits(s: seq<letter>)
    requires |s| == 7
    ensures CoreFits(Ordinary(s).core)
  {
  }

  lemma GrantWritten(s: seq<letter>, rest: bytes)
    requires |s| == 7
    ensures CoreFits(Ordinary(s).core) && GrantBytes(Ordinary(s).core, rest) == GrantPart(s, rest)
  {
    hide Framed, CoreFits, Bearer;
    var c := Ordinary(s).core;
    OrdinaryFits(s);
    assert ToBigEndian(1, 2) == [0, 1] by { SmallNumber(1, 2); }
    hide ToBigEndian, Field, Scopes;
    LetterField(s[4]);
    LetterField(s[5]);
    LetterField(s[6]);
    OneScope(One(s[4]), Field([s[5]]) + (Field([s[6]]) + rest));
  }

  lemma OneScope(v: text, rest: bytes)
    requires FieldFits(v)
    ensures Scopes([v], rest) == Field(v) + rest
  {
    assert [v][1..] == [];
    assert Scopes([], rest) == rest;
  }

  lemma BearerWritten()
    ensures FieldFits(Bearer()) && Field(Bearer()) == BEARER_FIELD
  {
    SmallNumber(6, 4);
  }

  lemma TokensWritten(s: seq<letter>, rest: bytes)
    requires |s| == 7
    ensures CoreFits(Ordinary(s).core) && TokenBytes(Ordinary(s).core, rest) == TokenPart(s, rest)
  {
    hide Framed, GrantBytes, GrantPart, CoreFits, ToBigEndian, Field, One, Bearer;
    BearerWritten();
    LetterField(s[3]);
    GrantWritten(s, rest);
  }

  lemma OrdinaryWritten(s: seq<letter>, rest: bytes)
    requires |s| == 7
    ensures CoreFits(Ordinary(s).core) && MAGIC + CoreBytes(Ordinary(s).core, rest) == OrdinaryBytes(s, rest)
  {
    hide Framed, TokenBytes, TokenPart, CoreFits;
    assert U64Bytes(1) == ONE by { SmallNumber(1, 8); }
    Expiry();
    hide ToBigEndian, Field, U64Bytes;
    LetterField(s[0]);
    LetterField(s[1]);
    LetterField(s[2]);
    TokensWritten(s, rest);
  }

  lemma OrdinaryStated(s: seq<letter>)
    requires |s| == 7
    ensures Valid(Ordinary(s).core)
  {
    hide One, Blank, Bearer;
    LetterIsText(s[0]);
    LetterIsText(s[1]);
    LetterIsText(s[2]);
    LetterIsText(s[5]);
    LetterIsText(s[6]);
    assert IsBearer(Bearer());
  }

  /** Ordinary bundles do encode, to exactly these bytes, and decode from them. */
  lemma OrdinaryEncodes(s: seq<letter>)
    requires |s| == 7
    ensures Encode(Ordinary(s)) == Ok(OrdinaryBytes(s, [])) && Decode(OrdinaryBytes(s, [])) == Ok(Ordinary(s))
  {
    hide ToBigEndian, CoreBytes, CoreFits, Valid;
    OrdinaryWritten(s, []);
    OrdinaryStated(s);
    RoundTrip(Ordinary(s));
  }

  /** The same with every extension: times 2 and 3, a fingerprint, an identity captured at 4 with the
      letters of `e` in the order in which its fields are declared, and an ID token. */
  function Extended(s: seq<letter>, f: fingerprint, e: seq<letter>): (b: Bundle)
    requires |s| == 7 && |e| == 6
  {
    Ordinary(s).(
      refreshOnFirstUse := true, refreshAfter := Some(2), refreshRejectedUntil := Some(3), imported := Some(f),
      accountIdentity := Some(Identity(Some(One(e[0])), Some(One(e[1])), Some(One(e[2])), Some(One(e[3])), Some(One(e[4])), 4, true)),
      idToken := Some([e[5]]))
  }

  /** A number below 256 in eight octets. */
  function Wide(n: byte): (b: bytes) { [0, 0, 0, 0, 0, 0, 0, n] }

  function IdentityPart(e: seq<letter>): (b: bytes)
    requires |e| == 6
  {
    ([1] + Framed(e[0])) + (([1] + Framed(e[1])) + (([1] + Framed(e[2])) + (([1] + Framed(e[3])) + (([1] + Framed(e[4])) +
    (Wide(4) + ([1] + (([1] + Framed(e[5])) + [])))))))
  }

  function ExtensionPart(f: fingerprint, e: seq<letter>): (b: bytes)
    requires |e| == 6
  {
    LIFECYCLE_MARKER + ([1] + (([1] + Wide(2)) + (([1] + Wide(3)) +
    (FINGERPRINT_MARKER + (f + (IDENTITY_MARKER + ([1] + IdentityPart(e))))))))
  }

  lemma WideNumber(n: byte)
    ensures U64Bytes(n) == Wide(n)
  {
    SmallNumber(n, 8);
  }

  lemma IdentityPartWritten(s: seq<letter>, f: fingerprint, e: seq<letter>)
    requires |s| == 7 && |e| == 6
    ensures var b := Extended(s, f, e);
      && IdentityFits(b.accountIdentity.value) && OptionalFits(b.idToken)
      && IdentityBytes(b.accountIdentity.value, OptionalField(b.idToken) + []) == IdentityPart(e)
  {
    hide Framed, U64Bytes, Wide, Field, Ordinary;
    forall i | 0 <= i < 6 ensures FieldFits([e[i]]) && Field([e[i]]) == Framed(e[i]) { LetterField(e[i]); }
    WideNumber(4);
  }

  /** And these are the bytes of every extension. */
  lemma ExtendedEncodes(s: seq<letter>, f: fingerprint, e: seq<letter>)
    requires |s| == 7 && |e| == 6
    ensures Encode(Extended(s, f, e)) == Ok(OrdinaryBytes(s, ExtensionPart(f, e)))
    ensures Decode(OrdinaryBytes(s, ExtensionPart(f, e))) == Ok(Extended(s, f, e))
  {
    hide CoreBytes, CoreFits, Valid, U64Bytes, Wide, Ordinary, IdentityPart, IdentityBytes, IdentityFits, OptionalField, OptionalFits;
    WideNumber(2);
    WideNumber(3);
    OrdinaryStated(s);
    IdentityPartWritten(s, f, e);
    OrdinaryWritten(s, ExtensionPart(f, e));
    OrdinarySize(s, f, e);
    RoundTrip(Extended(s, f, e));
  }

  lemma OrdinarySize(s: seq<letter>, f: fingerprint, e: seq<letter>)
    requires |s| == 7 && |e| == 6
    ensures |OrdinaryBytes(s, ExtensionPart(f, e))| <= 1000
  {
  }
}
