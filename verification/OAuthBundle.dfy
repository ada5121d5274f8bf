/** The OAuth token bundle and its two theorems: encoding is undone by decoding,
    and decoding is undone by encoding except for two idle extensions. */
module OAuthBundle {
  import opened Bytes
  import opened OAuthWire

  datatype Bundle = Bundle(
    core: Core,
    refreshOnFirstUse: bool,
    refreshAfter: Option<u64>,
    refreshRejectedUntil: Option<u64>,
    imported: Option<fingerprint>,
    accountIdentity: Option<Identity>,
    idToken: Option<bytes>)

  // ---------------------------------------------------------------------
  // Validity
  // ---------------------------------------------------------------------

  function LowerAscii(b: byte): (c: byte) { if 65 <= b <= 90 then b + 32 else b }

  /** `eq_ignore_ascii_case("bearer")`. */
  predicate IsBearer(s: bytes)
  {
    |s| == 6 && LowerAscii(s[0]) == 98 && LowerAscii(s[1]) == 101 && LowerAscii(s[2]) == 97
    && LowerAscii(s[3]) == 114 && LowerAscii(s[4]) == 101 && LowerAscii(s[5]) == 114
  }

  predicate Valid(c: Core)
  {
    && !Blank(c.provider) && !Blank(c.issuer) && !Blank(c.audience)
    && (c.resource.Some? ==> !Blank(c.resource.value))
    && IsBearer(c.tokenType)
    && c.accessToken != []
    && c.expiresAt != 0
    && !Blank(c.subjectHash) && !Blank(c.displayIdentity)
    && |c.scopes| <= MAX_SCOPES
    && (forall i | 0 <= i < |c.scopes| :: c.scopes[i] != [])
  }

  // ---------------------------------------------------------------------
  // The codec
  // ---------------------------------------------------------------------

  /** The extensions the encoder emits for a bundle. */
  function WireOf(b: Bundle): (w: Wire)
  {
    Wire(b.core,
         if b.refreshAfter.Some? || b.refreshRejectedUntil.Some?
         then Times(b.refreshOnFirstUse, b.refreshAfter, b.refreshRejectedUntil)
         else if b.refreshOnFirstUse then FirstUse
         else NoLifecycle,
         b.imported,
         if b.accountIdentity.Some? || b.idToken.Some? then WithIdentity(b.accountIdentity, b.idToken)
         else NoIdentity)
  }

  /** The bundle a message means. */
  function BundleOf(w: Wire): (b: Bundle)
  {
    var (first, after, rejected) :=
      match w.lifecycle
      case NoLifecycle => (false, None, None)
      case FirstUse => (true, None, None)
      case Times(f, a, r) => (f, a, r);
    var (identity, token) :=
      match w.identity
      case NoIdentity => (None, None)
      case WithIdentity(i, t) => (i, t);
    Bundle(w.core, first, after, rejected, w.imported, identity, token)
  }

  function Encode(b: Bundle): (r: Result<bytes>)
  {
    if !Valid(b.core) then Err(InvalidFields)
    else if !Fits(WireOf(b)) then Err(FieldOversized)
    else if |Write(WireOf(b))| > MAX_BUNDLE_BYTES then Err(BundleOversized)
    else Ok(Write(WireOf(b)))
  }

  function Decode(s: bytes): (r: Result<Bundle>)
  {
    var wire := Read(s);
    if wire.Err? then Err(wire.reason)
    else if !Valid(wire.value.core) then Err(InvalidFields)
    else Ok(BundleOf(wire.value))
  }

  // ---------------------------------------------------------------------
  // Reading back what was written, field by field
  // ---------------------------------------------------------------------

  lemma TakeConcat(a: bytes, rest: bytes)
    requires |a| <= MAX_FIELD_BYTES
    ensures Take(a + rest, |a|) == Got(a, rest)
  {
    StartsWithConcat(a, rest);
  }

  lemma ByteBack(b: byte, rest: bytes)
    ensures ReadByte([b] + rest) == Got(b, rest)
  {
    TakeConcat([b], rest);
  }

  lemma IntBack(n: nat, width: nat, rest: bytes)
    requires n < Pow256(width) && width <= MAX_FIELD_BYTES
    ensures ReadInt(ToBigEndian(n, width) + rest, width) == Got(n, rest)
  {
    TakeConcat(ToBigEndian(n, width), rest);
    BigEndianRoundTrip(n, width);
  }

  lemma U64Back(n: u64, rest: bytes)
    ensures ReadU64(U64Bytes(n) + rest) == Got(n, rest)
  {
    Widths();
    IntBack(n, 8, rest);
  }

  lemma OptionalU64Back(n: Option<u64>, rest: bytes)
    ensures ReadOptionalU64(OptionalU64(n) + rest) == Got(n, rest)
  {
    match n
    case None => ByteBack(0, rest);
    case Some(v) =>
      ConcatAssociative([1], U64Bytes(v), rest);
      ByteBack(1, U64Bytes(v) + rest);
      U64Back(v, rest);
  }

  lemma FieldBack(b: bytes, rest: bytes)
    requires FieldFits(b)
    ensures ReadField(Field(b) + rest) == Got(b, rest)
    ensures ValidUtf8(b) ==> ReadText(Field(b) + rest) == Got(b, rest)
  {
    Widths();
    ConcatAssociative(ToBigEndian(|b|, 4), b, rest);
    IntBack(|b|, 4, b + rest);
    TakeConcat(b, rest);
  }

  lemma OptionalFieldBack(b: Option<bytes>, rest: bytes)
    requires OptionalFits(b)
    ensures ReadOptionalField(OptionalField(b) + rest) == Got(b, rest)
  {
    match b
    case None => ByteBack(0, rest);
    case Some(v) =>
      ConcatAssociative([1], Field(v), rest);
      ByteBack(1, Field(v) + rest);
      FieldBack(v, rest);
  }

  lemma OptionalTextBack(b: Option<text>, rest: bytes)
    requires OptionalFits(b)
    ensures ReadOptionalText(OptionalField(b) + rest) == Got(b, rest)
  {
    match b
    case None => ByteBack(0, rest);
    case Some(v) =>
      ConcatAssociative([1], Field(v), rest);
      ByteBack(1, Field(v) + rest);
      FieldBack(v, rest);
  }

  lemma {:induction false} ScopesBack(scopes: seq<text>, rest: bytes)
    requires ScopesFit(scopes)
    ensures ReadScopes(Scopes(scopes, rest), |scopes|) == Got(scopes, rest)
  {
    if scopes != [] {
      var v, vs := scopes[0], scopes[1..];
      assert scopes == [v] + vs;
      FieldBack(v, Scopes(vs, rest));
      ScopesBack(vs, rest);
    }
  }

  lemma GrantBack(c: Core, rest: bytes)
    requires CoreFits(c)
    ensures ReadGrant(GrantBytes(c, rest)) == Got(Grant(c.scopes, c.subjectHash, c.displayIdentity), rest)
  {
    Widths();
    var s3 := Field(c.displayIdentity) + rest;
    var s2 := Field(c.subjectHash) + s3;
    IntBack(|c.scopes|, 2, Scopes(c.scopes, s2));
    ScopesBack(c.scopes, s2);
    FieldBack(c.subjectHash, s3);
    FieldBack(c.displayIdentity, rest);
  }

  lemma CoreBack(c: Core, rest: bytes)
    requires CoreFits(c)
    ensures ReadCore(CoreBytes(c, rest)) == Got(c, rest)
  {
    var s10 := GrantBytes(c, rest);
    var s9 := OptionalField(c.refreshToken) + s10;
    var s8 := Field(c.accessToken) + s9;
    var s7 := Field(c.tokenType) + s8;
    var s6 := OptionalField(c.resource) + s7;
    var s5 := Field(c.audience) + s6;
    var s4 := Field(c.issuer) + s5;
    var s3 := Field(c.provider) + s4;
    var s2 := OptionalU64(c.refreshExpiresAt) + s3;
    U64Back(c.generation, U64Bytes(c.expiresAt) + s2);
    U64Back(c.expiresAt, s2);
    OptionalU64Back(c.refreshExpiresAt, s3);
    FieldBack(c.provider, s4);
    FieldBack(c.issuer, s5);
    FieldBack(c.audience, s6);
    OptionalTextBack(c.resource, s7);
    FieldBack(c.tokenType, s8);
    FieldBack(c.accessToken, s9);
    OptionalFieldBack(c.refreshToken, s10);
    GrantBack(c, rest);
  }

  lemma IdentityBack(i: Identity, rest: bytes)
    requires IdentityFits(i)
    ensures ReadIdentity(IdentityBytes(i, rest)) == Got(i, rest)
  {
    var s6 := [Flag(i.verified)] + rest;
    var s5 := U64Bytes(i.capturedAt) + s6;
    var s4 := OptionalField(i.issuer) + s5;
    var s3 := OptionalField(i.plan) + s4;
    var s2 := OptionalField(i.accountId) + s3;
    OptionalTextBack(i.email, OptionalField(i.displayName) + s2);
    OptionalTextBack(i.displayName, s2);
    OptionalTextBack(i.accountId, s3);
    OptionalTextBack(i.plan, s4);
    OptionalTextBack(i.issuer, s5);
    U64Back(i.capturedAt, s6);
    ByteBack(Flag(i.verified), rest);
  }

  /** Two byte strings that part ways at `k` are not prefixes of each other's continuations. */
  lemma Parts(p: bytes, q: bytes, rest: bytes, k: nat)
    requires k < |p| && k < |q| && p[k] != q[k]
    ensures !StartsWith(q + rest, p)
  {
    assert (q + rest)[k] == q[k];
  }

  lemma LifecycleBack(l: Lifecycle, rest: bytes)
    requires !StartsWith(rest, LIFECYCLE_MARKER) && !StartsWith(rest, FIRST_USE_MARKER)
    ensures ReadLifecycle(LifecycleBytes(l, rest)) == Got(l, rest)
  {
    match l
    case NoLifecycle =>
    case FirstUse =>
      Parts(LIFECYCLE_MARKER, FIRST_USE_MARKER, rest, 7);
      StartsWithConcat(FIRST_USE_MARKER, rest);
    case Times(flag, after, rejected) =>
      var s2 := OptionalU64(rejected) + rest;
      var s1 := OptionalU64(after) + s2;
      StartsWithConcat(LIFECYCLE_MARKER, [Flag(flag)] + s1);
      ByteBack(Flag(flag), s1);
      OptionalU64Back(after, s2);
      OptionalU64Back(rejected, rest);
  }

  lemma FingerprintBack(f: Option<fingerprint>, rest: bytes)
    requires !StartsWith(rest, FINGERPRINT_MARKER)
    ensures ReadFingerprint(FingerprintBytes(f, rest)) == Got(f, rest)
  {
    if f.Some? {
      StartsWithConcat(FINGERPRINT_MARKER, f.value + rest);
      TakeConcat(f.value, rest);
    }
  }

  lemma ExtensionBack(x: IdentityExtension)
    requires ExtensionFits(x)
    ensures ReadExtension(ExtensionBytes(x, [])) == Got(x, [])
  {
    match x
    case NoIdentity =>
    case WithIdentity(identity, token) =>
      var s1 := OptionalField(token) + [];
      OptionalFieldBack(token, []);
      match identity
      case None =>
        StartsWithConcat(IDENTITY_MARKER, [0] + s1);
        ByteBack(0, s1);
      case Some(i) =>
        StartsWithConcat(IDENTITY_MARKER, [1] + IdentityBytes(i, s1));
        ByteBack(1, IdentityBytes(i, s1));
        IdentityBack(i, s1);
  }

  /** No extension opens with the marker of one that precedes it: this is what makes
      recognition by `starts_with` unambiguous. */
  lemma MarkersApart(f: Option<fingerprint>, x: IdentityExtension)
    requires ExtensionFits(x)
    ensures !StartsWith(ExtensionBytes(x, []), FINGERPRINT_MARKER)
    ensures !StartsWith(FingerprintBytes(f, ExtensionBytes(x, [])), LIFECYCLE_MARKER)
    ensures !StartsWith(FingerprintBytes(f, ExtensionBytes(x, [])), FIRST_USE_MARKER)
  {
    var tail := ExtensionBytes(x, []);
    if x.WithIdentity? {
      var rest := tail[|IDENTITY_MARKER|..];
      assert tail == IDENTITY_MARKER + rest;
      Parts(FINGERPRINT_MARKER, IDENTITY_MARKER, rest, 7);
      Parts(LIFECYCLE_MARKER, IDENTITY_MARKER, rest, 7);
      Parts(FIRST_USE_MARKER, IDENTITY_MARKER, rest, 7);
    }
    if f.Some? {
      Parts(LIFECYCLE_MARKER, FINGERPRINT_MARKER, f.value + tail, 13);
      Parts(FIRST_USE_MARKER, FINGERPRINT_MARKER, f.value + tail, 7);
    }
  }

  /** Reading is a left inverse of writing, for every message that fits. */
  lemma WireBack(w: Wire)
    requires Fits(w) && |Write(w)| <= MAX_BUNDLE_BYTES
    ensures Read(Write(w)) == Ok(w)
  {
    var s3 := ExtensionBytes(w.identity, []);
    var s2 := FingerprintBytes(w.imported, s3);
    var s1 := LifecycleBytes(w.lifecycle, s2);
    MarkersApart(w.imported, w.identity);
    CoreBack(w.core, s1);
    LifecycleBack(w.lifecycle, s2);
    FingerprintBack(w.imported, s3);
    ExtensionBack(w.identity);
    StartsWithConcat(MAGIC, Body(w, []));
  }

  // ---------------------------------------------------------------------
  // The round trip
  // ---------------------------------------------------------------------

  /** Whatever was encoded is decoded with every field equal, for all combinations of extensions. */
  lemma RoundTrip(b: Bundle)
    requires Encode(b).Ok?
    ensures Decode(Encode(b).value) == Ok(b)
  {
    WireBack(WireOf(b));
  }

  /** Hence no two bundles share an encoding. */
  lemma EncodeInjective(a: Bundle, b: Bundle)
    requires Encode(a).Ok? && Encode(a) == Encode(b)
    ensures a == b
  {
    RoundTrip(a);
    RoundTrip(b);
  }

  // ---------------------------------------------------------------------
  // The normal form
  // ---------------------------------------------------------------------

  /** A lifecycle extension that states neither time. */
  predicate IdleLifecycle(l: Lifecycle) { l.Times? && l.after.None? && l.rejectedUntil.None? }

  /** An identity extension that states neither an identity nor a token. */
  predicate IdleIdentity(x: IdentityExtension) { x.WithIdentity? && x.identity.None? && x.idToken.None? }

  /** Lengths of the composite writers are what they add to what follows. */
  lemma {:induction false} ScopesLength(scopes: seq<text>, a: bytes, b: bytes)
    requires ScopesFit(scopes)
    ensures |Scopes(scopes, a)| - |a| == |Scopes(scopes, b)| - |b|
  {
    if scopes != [] {
      ScopesLength(scopes[1..], a, b);
    }
  }

  lemma CoreLength(c: Core, a: bytes, b: bytes)
    requires CoreFits(c)
    ensures |CoreBytes(c, a)| - |a| == |CoreBytes(c, b)| - |b|
  {
    ScopesLength(c.scopes, Field(c.subjectHash) + (Field(c.displayIdentity) + a),
                 Field(c.subjectHash) + (Field(c.displayIdentity) + b));
  }

  /** The extensions of `w`, as bytes. */
  function TailBytes(w: Wire): (s: bytes)
    requires Fits(w)
  {
    LifecycleBytes(w.lifecycle, FingerprintBytes(w.imported, ExtensionBytes(w.identity, [])))
  }

  function NormalLifecycle(l: Lifecycle): (n: Lifecycle)
  {
    if IdleLifecycle(l) then (if l.onFirstUse then FirstUse else NoLifecycle) else l
  }

  function NormalExtension(x: IdentityExtension): (n: IdentityExtension)
  {
    if IdleIdentity(x) then NoIdentity else x
  }

  /** What the encoder emits for the bundle a message means. */
  lemma Normalised(w: Wire)
    ensures WireOf(BundleOf(w)) ==
      Wire(w.core, NormalLifecycle(w.lifecycle), w.imported, NormalExtension(w.identity))
  {
  }

  lemma ExtensionShrinks(x: IdentityExtension)
    requires ExtensionFits(x)
    ensures IdleIdentity(x) ==> |ExtensionBytes(x, [])| == |IDENTITY_MARKER| + 2
  {
  }

  lemma LifecycleShrinks(l: Lifecycle, a: bytes, b: bytes)
    requires |a| <= |b|
    ensures |LifecycleBytes(NormalLifecycle(l), a)| <= |LifecycleBytes(l, b)|
    ensures IdleLifecycle(l) || |a| < |b| ==> |LifecycleBytes(NormalLifecycle(l), a)| < |LifecycleBytes(l, b)|
  {
  }

  lemma TailShrinks(w: Wire, v: Wire)
    requires Fits(w)
    requires v == Wire(w.core, NormalLifecycle(w.lifecycle), w.imported, NormalExtension(w.identity))
    ensures |TailBytes(v)| <= |TailBytes(w)|
    ensures IdleLifecycle(w.lifecycle) || IdleIdentity(w.identity) ==> |TailBytes(v)| < |TailBytes(w)|
  {
    var a, b := ExtensionBytes(w.identity, []), ExtensionBytes(v.identity, []);
    ExtensionShrinks(w.identity);
    LifecycleShrinks(w.lifecycle, FingerprintBytes(w.imported, b), FingerprintBytes(w.imported, a));
  }

  /** Rewriting a message through the bundle it means. */
  lemma Rewritten(w: Wire)
    requires Fits(w)
    ensures Fits(WireOf(BundleOf(w)))
    ensures |Write(WireOf(BundleOf(w)))| <= |Write(w)|
    ensures Write(WireOf(BundleOf(w))) == Write(w) <==> !IdleLifecycle(w.lifecycle) && !IdleIdentity(w.identity)
  {
    Normalised(w);
    var v := WireOf(BundleOf(w));
    TailShrinks(w, v);
    CoreLength(w.core, TailBytes(v), TailBytes(w));
    assert Body(w, []) == CoreBytes(w.core, TailBytes(w));
    assert Body(v, []) == CoreBytes(w.core, TailBytes(v));
  }

  /** For every accepted input: re-encoding succeeds, is no longer, means the same
      bundle, and reproduces the input exactly when neither extension was idle. */
  lemma NormalForm(s: bytes)
    requires Decode(s).Ok?
    ensures Encode(Decode(s).value).Ok?
    ensures |Encode(Decode(s).value).value| <= |s| <= MAX_BUNDLE_BYTES
    ensures Decode(Encode(Decode(s).value).value) == Decode(s)
    ensures Encode(Decode(s).value).value == s <==>
      !IdleLifecycle(Read(s).value.lifecycle) && !IdleIdentity(Read(s).value.identity)
  {
    var w := Read(s).value;
    Rewritten(w);
    RoundTrip(BundleOf(w));
  }
}
