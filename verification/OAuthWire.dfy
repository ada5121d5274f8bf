/** The wire grammar of the version-one OAuth bundle: what each field looks like
    as bytes, and the reader that takes those bytes apart again. Every reader
    function promises that what it consumed is the writing of what it returned,
    so a successful read determines its input. */
module OAuthWire {
  import opened Bytes

  const MAX_BUNDLE_BYTES: nat := 262144
  const MAX_FIELD_BYTES: nat := 65536
  const MAX_SCOPES: nat := 128

  // The ASCII bytes of HAIDER_OAUTH_BUNDLE, HAIDER_IMPORT_REFRESH, HAIDER_OAUTH_LIFECYCLE,
  // HAIDER_OAUTH_IMPORT_SOURCE and HAIDER_ACCOUNT_IDENTITY, each followed by the octet 1.
  const MAGIC: bytes :=
    [72, 65, 73, 68, 69, 82, 95, 79, 65, 85, 84, 72, 95, 66, 85, 78, 68, 76, 69, 1]
  const FIRST_USE_MARKER: bytes :=
    [72, 65, 73, 68, 69, 82, 95, 73, 77, 80, 79, 82, 84, 95, 82, 69, 70, 82, 69, 83, 72, 1]
  const LIFECYCLE_MARKER: bytes :=
    [72, 65, 73, 68, 69, 82, 95, 79, 65, 85, 84, 72, 95, 76, 73, 70, 69, 67, 89, 67, 76, 69, 1]
  const FINGERPRINT_MARKER: bytes :=
    [72, 65, 73, 68, 69, 82, 95, 79, 65, 85, 84, 72, 95, 73, 77, 80, 79, 82, 84, 95, 83, 79, 85, 82, 67, 69, 1]
  const IDENTITY_MARKER: bytes :=
    [72, 65, 73, 68, 69, 82, 95, 65, 67, 67, 79, 85, 78, 84, 95, 73, 68, 69, 78, 84, 73, 84, 89, 1]

  /** Why a bundle is refused. */
  datatype Reason =
    | BadVersion
    | Truncated
    | NotUtf8
    | BadMarker
    | TooManyScopes
    | TrailingBytes
    | InvalidFields
    | FieldOversized
    | BundleOversized

  datatype Result<+T> = Ok(value: T) | Err(reason: Reason)

  /** A reader's answer: a value and the bytes after it, or the refusal. */
  datatype Parsed<+T> = Got(value: T, rest: bytes) | Fail(reason: Reason) {
    predicate IsFailure() { Fail? }
    function PropagateFailure<U>(): Parsed<U> requires Fail? { Fail(reason) }
    function Extract(): (T, bytes) requires Got? { (value, rest) }
  }

  type fingerprint = f: bytes | |f| == 32 witness seq(32, _ => 0)

  /** The fields every bundle carries: the arguments of `OAuthTokenBundleV1::new`. */
  datatype Core = Core(
    generation: u64,
    expiresAt: u64,
    refreshExpiresAt: Option<u64>,
    provider: text,
    issuer: text,
    audience: text,
    resource: Option<text>,
    tokenType: text,
    accessToken: bytes,
    refreshToken: Option<bytes>,
    scopes: seq<text>,
    subjectHash: text,
    displayIdentity: text)

  datatype Identity = Identity(
    email: Option<text>,
    displayName: Option<text>,
    accountId: Option<text>,
    plan: Option<text>,
    issuer: Option<text>,
    capturedAt: u64,
    verified: bool)

  /** The optional extensions exactly as they stand on the wire. */
  datatype Lifecycle =
    | NoLifecycle
    | FirstUse
    | Times(onFirstUse: bool, after: Option<u64>, rejectedUntil: Option<u64>)

  datatype IdentityExtension =
    | NoIdentity
    | WithIdentity(identity: Option<Identity>, idToken: Option<bytes>)

  datatype Wire = Wire(
    core: Core,
    lifecycle: Lifecycle,
    imported: Option<fingerprint>,
    identity: IdentityExtension)

  // ---------------------------------------------------------------------
  // Writing. Composite writers take the bytes that follow them, so that the
  // whole message nests to the right, the way a reader consumes it.
  // ---------------------------------------------------------------------

  function U64Bytes(n: u64): (s: bytes) { ToBigEndian(n, 8) }

  function OptionalU64(n: Option<u64>): (s: bytes)
  {
    match n case Some(v) => [1] + U64Bytes(v) case None => [0]
  }

  function Flag(b: bool): (x: byte) { if b then 1 else 0 }

  predicate FieldFits(b: bytes) { |b| <= MAX_FIELD_BYTES }

  function Field(b: bytes): (s: bytes)
    requires FieldFits(b)
  {
    ToBigEndian(|b|, 4) + b
  }

  predicate OptionalFits(b: Option<bytes>) { b.Some? ==> FieldFits(b.value) }

  function OptionalField(b: Option<bytes>): (s: bytes)
    requires OptionalFits(b)
  {
    match b case Some(v) => [1] + Field(v) case None => [0]
  }

  predicate ScopesFit(scopes: seq<text>) { forall i | 0 <= i < |scopes| :: FieldFits(scopes[i]) }

  function Scopes(scopes: seq<text>, rest: bytes): (s: bytes)
    requires ScopesFit(scopes)
  {
    if scopes == [] then rest else Field(scopes[0]) + Scopes(scopes[1..], rest)
  }

  predicate CoreFits(c: Core)
  {
    && FieldFits(c.provider) && FieldFits(c.issuer) && FieldFits(c.audience)
    && OptionalFits(c.resource)
    && FieldFits(c.tokenType) && FieldFits(c.accessToken)
    && OptionalFits(c.refreshToken)
    && |c.scopes| <= MAX_SCOPES && ScopesFit(c.scopes)
    && FieldFits(c.subjectHash) && FieldFits(c.displayIdentity)
  }

  /** The tail of the core: the scope list and the two identity strings. */
  function GrantBytes(c: Core, rest: bytes): (s: bytes)
    requires CoreFits(c)
  {
    ToBigEndian(|c.scopes|, 2) + Scopes(c.scopes, Field(c.subjectHash) + (Field(c.displayIdentity) + rest))
  }

  function TokenBytes(c: Core, rest: bytes): (s: bytes)
    requires CoreFits(c)
  {
    OptionalField(c.resource) + (Field(c.tokenType) + (Field(c.accessToken) +
      (OptionalField(c.refreshToken) + GrantBytes(c, rest))))
  }

  function CoreBytes(c: Core, rest: bytes): (s: bytes)
    requires CoreFits(c)
  {
    U64Bytes(c.generation) + (U64Bytes(c.expiresAt) + (OptionalU64(c.refreshExpiresAt) +
      (Field(c.provider) + (Field(c.issuer) + (Field(c.audience) + TokenBytes(c, rest))))))
  }

  predicate IdentityFits(i: Identity)
  {
    && OptionalFits(i.email) && OptionalFits(i.displayName) && OptionalFits(i.accountId)
    && OptionalFits(i.plan) && OptionalFits(i.issuer)
  }

  function IdentityBytes(i: Identity, rest: bytes): (s: bytes)
    requires IdentityFits(i)
  {
    OptionalField(i.email) + (OptionalField(i.displayName) + (OptionalField(i.accountId) +
      (OptionalField(i.plan) + (OptionalField(i.issuer) + (U64Bytes(i.capturedAt) + ([Flag(i.verified)] + rest))))))
  }

  function LifecycleBytes(l: Lifecycle, rest: bytes): (s: bytes)
  {
    match l
    case NoLifecycle => rest
    case FirstUse => FIRST_USE_MARKER + rest
    case Times(onFirstUse, after, rejected) =>
      LIFECYCLE_MARKER + ([Flag(onFirstUse)] + (OptionalU64(after) + (OptionalU64(rejected) + rest)))
  }

  function FingerprintBytes(f: Option<fingerprint>, rest: bytes): (s: bytes)
  {
    match f case None => rest case Some(v) => FINGERPRINT_MARKER + (v + rest)
  }

  predicate ExtensionFits(x: IdentityExtension)
  {
    x.WithIdentity? ==> (x.identity.Some? ==> IdentityFits(x.identity.value)) && OptionalFits(x.idToken)
  }

  function ExtensionBytes(x: IdentityExtension, rest: bytes): (s: bytes)
    requires ExtensionFits(x)
  {
    match x
    case NoIdentity => rest
    case WithIdentity(None, token) => IDENTITY_MARKER + ([0] + (OptionalField(token) + rest))
    case WithIdentity(Some(i), token) => IDENTITY_MARKER + ([1] + IdentityBytes(i, OptionalField(token) + rest))
  }

  predicate Fits(w: Wire) { CoreFits(w.core) && ExtensionFits(w.identity) }

  /** Everything after the magic, and then `rest`. */
  function Body(w: Wire, rest: bytes): (s: bytes)
    requires Fits(w)
  {
    CoreBytes(w.core,
      LifecycleBytes(w.lifecycle, FingerprintBytes(w.imported, ExtensionBytes(w.identity, rest))))
  }

  /** The whole message. */
  function Write(w: Wire): (s: bytes)
    requires Fits(w)
  {
    MAGIC + Body(w, [])
  }

  // ---------------------------------------------------------------------
  // Reading
  // ---------------------------------------------------------------------

  function Take(s: bytes, length: nat): (p: Parsed<bytes>)
    ensures p.Got? ==> s == p.value + p.rest && |p.value| == length <= MAX_FIELD_BYTES
  {
    if length > MAX_FIELD_BYTES || |s| < length then Fail(Truncated) else Got(s[..length], s[length..])
  }

  function ReadByte(s: bytes): (p: Parsed<byte>)
    ensures p.Got? ==> s == [p.value] + p.rest
  {
    var (v, rest) :- Take(s, 1);
    Got(v[0], rest)
  }

  function ReadInt(s: bytes, width: nat): (p: Parsed<nat>)
    ensures p.Got? ==> p.value < Pow256(width) && s == ToBigEndian(p.value, width) + p.rest
  {
    var (v, rest) :- Take(s, width);
    BigEndianCanonical(v);
    Got(FromBigEndian(v), rest)
  }

  function ReadU64(s: bytes): (p: Parsed<u64>)
    ensures p.Got? ==> s == U64Bytes(p.value) + p.rest
  {
    Widths();
    var (v, rest) :- ReadInt(s, 8);
    Got(v, rest)
  }

  function ReadOptionalU64(s: bytes): (p: Parsed<Option<u64>>)
    ensures p.Got? ==> s == OptionalU64(p.value) + p.rest
  {
    var (m, s1) :- ReadByte(s);
    if m == 0 then Got(None, s1)
    else if m == 1 then
      var (v, rest) :- ReadU64(s1);
      ConcatAssociative([1], U64Bytes(v), rest);
      Got(Some(v), rest)
    else Fail(BadMarker)
  }

  function ReadFlag(s: bytes): (p: Parsed<bool>)
    ensures p.Got? ==> s == [Flag(p.value)] + p.rest
  {
    var (m, rest) :- ReadByte(s);
    if m <= 1 then Got(m == 1, rest) else Fail(BadMarker)
  }

  function ReadField(s: bytes): (p: Parsed<bytes>)
    ensures p.Got? ==> FieldFits(p.value) && s == Field(p.value) + p.rest
  {
    var (length, s1) :- ReadInt(s, 4);
    var (v, rest) :- Take(s1, length);
    ConcatAssociative(ToBigEndian(length, 4), v, rest);
    Got(v, rest)
  }

  function ReadText(s: bytes): (p: Parsed<text>)
    ensures p.Got? ==> FieldFits(p.value) && s == Field(p.value) + p.rest
  {
    var (v, rest) :- ReadField(s);
    if ValidUtf8(v) then Got(v, rest) else Fail(NotUtf8)
  }

  function ReadOptionalField(s: bytes): (p: Parsed<Option<bytes>>)
    ensures p.Got? ==> OptionalFits(p.value) && s == OptionalField(p.value) + p.rest
  {
    var (m, s1) :- ReadByte(s);
    if m == 0 then Got(None, s1)
    else if m == 1 then
      var (v, rest) :- ReadField(s1);
      ConcatAssociative([1], Field(v), rest);
      Got(Some(v), rest)
    else Fail(BadMarker)
  }

  function ReadOptionalText(s: bytes): (p: Parsed<Option<text>>)
    ensures p.Got? ==> OptionalFits(p.value) && s == OptionalField(p.value) + p.rest
  {
    var (m, s1) :- ReadByte(s);
    if m == 0 then Got(None, s1)
    else if m == 1 then
      var (v, rest) :- ReadText(s1);
      ConcatAssociative([1], Field(v), rest);
      Got(Some(v), rest)
    else Fail(BadMarker)
  }

  lemma ScopesCons(v: text, vs: seq<text>, rest: bytes)
    requires FieldFits(v) && ScopesFit(vs)
    ensures ScopesFit([v] + vs) && Scopes([v] + vs, rest) == Field(v) + Scopes(vs, rest)
  {
    assert ([v] + vs)[1..] == vs;
  }

  function ReadScopes(s: bytes, n: nat): (p: Parsed<seq<text>>)
    ensures p.Got? ==> |p.value| == n && ScopesFit(p.value) && s == Scopes(p.value, p.rest)
  {
    if n == 0 then Got([], s)
    else
      var (v, s1) :- ReadText(s);
      var (vs, rest) :- ReadScopes(s1, n - 1);
      ScopesCons(v, vs, rest);
      Got([v] + vs, rest)
  }

  datatype Grant = Grant(scopes: seq<text>, subjectHash: text, displayIdentity: text)

  function ReadGrant(s: bytes): (p: Parsed<Grant>)
    ensures p.Got? ==>
      && |p.value.scopes| <= MAX_SCOPES && ScopesFit(p.value.scopes)
      && FieldFits(p.value.subjectHash) && FieldFits(p.value.displayIdentity)
      && s == ToBigEndian(|p.value.scopes|, 2) +
              Scopes(p.value.scopes, Field(p.value.subjectHash) + (Field(p.value.displayIdentity) + p.rest))
  {
    var (count, s1) :- ReadInt(s, 2);
    if count > MAX_SCOPES then Fail(TooManyScopes) else
    var (scopes, s2) :- ReadScopes(s1, count);
    var (subject, s3) :- ReadText(s2);
    var (display, rest) :- ReadText(s3);
    Got(Grant(scopes, subject, display), rest)
  }

  datatype Head = Head(generation: u64, expiresAt: u64, refreshExpiresAt: Option<u64>,
                       provider: text, issuer: text, audience: text)

  function ReadHead(s: bytes): (p: Parsed<Head>)
    ensures p.Got? ==>
      && FieldFits(p.value.provider) && FieldFits(p.value.issuer) && FieldFits(p.value.audience)
      && s == U64Bytes(p.value.generation) + (U64Bytes(p.value.expiresAt) + (OptionalU64(p.value.refreshExpiresAt) +
              (Field(p.value.provider) + (Field(p.value.issuer) + (Field(p.value.audience) + p.rest)))))
  {
    var (generation, s1) :- ReadU64(s);
    var (expires, s2) :- ReadU64(s1);
    var (refreshExpires, s3) :- ReadOptionalU64(s2);
    var (provider, s4) :- ReadText(s3);
    var (issuer, s5) :- ReadText(s4);
    var (audience, rest) :- ReadText(s5);
    Got(Head(generation, expires, refreshExpires, provider, issuer, audience), rest)
  }

  datatype Tokens = Tokens(resource: Option<text>, tokenType: text, access: bytes, refresh: Option<bytes>)

  function ReadTokens(s: bytes): (p: Parsed<Tokens>)
    ensures p.Got? ==>
      && OptionalFits(p.value.resource) && FieldFits(p.value.tokenType)
      && FieldFits(p.value.access) && OptionalFits(p.value.refresh)
      && s == OptionalField(p.value.resource) + (Field(p.value.tokenType) + (Field(p.value.access) +
              (OptionalField(p.value.refresh) + p.rest)))
  {
    var (resource, s1) :- ReadOptionalText(s);
    var (tokenType, s2) :- ReadText(s1);
    var (access, s3) :- ReadField(s2);
    var (refresh, rest) :- ReadOptionalField(s3);
    Got(Tokens(resource, tokenType, access, refresh), rest)
  }

  function CoreOf(h: Head, t: Tokens, g: Grant): (c: Core)
  {
    Core(h.generation, h.expiresAt, h.refreshExpiresAt, h.provider, h.issuer, h.audience,
         t.resource, t.tokenType, t.access, t.refresh, g.scopes, g.subjectHash, g.displayIdentity)
  }

  function ReadCore(s: bytes): (p: Parsed<Core>)
    ensures p.Got? ==> CoreFits(p.value) && s == CoreBytes(p.value, p.rest)
  {
    var (head, s1) :- ReadHead(s);
    var (tokens, s2) :- ReadTokens(s1);
    var (grant, rest) :- ReadGrant(s2);
    Got(CoreOf(head, tokens, grant), rest)
  }

  function ReadLifecycle(s: bytes): (p: Parsed<Lifecycle>)
    ensures p.Got? ==> s == LifecycleBytes(p.value, p.rest)
  {
    if StartsWith(s, LIFECYCLE_MARKER) then
      StartsWithSplit(s, LIFECYCLE_MARKER);
      var (flag, s1) :- ReadFlag(s[|LIFECYCLE_MARKER|..]);
      var (after, s2) :- ReadOptionalU64(s1);
      var (rejected, rest) :- ReadOptionalU64(s2);
      Got(Times(flag, after, rejected), rest)
    else if StartsWith(s, FIRST_USE_MARKER) then
      StartsWithSplit(s, FIRST_USE_MARKER);
      Got(FirstUse, s[|FIRST_USE_MARKER|..])
    else Got(NoLifecycle, s)
  }

  function ReadFingerprint(s: bytes): (p: Parsed<Option<fingerprint>>)
    ensures p.Got? ==> s == FingerprintBytes(p.value, p.rest)
  {
    if StartsWith(s, FINGERPRINT_MARKER) then
      StartsWithSplit(s, FINGERPRINT_MARKER);
      var (v, rest) :- Take(s[|FINGERPRINT_MARKER|..], 32);
      Got(Some(v), rest)
    else Got(None, s)
  }

  function ReadIdentity(s: bytes): (p: Parsed<Identity>)
    ensures p.Got? ==> IdentityFits(p.value) && s == IdentityBytes(p.value, p.rest)
  {
    var (email, s1) :- ReadOptionalText(s);
    var (name, s2) :- ReadOptionalText(s1);
    var (account, s3) :- ReadOptionalText(s2);
    var (plan, s4) :- ReadOptionalText(s3);
    var (issuer, s5) :- ReadOptionalText(s4);
    var (captured, s6) :- ReadU64(s5);
    var (verified, rest) :- ReadFlag(s6);
    Got(Identity(email, name, account, plan, issuer, captured, verified), rest)
  }

  function ReadExtension(s: bytes): (p: Parsed<IdentityExtension>)
    ensures p.Got? ==> ExtensionFits(p.value) && s == ExtensionBytes(p.value, p.rest)
  {
    if StartsWith(s, IDENTITY_MARKER) then
      StartsWithSplit(s, IDENTITY_MARKER);
      var (m, s1) :- ReadByte(s[|IDENTITY_MARKER|..]);
      if m == 0 then
        var (token, rest) :- ReadOptionalField(s1);
        Got(WithIdentity(None, token), rest)
      else if m == 1 then
        var (i, s2) :- ReadIdentity(s1);
        var (token, rest) :- ReadOptionalField(s2);
        Got(WithIdentity(Some(i), token), rest)
      else Fail(BadMarker)
    else Got(NoIdentity, s)
  }

  function ReadBody(s: bytes): (p: Parsed<Wire>)
    ensures p.Got? ==> Fits(p.value) && s == Body(p.value, p.rest)
  {
    var (core, s1) :- ReadCore(s);
    var (lifecycle, s2) :- ReadLifecycle(s1);
    var (imported, s3) :- ReadFingerprint(s2);
    var (identity, rest) :- ReadExtension(s3);
    Got(Wire(core, lifecycle, imported, identity), rest)
  }

  /** Reads one whole message: the length cap and magic, the fields, and nothing after them. */
  function Read(s: bytes): (r: Result<Wire>)
    ensures r.Ok? ==> Fits(r.value) && s == Write(r.value) && |s| <= MAX_BUNDLE_BYTES
  {
    if |s| > MAX_BUNDLE_BYTES || !StartsWith(s, MAGIC) then Err(BadVersion) else
    StartsWithSplit(s, MAGIC);
    var body := ReadBody(s[|MAGIC|..]);
    if body.Fail? then Err(body.reason)
    else if body.rest != [] then Err(TrailingBytes)
    else Ok(body.value)
  }
}
