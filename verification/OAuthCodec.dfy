/** `encode` and `decode` as the source runs them: a buffer appended to in place
    and a cursor that advances, each proved to compute the codec's function. */
module OAuthCodec {
  import opened Bytes
  import opened OAuthWire
  import opened OAuthBundle

  /** The output buffer of `encode`. */
  class Writer {
    var out: bytes

    constructor ()
      ensures out == []
    {
      out := [];
    }

    method Append(b: bytes)
      modifies this
      ensures out == old(out) + b
    {
      out := out + b;
    }

    method PushU64(n: u64)
      modifies this
      ensures out == old(out) + U64Bytes(n)
    {
      Append(ToBigEndian(n, 8));
    }

    method PushOptionalU64(n: Option<u64>)
      modifies this
      ensures out == old(out) + OptionalU64(n)
    {
      match n
      case Some(v) =>
        Append([1]);
        PushU64(v);
        ConcatAssociative(old(out), [1], U64Bytes(v));
      case None =>
        Append([0]);
    }

    method PushBytes(b: bytes) returns (ok: bool)
      modifies this
      ensures ok <==> FieldFits(b)
      ensures ok ==> out == old(out) + Field(b)
    {
      if |b| > MAX_FIELD_BYTES {
        return false;
      }
      Append(ToBigEndian(|b|, 4));
      Append(b);
      ConcatAssociative(old(out), ToBigEndian(|b|, 4), b);
      return true;
    }

    method PushOptional(b: Option<bytes>) returns (ok: bool)
      modifies this
      ensures ok <==> OptionalFits(b)
      ensures ok ==> out == old(out) + OptionalField(b)
    {
      match b
      case Some(v) =>
        Append([1]);
        ok := PushBytes(v);
        if ok {
          ConcatAssociative(old(out), [1], Field(v));
        }
      case None =>
        Append([0]);
        ok := true;
    }

    /** The scope loop: appends every scope, or stops at the first oversized one. */
    method PushScopes(scopes: seq<text>, ghost rest: bytes) returns (ok: bool)
      modifies this
      ensures ok <==> ScopesFit(scopes)
      ensures ok ==> out + rest == old(out) + Scopes(scopes, rest)
    {
      for i := 0 to |scopes|
        invariant ScopesFit(scopes[..i])
        invariant ScopesFit(scopes[i..]) ==> out + Scopes(scopes[i..], rest) == old(out) + Scopes(scopes, rest)
      {
        ghost var before := out;
        var pushed := PushBytes(scopes[i]);
        if !pushed {
          return false;
        }
        assert scopes[i..][0] == scopes[i] && scopes[i..][1..] == scopes[i + 1..];
        if ScopesFit(scopes[i + 1..]) {
          assert ScopesFit(scopes[i..]);
          ConcatAssociative(before, Field(scopes[i]), Scopes(scopes[i + 1..], rest));
        }
      }
      assert scopes[..|scopes|] == scopes;
      return true;
    }

    method PushGrant(c: Core, ghost rest: bytes) returns (ok: bool)
      requires |c.scopes| <= MAX_SCOPES
      modifies this
      ensures ok <==> ScopesFit(c.scopes) && FieldFits(c.subjectHash) && FieldFits(c.displayIdentity)
      ensures ok && CoreFits(c) ==> out + rest == old(out) + GrantBytes(c, rest)
    {
      ghost var count := ToBigEndian(|c.scopes|, 2);
      Append(ToBigEndian(|c.scopes|, 2));
      ghost var fits := FieldFits(c.subjectHash) && FieldFits(c.displayIdentity);
      ghost var s3 := if fits then Field(c.displayIdentity) + rest else [];
      ghost var s2 := if fits then Field(c.subjectHash) + s3 else [];
      ok := PushScopes(c.scopes, s2);
      if !ok { return; }
      ghost var o2 := out;
      ok := PushBytes(c.subjectHash);
      if !ok { return; }
      ghost var o3 := out;
      ok := PushBytes(c.displayIdentity);
      if !ok { return; }
      ConcatAssociative(old(out), count, Scopes(c.scopes, s2));
      ConcatAssociative(o2, Field(c.subjectHash), s3);
      ConcatAssociative(o3, Field(c.displayIdentity), rest);
    }

    method PushTokens(c: Core, ghost rest: bytes) returns (ok: bool)
      requires |c.scopes| <= MAX_SCOPES
      modifies this
      ensures ok <==>
        && OptionalFits(c.resource) && FieldFits(c.tokenType) && FieldFits(c.accessToken) && OptionalFits(c.refreshToken)
        && ScopesFit(c.scopes) && FieldFits(c.subjectHash) && FieldFits(c.displayIdentity)
      ensures ok && CoreFits(c) ==> out + rest == old(out) + TokenBytes(c, rest)
    {
      ghost var o0 := out;
      ok := PushOptional(c.resource);
      if !ok { return; }
      ghost var o1 := out;
      ok := PushBytes(c.tokenType);
      if !ok { return; }
      ghost var o2 := out;
      ok := PushBytes(c.accessToken);
      if !ok { return; }
      ghost var o3 := out;
      ok := PushOptional(c.refreshToken);
      if !ok { return; }
      ghost var o4 := out;
      ok := PushGrant(c, rest);
      if ok && CoreFits(c) {
        ghost var s4 := GrantBytes(c, rest);
        ghost var s3 := OptionalField(c.refreshToken) + s4;
        ghost var s2 := Field(c.accessToken) + s3;
        ghost var s1 := Field(c.tokenType) + s2;
        ConcatAssociative(o3, OptionalField(c.refreshToken), s4);
        ConcatAssociative(o2, Field(c.accessToken), s3);
        ConcatAssociative(o1, Field(c.tokenType), s2);
        ConcatAssociative(o0, OptionalField(c.resource), s1);
      }
    }

    method PushCore(c: Core, ghost rest: bytes) returns (ok: bool)
      requires |c.scopes| <= MAX_SCOPES
      modifies this
      ensures ok <==> CoreFits(c)
      ensures ok ==> out + rest == old(out) + CoreBytes(c, rest)
    {
      ghost var o0 := out;
      PushU64(c.generation);
      ghost var o1 := out;
      PushU64(c.expiresAt);
      ghost var o2 := out;
      PushOptionalU64(c.refreshExpiresAt);
      ghost var o3 := out;
      ok := PushBytes(c.provider);
      if !ok { return; }
      ghost var o4 := out;
      ok := PushBytes(c.issuer);
      if !ok { return; }
      ghost var o5 := out;
      ok := PushBytes(c.audience);
      if !ok { return; }
      ok := PushTokens(c, rest);
      if ok {
        ghost var s6 := TokenBytes(c, rest);
        ghost var s5 := Field(c.audience) + s6;
        ghost var s4 := Field(c.issuer) + s5;
        ghost var s3 := Field(c.provider) + s4;
        ghost var s2 := OptionalU64(c.refreshExpiresAt) + s3;
        ghost var s1 := U64Bytes(c.expiresAt) + s2;
        ConcatAssociative(o5, Field(c.audience), s6);
        ConcatAssociative(o4, Field(c.issuer), s5);
        ConcatAssociative(o3, Field(c.provider), s4);
        ConcatAssociative(o2, OptionalU64(c.refreshExpiresAt), s3);
        ConcatAssociative(o1, U64Bytes(c.expiresAt), s2);
        ConcatAssociative(o0, U64Bytes(c.generation), s1);
      }
    }

    method PushLifecycle(b: Bundle, ghost rest: bytes)
      modifies this
      ensures out + rest == old(out) + LifecycleBytes(WireOf(b).lifecycle, rest)
    {
      ghost var o0 := out;
      if b.refreshAfter.Some? || b.refreshRejectedUntil.Some? {
        Append(LIFECYCLE_MARKER);
        ghost var o1 := out;
        Append([Flag(b.refreshOnFirstUse)]);
        ghost var o2 := out;
        PushOptionalU64(b.refreshAfter);
        ghost var o3 := out;
        PushOptionalU64(b.refreshRejectedUntil);
        ghost var s3 := OptionalU64(b.refreshRejectedUntil) + rest;
        ghost var s2 := OptionalU64(b.refreshAfter) + s3;
        ghost var s1 := [Flag(b.refreshOnFirstUse)] + s2;
        ConcatAssociative(o3, OptionalU64(b.refreshRejectedUntil), rest);
        ConcatAssociative(o2, OptionalU64(b.refreshAfter), s3);
        ConcatAssociative(o1, [Flag(b.refreshOnFirstUse)], s2);
        ConcatAssociative(o0, LIFECYCLE_MARKER, s1);
      } else if b.refreshOnFirstUse {
        Append(FIRST_USE_MARKER);
        ConcatAssociative(o0, FIRST_USE_MARKER, rest);
      }
    }

    method PushFingerprint(f: Option<fingerprint>, ghost rest: bytes)
      modifies this
      ensures out + rest == old(out) + FingerprintBytes(f, rest)
    {
      if f.Some? {
        Append(FINGERPRINT_MARKER);
        ghost var o1 := out;
        Append(f.value);
        ConcatAssociative(o1, f.value, rest);
        ConcatAssociative(old(out), FINGERPRINT_MARKER, f.value + rest);
      }
    }

    method PushIdentity(i: Identity, ghost rest: bytes) returns (ok: bool)
      modifies this
      ensures ok <==> IdentityFits(i)
      ensures ok ==> out + rest == old(out) + IdentityBytes(i, rest)
    {
      ghost var o0 := out;
      ok := PushOptional(i.email);
      if !ok { return; }
      ghost var o1 := out;
      ok := PushOptional(i.displayName);
      if !ok { return; }
      ghost var o2 := out;
      ok := PushOptional(i.accountId);
      if !ok { return; }
      ghost var o3 := out;
      ok := PushOptional(i.plan);
      if !ok { return; }
      ghost var o4 := out;
      ok := PushOptional(i.issuer);
      if !ok { return; }
      ghost var o5 := out;
      PushU64(i.capturedAt);
      ghost var o6 := out;
      Append([Flag(i.verified)]);
      ghost var s6 := [Flag(i.verified)] + rest;
      ghost var s5 := U64Bytes(i.capturedAt) + s6;
      ghost var s4 := OptionalField(i.issuer) + s5;
      ghost var s3 := OptionalField(i.plan) + s4;
      ghost var s2 := OptionalField(i.accountId) + s3;
      ghost var s1 := OptionalField(i.displayName) + s2;
      ConcatAssociative(o6, [Flag(i.verified)], rest);
      ConcatAssociative(o5, U64Bytes(i.capturedAt), s6);
      ConcatAssociative(o4, OptionalField(i.issuer), s5);
      ConcatAssociative(o3, OptionalField(i.plan), s4);
      ConcatAssociative(o2, OptionalField(i.accountId), s3);
      ConcatAssociative(o1, OptionalField(i.displayName), s2);
      ConcatAssociative(o0, OptionalField(i.email), s1);
    }

    method PushExtension(b: Bundle) returns (ok: bool)
      modifies this
      ensures ok <==> ExtensionFits(WireOf(b).identity)
      ensures ok ==> out == old(out) + ExtensionBytes(WireOf(b).identity, [])
    {
      if b.accountIdentity.None? && b.idToken.None? {
        return true;
      }
      ghost var fits := OptionalFits(b.idToken);
      ghost var token := if fits then OptionalField(b.idToken) + [] else [];
      ghost var o0 := out;
      Append(IDENTITY_MARKER);
      ghost var o1 := out;
      match b.accountIdentity {
        case Some(i) =>
          Append([1]);
          ghost var o2 := out;
          ok := PushIdentity(i, token);
          if !ok { return; }
          ConcatAssociative(o1, [1], IdentityBytes(i, token));
          ConcatAssociative(o0, IDENTITY_MARKER, [1] + IdentityBytes(i, token));
        case None =>
          Append([0]);
          ConcatAssociative(o1, [0], token);
          ConcatAssociative(o0, IDENTITY_MARKER, [0] + token);
      }
      assert fits ==> out + token == o0 + ExtensionBytes(WireOf(b).identity, []);
      ok := PushOptional(b.idToken);
    }
  }

  method EncodeBundle(b: Bundle) returns (r: Result<bytes>)
    ensures r == Encode(b)
  {
    if !Valid(b.core) {
      return Err(InvalidFields);
    }
    var writer := new Writer();
    writer.Append(MAGIC);
    ghost var fits := ExtensionFits(WireOf(b).identity);
    ghost var s3 := if fits then ExtensionBytes(WireOf(b).identity, []) else [];
    ghost var s2 := FingerprintBytes(b.imported, s3);
    ghost var s1 := LifecycleBytes(WireOf(b).lifecycle, s2);
    var ok := writer.PushCore(b.core, s1);
    if !ok {
      return Err(FieldOversized);
    }
    writer.PushLifecycle(b, s2);
    writer.PushFingerprint(b.imported, s3);
    ok := writer.PushExtension(b);
    if !ok {
      return Err(FieldOversized);
    }
    assert writer.out == Write(WireOf(b));
    if |writer.out| > MAX_BUNDLE_BYTES {
      return Err(BundleOversized);
    }
    return Ok(writer.out);
  }

  // ---------------------------------------------------------------------
  // Decoding
  // ---------------------------------------------------------------------

  /** `r` and the cursor's new position agree with a reader function's answer. */
  predicate Agrees<T(==)>(r: Result<T>, after: bytes, p: Parsed<T>)
  {
    match p
    case Got(v, rest) => r == Ok(v) && after == rest
    case Fail(reason) => r == Err(reason)
  }

  /** The cursor of `decode`. */
  class Reader {
    var remaining: bytes

    constructor (s: bytes)
      ensures remaining == s
    {
      remaining := s;
    }

    method TakeBytes(length: nat) returns (r: Result<bytes>)
      modifies this
      ensures Agrees(r, remaining, Take(old(remaining), length))
      ensures r.Err? ==> remaining == old(remaining)
    {
      if length > MAX_FIELD_BYTES || |remaining| < length {
        return Err(Truncated);
      }
      r := Ok(remaining[..length]);
      remaining := remaining[length..];
    }

    method Byte() returns (r: Result<byte>)
      modifies this
      ensures Agrees(r, remaining, ReadByte(old(remaining)))
    {
      var taken := TakeBytes(1);
      if taken.Err? { return Err(taken.reason); }
      return Ok(taken.value[0]);
    }

    method Int(width: nat) returns (r: Result<nat>)
      modifies this
      ensures Agrees(r, remaining, ReadInt(old(remaining), width))
    {
      var taken := TakeBytes(width);
      if taken.Err? { return Err(taken.reason); }
      return Ok(FromBigEndian(taken.value));
    }

    method U64() returns (r: Result<u64>)
      modifies this
      ensures Agrees(r, remaining, ReadU64(old(remaining)))
    {
      Widths();
      var n := Int(8);
      if n.Err? { return Err(n.reason); }
      return Ok(n.value);
    }

    method OptionalU64() returns (r: Result<Option<u64>>)
      modifies this
      ensures Agrees(r, remaining, ReadOptionalU64(old(remaining)))
    {
      var marker := Byte();
      if marker.Err? { return Err(marker.reason); }
      if marker.value == 0 { return Ok(None); }
      if marker.value != 1 { return Err(BadMarker); }
      var n := U64();
      if n.Err? { return Err(n.reason); }
      return Ok(Some(n.value));
    }

    method Flag() returns (r: Result<bool>)
      modifies this
      ensures Agrees(r, remaining, ReadFlag(old(remaining)))
    {
      var marker := Byte();
      if marker.Err? { return Err(marker.reason); }
      if marker.value > 1 { return Err(BadMarker); }
      return Ok(marker.value == 1);
    }

    method LengthPrefixed() returns (r: Result<bytes>)
      modifies this
      ensures Agrees(r, remaining, ReadField(old(remaining)))
    {
      var length := Int(4);
      if length.Err? { return Err(length.reason); }
      r := TakeBytes(length.value);
    }

    method PublicString() returns (r: Result<text>)
      modifies this
      ensures Agrees(r, remaining, ReadText(old(remaining)))
    {
      var s := LengthPrefixed();
      if s.Err? { return Err(s.reason); }
      if !ValidUtf8(s.value) { return Err(NotUtf8); }
      return Ok(s.value);
    }

    method OptionalSecret() returns (r: Result<Option<bytes>>)
      modifies this
      ensures Agrees(r, remaining, ReadOptionalField(old(remaining)))
    {
      var marker := Byte();
      if marker.Err? { return Err(marker.reason); }
      if marker.value == 0 { return Ok(None); }
      if marker.value != 1 { return Err(BadMarker); }
      var s := LengthPrefixed();
      if s.Err? { return Err(s.reason); }
      return Ok(Some(s.value));
    }

    method OptionalPublicString() returns (r: Result<Option<text>>)
      modifies this
      ensures Agrees(r, remaining, ReadOptionalText(old(remaining)))
    {
      var marker := Byte();
      if marker.Err? { return Err(marker.reason); }
      if marker.value == 0 { return Ok(None); }
      if marker.value != 1 { return Err(BadMarker); }
      var s := PublicString();
      if s.Err? { return Err(s.reason); }
      return Ok(Some(s.value));
    }

    /** The scope loop: reads `count` strings or stops at the first that fails. */
    method ScopeList(count: nat) returns (r: Result<seq<text>>)
      modifies this
      ensures Agrees(r, remaining, ReadScopes(old(remaining), count))
    {
      PrependNothing(ReadScopes(remaining, count));
      var scopes: seq<text> := [];
      for i := 0 to count
        invariant |scopes| == i
        invariant ReadScopes(old(remaining), count) == Prepend(scopes, ReadScopes(remaining, count - i))
      {
        ScopesStep(scopes, remaining, count - i);
        var scope := PublicString();
        if scope.Err? { return Err(scope.reason); }
        scopes := scopes + [scope.value];
      }
      assert scopes + [] == scopes;
      return Ok(scopes);
    }

    method GrantFields() returns (r: Result<Grant>)
      modifies this
      ensures Agrees(r, remaining, ReadGrant(old(remaining)))
    {
      var count := Int(2);
      if count.Err? { return Err(count.reason); }
      if count.value > MAX_SCOPES { return Err(TooManyScopes); }
      var scopes := ScopeList(count.value);
      if scopes.Err? { return Err(scopes.reason); }
      var subject := PublicString();
      if subject.Err? { return Err(subject.reason); }
      var display := PublicString();
      if display.Err? { return Err(display.reason); }
      return Ok(Grant(scopes.value, subject.value, display.value));
    }

    method HeadFields() returns (r: Result<Head>)
      modifies this
      ensures Agrees(r, remaining, ReadHead(old(remaining)))
    {
      var generation := U64();
      if generation.Err? { return Err(generation.reason); }
      var expires := U64();
      if expires.Err? { return Err(expires.reason); }
      var refreshExpires := OptionalU64();
      if refreshExpires.Err? { return Err(refreshExpires.reason); }
      var provider := PublicString();
      if provider.Err? { return Err(provider.reason); }
      var issuer := PublicString();
      if issuer.Err? { return Err(issuer.reason); }
      var audience := PublicString();
      if audience.Err? { return Err(audience.reason); }
      return Ok(Head(generation.value, expires.value, refreshExpires.value, provider.value, issuer.value, audience.value));
    }

    method TokenFields() returns (r: Result<Tokens>)
      modifies this
      ensures Agrees(r, remaining, ReadTokens(old(remaining)))
    {
      var resource := OptionalPublicString();
      if resource.Err? { return Err(resource.reason); }
      var tokenType := PublicString();
      if tokenType.Err? { return Err(tokenType.reason); }
      var access := LengthPrefixed();
      if access.Err? { return Err(access.reason); }
      var refresh := OptionalSecret();
      if refresh.Err? { return Err(refresh.reason); }
      return Ok(Tokens(resource.value, tokenType.value, access.value, refresh.value));
    }

    method CoreFields() returns (r: Result<Core>)
      modifies this
      ensures Agrees(r, remaining, ReadCore(old(remaining)))
    {
      var head := HeadFields();
      if head.Err? { return Err(head.reason); }
      var tokens := TokenFields();
      if tokens.Err? { return Err(tokens.reason); }
      var grant := GrantFields();
      if grant.Err? { return Err(grant.reason); }
      return Ok(CoreOf(head.value, tokens.value, grant.value));
    }

    method LifecycleExtension() returns (r: Result<Lifecycle>)
      modifies this
      ensures Agrees(r, remaining, ReadLifecycle(old(remaining)))
    {
      if StartsWith(remaining, LIFECYCLE_MARKER) {
        remaining := remaining[|LIFECYCLE_MARKER|..];
        var flag := Flag();
        if flag.Err? { return Err(flag.reason); }
        var after := OptionalU64();
        if after.Err? { return Err(after.reason); }
        var rejected := OptionalU64();
        if rejected.Err? { return Err(rejected.reason); }
        return Ok(Times(flag.value, after.value, rejected.value));
      }
      if StartsWith(remaining, FIRST_USE_MARKER) {
        remaining := remaining[|FIRST_USE_MARKER|..];
        return Ok(FirstUse);
      }
      return Ok(NoLifecycle);
    }

    method FingerprintExtension() returns (r: Result<Option<fingerprint>>)
      modifies this
      ensures Agrees(r, remaining, ReadFingerprint(old(remaining)))
    {
      if !StartsWith(remaining, FINGERPRINT_MARKER) {
        return Ok(None);
      }
      remaining := remaining[|FINGERPRINT_MARKER|..];
      var f := TakeBytes(32);
      if f.Err? { return Err(f.reason); }
      return Ok(Some(f.value));
    }

    method IdentityFields() returns (r: Result<Identity>)
      modifies this
      ensures Agrees(r, remaining, ReadIdentity(old(remaining)))
    {
      var email := OptionalPublicString();
      if email.Err? { return Err(email.reason); }
      var name := OptionalPublicString();
      if name.Err? { return Err(name.reason); }
      var account := OptionalPublicString();
      if account.Err? { return Err(account.reason); }
      var plan := OptionalPublicString();
      if plan.Err? { return Err(plan.reason); }
      var issuer := OptionalPublicString();
      if issuer.Err? { return Err(issuer.reason); }
      var captured := U64();
      if captured.Err? { return Err(captured.reason); }
      var verified := Flag();
      if verified.Err? { return Err(verified.reason); }
      return Ok(Identity(email.value, name.value, account.value, plan.value, issuer.value,
                         captured.value, verified.value));
    }

    method IdentityTail() returns (r: Result<IdentityExtension>)
      modifies this
      ensures Agrees(r, remaining, ReadExtension(old(remaining)))
    {
      if !StartsWith(remaining, IDENTITY_MARKER) {
        return Ok(NoIdentity);
      }
      remaining := remaining[|IDENTITY_MARKER|..];
      var marker := Byte();
      if marker.Err? { return Err(marker.reason); }
      var identity: Option<Identity> := None;
      if marker.value == 1 {
        var fields := IdentityFields();
        if fields.Err? { return Err(fields.reason); }
        identity := Some(fields.value);
      } else if marker.value != 0 {
        return Err(BadMarker);
      }
      var token := OptionalSecret();
      if token.Err? { return Err(token.reason); }
      return Ok(WithIdentity(identity, token.value));
    }
  }

  /** What reading `k` more scopes after `done` amounts to. */
  function Prepend(done: seq<text>, p: Parsed<seq<text>>): (q: Parsed<seq<text>>)
  {
    match p
    case Got(v, rest) => Got(done + v, rest)
    case Fail(reason) => Fail(reason)
  }

  lemma PrependNothing(p: Parsed<seq<text>>)
    ensures Prepend([], p) == p
  {
    if p.Got? {
      assert [] + p.value == p.value;
    }
  }

  /** One turn of the scope loop, as the recursive reader sees it. */
  lemma ScopesStep(done: seq<text>, s: bytes, n: nat)
    requires n > 0
    ensures ReadText(s).Fail? ==> Prepend(done, ReadScopes(s, n)) == Fail(ReadText(s).reason)
    ensures ReadText(s).Got? ==>
      Prepend(done, ReadScopes(s, n)) == Prepend(done + [ReadText(s).value], ReadScopes(ReadText(s).rest, n - 1))
  {
    if ReadText(s).Got? {
      var p := ReadScopes(ReadText(s).rest, n - 1);
      if p.Got? {
        assert done + ([ReadText(s).value] + p.value) == (done + [ReadText(s).value]) + p.value;
      }
    }
  }

  method DecodeBundle(s: bytes) returns (r: Result<Bundle>)
    ensures r == Decode(s)
  {
    if |s| > MAX_BUNDLE_BYTES || !StartsWith(s, MAGIC) {
      return Err(BadVersion);
    }
    var reader := new Reader(s[|MAGIC|..]);
    var core := reader.CoreFields();
    if core.Err? { return Err(core.reason); }
    var lifecycle := reader.LifecycleExtension();
    if lifecycle.Err? { return Err(lifecycle.reason); }
    var imported := reader.FingerprintExtension();
    if imported.Err? { return Err(imported.reason); }
    var identity := reader.IdentityTail();
    if identity.Err? { return Err(identity.reason); }
    if reader.remaining != [] { return Err(TrailingBytes); }
    if !Valid(core.value) { return Err(InvalidFields); }
    return Ok(BundleOf(Wire(core.value, lifecycle.value, imported.value, identity.value)));
  }
}
