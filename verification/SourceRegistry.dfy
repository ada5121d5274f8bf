/** The registry of externally owned credential roots: at most 64 records with unique
    identities, tombstones that discovery cannot revive, and failing commits. */
module SourceRegistry {
  import opened Bytes
  import opened SnapshotFile
  import VaultNames

  const MAX_SOURCES: nat := 64

  datatype Kind = CodexHome | ClaudeFile | GrokHome | KimiCodeHome

  datatype StoreMode = FileMode | Keyring | Auto | Ephemeral | Unknown

  datatype Health =
    | Pending | Ready | SourceGone | Unreadable | SymlinkEscape | Oversized | PartialWrite
    | MissingFields | InvalidJson | Invalid | RequiresOriginClient | Expired | Revoked

  datatype Record = Record(
    id: bytes, kind: Kind, root: bytes, title: string, enabled: bool, storeMode: StoreMode, refreshOwner: Kind,
    accountAlias: Option<bytes>, lastScanned: Option<u64>, lastRefreshed: Option<u64>, accessExpires: Option<u64>,
    health: Health)

  datatype Error = InvalidArgument | CredentialMissing | StoreCorrupt | Internal

  datatype Reply = Done(record: Option<Record>) | Error(error: Error)

  // ---------------------------------------------------------------------
  // Labels
  // ---------------------------------------------------------------------

  predicate Control(c: char) { c <= '\U{1F}' || '\U{7F}' <= c <= '\U{9F}' }

  predicate White(c: char)
  {
    || '\U{9}' <= c <= '\U{D}' || c == ' ' || c == '\U{85}' || c == '\U{A0}' || c == '\U{1680}'
    || '\U{2000}' <= c <= '\U{200A}' || c == '\U{2028}' || c == '\U{2029}' || c == '\U{202F}' || c == '\U{205F}'
    || c == '\U{3000}'
  }

  function Printable(s: string): (r: string)
    ensures |r| <= |s| && forall i | 0 <= i < |r| :: !Control(r[i])
  {
    if s == "" then "" else (if Control(s[0]) then "" else [s[0]]) + Printable(s[1..])
  }

  /** How much white space a string starts with. */
  function Lead(s: string): (n: nat)
    ensures n <= |s| && (n < |s| ==> !White(s[n])) && forall i | 0 <= i < n :: White(s[i])
  {
    if s == "" || !White(s[0]) then 0 else 1 + Lead(s[1..])
  }

  /** Where the white space that a string ends with begins. */
  function Trail(s: string): (m: nat)
    ensures m <= |s| && (m > 0 ==> !White(s[m - 1])) && forall i | m <= i < |s| :: White(s[i])
  {
    if s == "" || !White(s[|s| - 1]) then |s| else Trail(s[..|s| - 1])
  }

  function Trimmed(s: string): (r: string)
    ensures r == "" || (!White(r[0]) && !White(r[|r| - 1]))
    ensures |r| <= |s| && forall i | 0 <= i < |r| :: r[i] in s
  {
    var r := s[..Trail(s)];
    r[Lead(r)..]
  }

  function Sanitized(text: Option<string>): (r: Option<string>)
  {
    if text.None? then None else
    var printable := Printable(text.value);
    var taken := if |printable| > 80 then printable[..80] else printable;
    var value := Trimmed(taken);
    if value == "" then None else Some(value)
  }

  lemma {:induction false} PrintableClean(s: string)
    requires forall i | 0 <= i < |s| :: !Control(s[i])
    ensures Printable(s) == s
  {
    if s != "" {
      PrintableClean(s[1..]);
      assert s == [s[0]] + s[1..];
    }
  }

  /** A label is short, clean and trimmed, and sanitizing it again changes nothing. */
  lemma SanitizedClean(text: Option<string>)
    requires Sanitized(text).Some?
    ensures var v := Sanitized(text).value;
      && 0 < |v| <= 80 && !White(v[0]) && !White(v[|v| - 1]) && (forall i | 0 <= i < |v| :: !Control(v[i]))
      && Sanitized(Some(v)) == Some(v)
  {
    hide Printable, Trimmed, White, Control;
    var printable := Printable(text.value);
    var v := Sanitized(text).value;
    forall i | 0 <= i < |v| ensures !Control(v[i]) {
      assert v[i] in printable;
    }
    PrintableClean(v);
    TrimmedStays(v);
  }

  lemma TrimmedStays(v: string)
    requires v != "" && !White(v[0]) && !White(v[|v| - 1])
    ensures Trimmed(v) == v
  {
    assert Trail(v) == |v| && v[..|v|] == v && Lead(v) == 0;
  }

  function KindName(k: Kind): (s: string)
  {
    match k
    case CodexHome => "codex_home"
    case ClaudeFile => "claude_file"
    case GrokHome => "grok_home"
    case KimiCodeHome => "kimi_code_home"
  }

  function Spaced(s: string): (r: string) { seq(|s|, i requires 0 <= i < |s| => if s[i] == '_' then ' ' else s[i]) }

  // ---------------------------------------------------------------------
  // Coordinates
  // ---------------------------------------------------------------------

  const SLASH: byte := 47

  /** The names between slashes, without empty names and single dots. */
  function Components(path: bytes): (c: seq<bytes>)
  {
    Names(path, [])
  }

  function Names(path: bytes, current: bytes): (c: seq<bytes>)
    decreases |path|
  {
    if path == [] then Kept(current)
    else if path[0] == SLASH then Kept(current) + Names(path[1..], [])
    else Names(path[1..], current + [path[0]])
  }

  function Kept(name: bytes): (c: seq<bytes>) { if name == [] || name == [46] then [] else [name] }

  predicate Absolute(path: bytes) { path != [] && path[0] == SLASH }

  /** The check that enrolment makes of a root. */
  predicate Normalized(path: bytes) { Absolute(path) && [46, 46] !in Components(path) }

  predicate SamePlace(r: Record, kind: Kind, root: bytes) { r.kind == kind && Components(r.root) == Components(root) }

  /** The digest as a function of the hashed bytes. */
  type Digest = bytes -> bytes

  ghost predicate Injective(h: Digest) { forall a, b | h(a) == h(b) :: a == b }

  const ID_PREFIX: bytes := [115, 114, 99, 49, 95] // "src1_"

  function KindBytes(k: Kind): (b: bytes)
    ensures 0 !in b
  {
    match k
    case CodexHome => [99, 111, 100, 101, 120, 95, 104, 111, 109, 101]
    case ClaudeFile => [99, 108, 97, 117, 100, 101, 95, 102, 105, 108, 101]
    case GrokHome => [103, 114, 111, 107, 95, 104, 111, 109, 101]
    case KimiCodeHome => [107, 105, 109, 105, 95, 99, 111, 100, 101, 95, 104, 111, 109, 101]
  }

  /** The domain separator and its terminator. */
  const DOMAIN: bytes := [
    104, 97, 105, 100, 101, 114, 45, 99, 114, 101, 100, 101, 110, 116, 105, 97, 108, 45, 115, 111, 117, 114, 99, 101,
    45, 118, 49, 0]

  function Hashed(kind: Kind, root: bytes): (b: bytes) { DOMAIN + (KindBytes(kind) + ([0] + root)) }

  function SourceId(h: Digest, kind: Kind, root: bytes): (id: bytes) { ID_PREFIX + VaultNames.Hex(h(Hashed(kind, root))) }

  lemma KindsApart(j: Kind, k: Kind, a: bytes, b: bytes)
    requires KindBytes(j) + ([0] + a) == KindBytes(k) + ([0] + b)
    ensures j == k && a == b
  {
    var x, y := KindBytes(j) + ([0] + a), KindBytes(k) + ([0] + b);
    assert x[0] == KindBytes(j)[0] && y[0] == KindBytes(k)[0];
    assert x[1] == KindBytes(j)[1] && y[1] == KindBytes(k)[1];
    assert j == k;
    var n := |KindBytes(j)| + 1;
    assert x[n..] == a && y[n..] == b;
  }

  /** The identity determines the coordinates. */
  lemma SourceIdInjective(h: Digest, j: Kind, a: bytes, k: Kind, b: bytes)
    requires Injective(h) && SourceId(h, j, a) == SourceId(h, k, b)
    ensures j == k && a == b
  {
    hide VaultNames.Hex, KindBytes;
    var x, y := h(Hashed(j, a)), h(Hashed(k, b));
    assert SourceId(h, j, a)[5..] == VaultNames.Hex(x) && SourceId(h, k, b)[5..] == VaultNames.Hex(y);
    VaultNames.UnhexHex(x);
    VaultNames.UnhexHex(y);
    assert Hashed(j, a) == Hashed(k, b);
    assert Hashed(j, a)[|DOMAIN|..] == KindBytes(j) + ([0] + a) && Hashed(k, b)[|DOMAIN|..] == KindBytes(k) + ([0] + b);
    KindsApart(j, k, a, b);
  }

  // ---------------------------------------------------------------------
  // Validation
  // ---------------------------------------------------------------------

  predicate Proper(h: Digest, r: Record)
  {
    r.id == SourceId(h, r.kind, r.root) && Absolute(r.root) && r.title != "" && r.accountAlias != Some([])
  }

  /** Two records that may not stand in one registry. */
  predicate Clash(r: Record, s: Record)
  {
    r.id == s.id || SamePlace(r, s.kind, s.root) || (r.accountAlias.Some? && r.accountAlias == s.accountAlias)
  }

  predicate NoClash(rs: seq<Record>) { forall i, j | 0 <= i < j < |rs| :: !Clash(rs[i], rs[j]) }

  ghost predicate Valid(h: Digest, rs: seq<Record>)
  {
    |rs| <= MAX_SOURCES && (forall i | 0 <= i < |rs| :: Proper(h, rs[i])) && NoClash(rs)
  }

  /** The sets of the validation loop after `rs`. */
  ghost predicate Seen(rs: seq<Record>, ids: set<bytes>, places: set<(Kind, seq<bytes>)>, aliases: set<bytes>)
  {
    && (forall x :: x in ids <==> exists i | 0 <= i < |rs| :: rs[i].id == x)
    && (forall x :: x in places <==> exists i | 0 <= i < |rs| :: (rs[i].kind, Components(rs[i].root)) == x)
    && (forall x :: x in aliases <==> exists i | 0 <= i < |rs| :: rs[i].accountAlias == Some(x))
  }

  /** A record clashes with an earlier one exactly when one of the sets has it. */
  lemma ClashIsSeen(rs: seq<Record>, r: Record, ids: set<bytes>, places: set<(Kind, seq<bytes>)>, aliases: set<bytes>)
    requires Seen(rs, ids, places, aliases)
    ensures (exists i | 0 <= i < |rs| :: Clash(rs[i], r))
       <==> r.id in ids || (r.kind, Components(r.root)) in places || (r.accountAlias.Some? && r.accountAlias.value in aliases)
  {
    hide Components;
    if i :| 0 <= i < |rs| && Clash(rs[i], r) {
      assert rs[i].id == r.id || (rs[i].kind, Components(rs[i].root)) == (r.kind, Components(r.root))
        || rs[i].accountAlias == r.accountAlias;
    }
    if r.id in ids {
      var i :| 0 <= i < |rs| && rs[i].id == r.id;
      assert Clash(rs[i], r);
    } else if (r.kind, Components(r.root)) in places {
      var i :| 0 <= i < |rs| && (rs[i].kind, Components(rs[i].root)) == (r.kind, Components(r.root));
      assert Clash(rs[i], r);
    } else if r.accountAlias.Some? && r.accountAlias.value in aliases {
      var i :| 0 <= i < |rs| && rs[i].accountAlias == Some(r.accountAlias.value);
      assert Clash(rs[i], r);
    }
  }

  function AliasSet(r: Record): (s: set<bytes>) { if r.accountAlias.Some? then {r.accountAlias.value} else {} }

  lemma SeenOne(rs: seq<Record>, r: Record, ids: set<bytes>, places: set<(Kind, seq<bytes>)>, aliases: set<bytes>)
    requires Seen(rs, ids, places, aliases)
    ensures Seen(rs + [r], ids + {r.id}, places + {(r.kind, Components(r.root))}, aliases + AliasSet(r))
  {
    hide Components;
    var more := rs + [r];
    assert more[|rs|] == r && forall i | 0 <= i < |rs| :: more[i] == rs[i];
    forall x ensures x in ids + {r.id} <==> exists i | 0 <= i < |more| :: more[i].id == x {
      if x in ids {
        var i :| 0 <= i < |rs| && rs[i].id == x;
        assert more[i].id == x;
      }
    }
    forall x
      ensures x in places + {(r.kind, Components(r.root))}
         <==> exists i | 0 <= i < |more| :: (more[i].kind, Components(more[i].root)) == x
    {
      if x in places {
        var i :| 0 <= i < |rs| && (rs[i].kind, Components(rs[i].root)) == x;
        assert (more[i].kind, Components(more[i].root)) == x;
      } else if x == (r.kind, Components(r.root)) {
        assert (more[|rs|].kind, Components(more[|rs|].root)) == x;
      }
    }
    forall x ensures x in aliases + AliasSet(r) <==> exists i | 0 <= i < |more| :: more[i].accountAlias == Some(x) {
      if x in aliases {
        var i :| 0 <= i < |rs| && rs[i].accountAlias == Some(x);
        assert more[i].accountAlias == Some(x);
      }
    }
  }

  /** `validate_records`. */
  method ValidateRecords(h: Digest, rs: seq<Record>) returns (ok: bool)
    ensures ok <==> Valid(h, rs)
  {
    hide Components, Proper, Seen, Clash;
    if |rs| > MAX_SOURCES { return false; }
    var ids: set<bytes>, places: set<(Kind, seq<bytes>)>, aliases: set<bytes> := {}, {}, {};
    assert Seen([], {}, {}, {}) by { NothingSeen(); }
    assert rs[..0] == [];
    for i := 0 to |rs|
      invariant Seen(rs[..i], ids, places, aliases)
      invariant forall j | 0 <= j < i :: Proper(h, rs[j])
      invariant NoClash(rs[..i])
    {
      var r := rs[i];
      ClashIsSeen(rs[..i], r, ids, places, aliases);
      if !Proper(h, r) { return false; }
      if r.id in ids || (r.kind, Components(r.root)) in places
         || (r.accountAlias.Some? && r.accountAlias.value in aliases) {
        var j :| 0 <= j < |rs[..i]| && Clash(rs[..i][j], r);
        assert Clash(rs[j], rs[i]);
        return false;
      }
      SeenOne(rs[..i], r, ids, places, aliases);
      assert rs[..i] + [r] == rs[..i + 1];
      ids, places := ids + {r.id}, places + {(r.kind, Components(r.root))};
      aliases := aliases + AliasSet(r);
    }
    assert rs[..|rs|] == rs;
    return true;
  }

  lemma NothingSeen()
    ensures Seen([], {}, {}, {})
  {
  }

  // ---------------------------------------------------------------------
  // Order
  // ---------------------------------------------------------------------

  function InsertById(r: Record, s: seq<Record>): (t: seq<Record>)
    ensures multiset(t) == multiset(s) + multiset{r} && |t| == |s| + 1
    ensures forall x | x in t :: x == r || x in s
  {
    if s == [] then [r]
    else if Less(r.id, s[0].id) then [r] + s
    else assert s == [s[0]] + s[1..]; [s[0]] + InsertById(r, s[1..])
  }

  /** The stable sort by identity that enrolment applies. */
  function SortById(s: seq<Record>): (t: seq<Record>)
    ensures multiset(t) == multiset(s) && |t| == |s|
    ensures forall x | x in t :: x in s
  {
    if s == [] then []
    else
      var last := |s| - 1;
      assert s == s[..last] + [s[last]];
      InsertById(s[last], SortById(s[..last]))
  }

  predicate Ordered(s: seq<Record>) { forall i, j | 0 <= i < j < |s| :: !Less(s[j].id, s[i].id) }

  lemma {:induction false} InsertOrdered(r: Record, s: seq<Record>)
    requires Ordered(s)
    ensures Ordered(InsertById(r, s))
  {
    hide Less;
    if s != [] {
      if Less(r.id, s[0].id) {
        forall j | 0 <= j < |s| ensures !Less(s[j].id, r.id) {
          if Less(s[j].id, r.id) {
            LessTransitive(s[j].id, r.id, s[0].id);
            LessTotal(s[0].id, s[0].id);
          }
        }
      } else {
        InsertOrdered(r, s[1..]);
        var t := InsertById(r, s[1..]);
        forall j | 0 <= j < |t| ensures !Less(t[j].id, s[0].id) {
          assert t[j] in t;
        }
      }
    }
  }

  lemma {:induction false} SortOrdered(s: seq<Record>)
    ensures Ordered(SortById(s))
  {
    hide InsertById, Less;
    if s != [] {
      var last := |s| - 1;
      SortOrdered(s[..last]);
      InsertOrdered(s[last], SortById(s[..last]));
    }
  }

  lemma {:induction false} InsertNoClash(r: Record, s: seq<Record>)
    requires NoClash(s) && forall x | x in s :: !Clash(x, r)
    ensures NoClash(InsertById(r, s))
  {
    hide Less, Components;
    if s != [] {
      if Less(r.id, s[0].id) {
        forall j | 0 <= j < |s| ensures !Clash(r, s[j]) {
          assert !Clash(s[j], r);
        }
      } else {
        InsertNoClash(r, s[1..]);
        var t := InsertById(r, s[1..]);
        forall j | 0 <= j < |t| ensures !Clash(s[0], t[j]) {
          assert t[j] in t;
          if t[j] != r {
            var k :| 0 <= k < |s[1..]| && s[1..][k] == t[j];
            assert !Clash(s[0], s[k + 1]);
          }
        }
      }
    }
  }

  lemma {:induction false} SortNoClash(s: seq<Record>)
    requires NoClash(s)
    ensures NoClash(SortById(s))
  {
    hide Clash, InsertById;
    if s != [] {
      var last := |s| - 1;
      SortNoClash(s[..last]);
      var t := SortById(s[..last]);
      forall x | x in t ensures !Clash(x, s[last]) {
        var k :| 0 <= k < last && s[..last][k] == x;
        assert !Clash(s[k], s[last]);
      }
      InsertNoClash(s[last], t);
    }
  }

  // ---------------------------------------------------------------------
  // What each operation proposes
  // ---------------------------------------------------------------------

  /** `canonical` is what resolving the operator's path gave, if it is a directory. */
  datatype Op =
    | Enroll(kind: Kind, canonical: Option<bytes>, text: Option<string>)
    | EnsureDefault(kind: Kind, root: bytes, name: string)
    | Update(record: Record)
    | Remove(id: bytes)

  datatype Outcome = Refuse(error: Error) | Keep(record: Record) | Candidate(next: seq<Record>, answer: Option<Record>)

  function AtPlace(kind: Kind, root: bytes): (p: Record -> bool) { (r: Record) => SamePlace(r, kind, root) }

  function WithId(id: bytes): (p: Record -> bool) { (r: Record) => r.id == id }

  function PlaceOf(rs: seq<Record>, kind: Kind, root: bytes): (r: Option<nat>)
    ensures r.Some? ==> r.value < |rs| && SamePlace(rs[r.value], kind, root)
    ensures r.None? ==> forall j | 0 <= j < |rs| :: !SamePlace(rs[j], kind, root)
  {
    FirstFrom(rs, AtPlace(kind, root), 0)
  }

  function IdOf(rs: seq<Record>, id: bytes): (r: Option<nat>)
    ensures r.Some? ==> r.value < |rs| && rs[r.value].id == id
    ensures r.None? ==> forall j | 0 <= j < |rs| :: rs[j].id != id
  {
    FirstFrom(rs, WithId(id), 0)
  }

  /** A tombstone brought back by the operator. */
  function Revived(r: Record, text: Option<string>): (n: Record)
  {
    r.(enabled := true, health := Pending, lastScanned := None,
       title := if Sanitized(text).Some? then Sanitized(text).value else r.title)
  }

  function Newcomer(h: Digest, kind: Kind, root: bytes, text: Option<string>): (r: Record)
  {
    Record(SourceId(h, kind, root), kind, root,
           if Sanitized(text).Some? then Sanitized(text).value else Spaced(KindName(kind)),
           true, Unknown, kind, None, None, None, None, Pending)
  }

  function ProposeUpsert(h: Digest, rs: seq<Record>, kind: Kind, root: bytes, text: Option<string>): (o: Outcome)
  {
    match PlaceOf(rs, kind, root)
    case Some(i) =>
      if rs[i].enabled then Keep(rs[i]) else Candidate(rs[i := Revived(rs[i], text)], Some(Revived(rs[i], text)))
    case None =>
      if |rs| >= MAX_SOURCES then Refuse(InvalidArgument)
      else Candidate(SortById(rs + [Newcomer(h, kind, root, text)]), Some(Newcomer(h, kind, root, text)))
  }

  ghost function Propose(h: Digest, rs: seq<Record>, op: Op): (o: Outcome)
  {
    match op
    case Enroll(kind, canonical, text) =>
      if canonical.None? || !Normalized(canonical.value) then Refuse(InvalidArgument)
      else ProposeUpsert(h, rs, kind, canonical.value, text)
    case EnsureDefault(kind, root, name) =>
      if !Normalized(root) then Refuse(InvalidArgument)
      else
        (match PlaceOf(rs, kind, root)
         case Some(i) => Keep(rs[i])
         case None => ProposeUpsert(h, rs, kind, root, Some(name)))
    case Update(r) =>
      (match IdOf(rs, r.id)
       case None => Refuse(CredentialMissing)
       case Some(i) =>
         if !SamePlace(rs[i], r.kind, r.root) then Refuse(InvalidArgument)
         else if !Valid(h, rs[i := r]) then Refuse(StoreCorrupt)
         else Candidate(rs[i := r], None))
    case Remove(id) =>
      (match IdOf(rs, id)
       case None => Refuse(CredentialMissing)
       case Some(i) => Candidate(rs[..i] + rs[i + 1..], Some(rs[i])))
  }

  // ---------------------------------------------------------------------
  // Every proposal is valid
  // ---------------------------------------------------------------------

  lemma TitleNonEmpty(k: Kind, text: Option<string>, other: string)
    ensures Spaced(KindName(k)) != ""
    ensures other != "" ==> (if Sanitized(text).Some? then Sanitized(text).value else other) != ""
  {
    hide Printable, Trimmed;
  }

  lemma NewcomerClear(h: Digest, rs: seq<Record>, kind: Kind, root: bytes, text: Option<string>)
    requires Injective(h) && Valid(h, rs) && PlaceOf(rs, kind, root).None? && Absolute(root)
    ensures Proper(h, Newcomer(h, kind, root, text))
    ensures NoClash(rs + [Newcomer(h, kind, root, text)])
  {
    hide Components, SourceId, Sanitized, PlaceOf, Spaced, KindName;
    var r := Newcomer(h, kind, root, text);
    TitleNonEmpty(kind, text, Spaced(KindName(kind)));
    forall j | 0 <= j < |rs| ensures !Clash(rs[j], r) {
      assert Proper(h, rs[j]) && !SamePlace(rs[j], kind, root);
      if rs[j].id == r.id {
        SourceIdInjective(h, rs[j].kind, rs[j].root, kind, root);
      }
    }
  }

  lemma UpsertValid(h: Digest, rs: seq<Record>, kind: Kind, root: bytes, text: Option<string>)
    requires Injective(h) && Valid(h, rs) && Absolute(root) && ProposeUpsert(h, rs, kind, root, text).Candidate?
    ensures Valid(h, ProposeUpsert(h, rs, kind, root, text).next)
  {
    hide Components, SourceId, Sanitized, SortById, Clash, Newcomer, PlaceOf;
    match PlaceOf(rs, kind, root)
    case Some(i) =>
      assert Proper(h, rs[i]);
      TitleNonEmpty(kind, text, rs[i].title);
      PatchValid(h, rs, i, Revived(rs[i], text));
    case None =>
      var r := Newcomer(h, kind, root, text);
      NewcomerClear(h, rs, kind, root, text);
      SortNoClash(rs + [r]);
      var next := SortById(rs + [r]);
      forall i | 0 <= i < |next| ensures Proper(h, next[i]) {
        assert next[i] in next && next[i] in rs + [r];
      }
  }

  lemma PatchValid(h: Digest, rs: seq<Record>, i: nat, r: Record)
    requires Valid(h, rs) && i < |rs| && Proper(h, r)
    requires r.id == rs[i].id && r.kind == rs[i].kind && r.root == rs[i].root && r.accountAlias == rs[i].accountAlias
    ensures Valid(h, rs[i := r])
  {
    hide Components, SourceId;
    var next := rs[i := r];
    forall j, k | 0 <= j < k < |next| ensures !Clash(next[j], next[k]) {
      assert !Clash(rs[j], rs[k]);
    }
  }

  /** Revalidation rejects nothing but an update whose own fields are bad. */
  lemma ProposalValid(h: Digest, rs: seq<Record>, op: Op)
    requires Injective(h) && Valid(h, rs) && Propose(h, rs, op).Candidate?
    ensures Valid(h, Propose(h, rs, op).next)
  {
    hide Components, ProposeUpsert, Clash, Proper, PlaceOf, IdOf;
    match op
    case Enroll(kind, canonical, text) => UpsertValid(h, rs, kind, canonical.value, text);
    case EnsureDefault(kind, root, name) => UpsertValid(h, rs, kind, root, Some(name));
    case Update(_) =>
    case Remove(id) =>
      var i := IdOf(rs, id).value;
      var next := rs[..i] + rs[i + 1..];
      assert forall j | 0 <= j < |next| :: next[j] == rs[if j < i then j else j + 1];
  }

  // ---------------------------------------------------------------------
  // Labels and paths, exactly
  // ---------------------------------------------------------------------

  predicate AllWhite(s: string) { forall i | 0 <= i < |s| :: White(s[i]) }

  /** `p` is `s` without its control characters: nothing else is dropped, added or moved. */
  ghost predicate Filtered(s: string, p: string)
  {
    if s == "" then p == ""
    else if Control(s[0]) then Filtered(s[1..], p)
    else p != "" && p[0] == s[0] && Filtered(s[1..], p[1..])
  }

  lemma {:induction false} PrintableFilters(s: string, p: string)
    ensures Filtered(s, p) <==> p == Printable(s)
    decreases |s|
  {
    if s != "" {
      if Control(s[0]) {
        PrintableFilters(s[1..], p);
      } else if p != "" {
        PrintableFilters(s[1..], p[1..]);
        assert p == [p[0]] + p[1..];
      }
    }
  }

  /** The first eighty printable characters of a text, with the white space around them, are the label;
      there is none exactly when they are all white. */
  lemma LabelExact(text: string, p: string)
    requires Filtered(text, p)
    ensures var taken := if |p| > 80 then p[..80] else p;
      && (Sanitized(Some(text)).None? <==> AllWhite(taken))
      && (Sanitized(Some(text)).Some? ==>
            exists lead: string, trail: string ::
              AllWhite(lead) && AllWhite(trail) && taken == lead + (Sanitized(Some(text)).value + trail))
    ensures Sanitized(None) == None
  {
    hide White, Control, Printable;
    PrintableFilters(text, p);
    var taken := if |p| > 80 then p[..80] else p;
    TrimmedAround(taken);
  }

  lemma TrimmedAround(s: string)
    ensures Trimmed(s) == "" <==> AllWhite(s)
    ensures exists lead: string, trail: string :: AllWhite(lead) && AllWhite(trail) && s == lead + (Trimmed(s) + trail)
  {
    hide White, Lead, Trail;
    var m := Trail(s);
    var r := s[..m];
    var n := Lead(r);
    var lead, trail := s[..n], s[m..];
    assert AllWhite(lead) && AllWhite(trail) by {
      assert forall i | 0 <= i < n :: s[i] == r[i];
    }
    assert s == lead + (Trimmed(s) + trail);
    LastKept(s);
    if Trimmed(s) != "" {
      assert Trimmed(s)[0] == s[n];
      assert !AllWhite(s);
    }
  }

  lemma LastKept(s: string)
    ensures var r := s[..Trail(s)]; r != "" ==> !White(r[|r| - 1])
  {
    hide White, Trail;
  }

  lemma {:induction false} NamesJoin(a: bytes, b: bytes, current: bytes)
    ensures Names(a + ([SLASH] + b), current) == Names(a, current) + Names(b, [])
    decreases |a|
  {
    var path := a + ([SLASH] + b);
    if a == [] {
      assert path == [SLASH] + b && path[1..] == b;
    } else {
      assert path[0] == a[0] && path[1..] == a[1..] + ([SLASH] + b);
      if a[0] == SLASH {
        NamesJoin(a[1..], b, []);
      } else {
        NamesJoin(a[1..], b, current + [a[0]]);
      }
    }
  }

  /** A slash parts the names before it from those after it. */
  lemma ComponentsJoin(a: bytes, b: bytes)
    ensures Components(a + ([SLASH] + b)) == Components(a) + Components(b)
  {
    NamesJoin(a, b, []);
  }

  lemma {:induction false} NamesOne(name: bytes, current: bytes)
    requires SLASH !in name
    ensures Names(name, current) == Kept(current + name)
    decreases |name|
  {
    if name == [] {
      assert current + name == current;
    } else {
      NamesOne(name[1..], current + [name[0]]);
      assert (current + [name[0]]) + name[1..] == current + name;
    }
  }

  /** And what has no slash is one name, or none if it is empty or a dot. */
  lemma ComponentsOne(name: bytes)
    requires SLASH !in name
    ensures Components(name) == if |name| == 0 || name == [46] then [] else [name]
  {
    NamesOne(name, []);
    assert [] + name == name;
  }

  /** What validation asks of records: at most 64, each with the identity of its coordinates, an absolute
      root, a label and no empty alias, and no two with an identity, a place or an alias in common. */
  lemma ValidExactly(h: Digest, rs: seq<Record>)
    ensures Valid(h, rs) <==>
      && |rs| <= 64
      && (forall i | 0 <= i < |rs| ::
            && rs[i].id == SourceId(h, rs[i].kind, rs[i].root) && |rs[i].root| > 0 && rs[i].root[0] == 47
            && |rs[i].title| > 0 && (rs[i].accountAlias.Some? ==> |rs[i].accountAlias.value| > 0))
      && (forall i, j | 0 <= i < |rs| && 0 <= j < |rs| && i != j ::
            && rs[i].id != rs[j].id && !(rs[i].kind == rs[j].kind && Components(rs[i].root) == Components(rs[j].root))
            && (rs[i].accountAlias.Some? ==> rs[i].accountAlias != rs[j].accountAlias))
  {
    hide SourceId, Components;
    if NoClash(rs) {
      forall i, j | 0 <= i < |rs| && 0 <= j < |rs| && i != j ensures !Clash(rs[i], rs[j]) {
        assert if i < j then !Clash(rs[i], rs[j]) else !Clash(rs[j], rs[i]);
      }
    }
  }
}
