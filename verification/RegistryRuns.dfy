/** The credential source registry as an object, and what holds over every run of it. */
module RegistryRuns {
  import opened Bytes
  import opened SnapshotFile
  import opened SourceRegistry

  /** The records in memory and the registry's file. */
  datatype World = World(view: seq<Record>, file: Files<Record>)

  /** The records are valid, and so is everything that a crash can leave. */
  ghost predicate Safe(h: Digest, w: World)
  {
    && Valid(h, w.view) && Whole(w.file)
    && forall i | 0 <= i < |w.file.main| :: Loaded(w.file.main[i]).Some? && Valid(h, Loaded(w.file.main[i]).value)
  }

  /** The records are what the file durably holds. */
  predicate Durable(w: World)
    requires w.file.main != []
  {
    Loaded(w.file.main[0]) == Some(w.view)
  }

  /** A process loads what it sees. */
  ghost predicate Opens(file: Files<Record>, w: World)
    requires file.main != []
  {
    w.file == file && Loaded(Visible(file)) == Some(w.view)
  }

  /** One call, with its commit failing at `fault`. */
  ghost predicate Follows(h: Digest, w: World, n: World, op: Op, fault: Option<Stage>, r: Reply)
  {
    match Propose(h, w.view, op)
    case Refuse(e) => n == w && r == Error(e)
    case Keep(record) => n == w && r == Done(Some(record))
    case Candidate(next, answer) =>
      && n.file.main == Saved(w.file.main, next, fault)
      && (if fault.None? then n.view == next && r == Done(answer) else n.view == w.view && r == Error(Internal))
  }

  class CredentialSourceRegistry {
    const h: Digest
    var records: seq<Record>
    var file: Files<Record>

    ghost function State(): (w: World) reads this { World(records, file) }

    ghost predicate Ready() reads this { Injective(h) && Valid(h, records) && file.main != [] }

    constructor (h: Digest, records: seq<Record>, file: Files<Record>)
      ensures this.h == h && this.records == records && this.file == file
    {
      this.h, this.records, this.file := h, records, file;
    }

    /** Opens whatever the file holds; anything but valid records is refused. */
    static method Load(h: Digest, file: Files<Record>) returns (registry: CredentialSourceRegistry?, error: Option<Error>)
      requires file.main != []
      ensures error.None? <==> registry != null
      ensures registry != null <==> Loaded(Visible(file)).Some? && Valid(h, Loaded(Visible(file)).value)
      ensures registry != null ==> fresh(registry) && registry.h == h && Opens(file, registry.State())
      ensures registry != null && Injective(h) ==> registry.Ready()
    {
      hide Valid, Injective;
      match Loaded(Visible(file))
      case None => return null, Some(StoreCorrupt);
      case Some(records) =>
        var ok := ValidateRecords(h, records);
        if !ok { return null, Some(StoreCorrupt); }
        registry := new CredentialSourceRegistry(h, records, file);
        return registry, None;
    }

    method Commit(next: seq<Record>, fault: Option<Stage>) returns (error: Option<Error>)
      requires file.main != []
      modifies this
      ensures !Valid(h, next) ==> error == Some(StoreCorrupt) && State() == old(State())
      ensures Valid(h, next) ==>
        && error == (if fault.None? then None else Some(Internal))
        && records == (if fault.None? then next else old(records))
        && file.main == Saved(old(file.main), next, fault)
    {
      hide Valid;
      var valid := ValidateRecords(h, next);
      if !valid { return Some(StoreCorrupt); }
      var ok;
      file, ok := Save(file, next, fault);
      if !ok { return Some(Internal); }
      records := next;
      return None;
    }

    method Upsert(kind: Kind, root: bytes, text: Option<string>, fault: Option<Stage>, ghost op: Op) returns (r: Reply)
      requires Ready() && Absolute(root) && Propose(h, records, op) == ProposeUpsert(h, records, kind, root, text)
      modifies this
      ensures Ready() && Follows(h, old(State()), State(), op, fault, r)
    {
      hide Valid, Propose, Sanitized, SourceId, Injective, SamePlace, Newcomer, SortById, Revived;
      var i := FindFirst(records, AtPlace(kind, root));
      if i.Some? {
        var existing := records[i.value];
        if existing.enabled { return Done(Some(existing)); }
        r := Revive(i.value, kind, root, text, fault, op);
        return;
      }
      if |records| >= MAX_SOURCES { return Error(InvalidArgument); }
      r := Add(kind, root, text, fault, op);
    }

    /** The half of `upsert` that brings a tombstone back. */
    method Revive(i: nat, kind: Kind, root: bytes, text: Option<string>, fault: Option<Stage>, ghost op: Op) returns (r: Reply)
      requires Ready() && Absolute(root) && Propose(h, records, op) == ProposeUpsert(h, records, kind, root, text)
      requires PlaceOf(records, kind, root) == Some(i) && !records[i].enabled
      modifies this
      ensures Ready() && Follows(h, old(State()), State(), op, fault, r)
    {
      hide Valid, Propose, Sanitized, Injective, SamePlace, PlaceOf;
      var revived := records[i].(enabled := true, health := Pending, lastScanned := None);
      var cleaned := Sanitized(text);
      if cleaned.Some? { revived := revived.(title := cleaned.value); }
      UpsertValid(h, records, kind, root, text);
      var error := Commit(records[i := revived], fault);
      return if error.Some? then Error(error.value) else Done(Some(revived));
    }

    /** The half of `upsert` that adds a record. */
    method Add(kind: Kind, root: bytes, text: Option<string>, fault: Option<Stage>, ghost op: Op) returns (r: Reply)
      requires Ready() && Absolute(root) && Propose(h, records, op) == ProposeUpsert(h, records, kind, root, text)
      requires PlaceOf(records, kind, root).None? && |records| < MAX_SOURCES
      modifies this
      ensures Ready() && Follows(h, old(State()), State(), op, fault, r)
    {
      hide Valid, Propose, Injective, PlaceOf, Newcomer, SortById;
      UpsertValid(h, records, kind, root, text);
      var record := Newcomer(h, kind, root, text);
      var error := Commit(SortById(records + [record]), fault);
      return if error.Some? then Error(error.value) else Done(Some(record));
    }

    method EnrollRoot(kind: Kind, canonical: Option<bytes>, text: Option<string>, fault: Option<Stage>) returns (r: Reply)
      requires Ready()
      modifies this
      ensures Ready() && Follows(h, old(State()), State(), Enroll(kind, canonical, text), fault, r)
    {
      hide ProposeUpsert, Valid, Injective;
      if canonical.None? || !Normalized(canonical.value) { return Error(InvalidArgument); }
      r := Upsert(kind, canonical.value, text, fault, Enroll(kind, canonical, text));
    }

    method Discover(kind: Kind, root: bytes, name: string, fault: Option<Stage>) returns (r: Reply)
      requires Ready()
      modifies this
      ensures Ready() && Follows(h, old(State()), State(), EnsureDefault(kind, root, name), fault, r)
    {
      hide ProposeUpsert, Valid, Injective;
      if !Normalized(root) { return Error(InvalidArgument); }
      var i := FindFirst(records, AtPlace(kind, root));
      if i.Some? { return Done(Some(records[i.value])); }
      r := Upsert(kind, root, Some(name), fault, EnsureDefault(kind, root, name));
    }

    method UpdateRecord(updated: Record, fault: Option<Stage>) returns (r: Reply)
      requires Ready()
      modifies this
      ensures Ready() && Follows(h, old(State()), State(), Update(updated), fault, r)
    {
      hide Valid, Injective, SamePlace;
      var i := FindFirst(records, WithId(updated.id));
      if i.None? { return Error(CredentialMissing); }
      if !SamePlace(records[i.value], updated.kind, updated.root) { return Error(InvalidArgument); }
      var error := Commit(records[i.value := updated], fault);
      return if error.Some? then Error(error.value) else Done(None);
    }

    method RemoveRecord(id: bytes, fault: Option<Stage>) returns (r: Reply)
      requires Ready()
      modifies this
      ensures Ready() && Follows(h, old(State()), State(), Remove(id), fault, r)
    {
      hide Valid, Injective;
      var i := FindFirst(records, WithId(id));
      if i.None? { return Error(CredentialMissing); }
      var removed := records[i.value];
      ProposalValid(h, records, Remove(id));
      var error := Commit(records[..i.value] + records[i.value + 1..], fault);
      return if error.Some? then Error(error.value) else Done(Some(removed));
    }
  }

  // ---------------------------------------------------------------------
  // Every run
  // ---------------------------------------------------------------------

  /** A call; a machine crash that leaves candidate `pick`, and loading it; or a new process that loads
      the file as it is, nothing having crashed. */
  datatype Event = Operate(op: Op, fault: Option<Stage>, reply: Reply) | Restart(pick: nat) | Reopen

  ghost predicate Happens(h: Digest, w: World, n: World, e: Event)
  {
    match e
    case Operate(op, fault, r) => Follows(h, w, n, op, fault, r)
    case Restart(pick) => Crashes(w.file, n.file, pick) && Opens(n.file, n)
    case Reopen => w.file.main != [] && Opens(w.file, n)
  }

  lemma HappensKeeps(h: Digest, w: World, n: World, e: Event)
    requires Injective(h) && Safe(h, w) && Happens(h, w, n, e)
    ensures Safe(h, n)
  {
    hide Valid, Propose, Injective;
    match e
    case Operate(op, _, _) => if Propose(h, w.view, op).Candidate? { ProposalValid(h, w.view, op); }
    case Restart(pick) => CrashLoads(w.file, n.file, pick);
    case Reopen =>
  }

  ghost predicate Run(h: Digest, worlds: seq<World>, events: seq<Event>)
  {
    && |worlds| == |events| + 1
    && forall i | 0 <= i < |events| :: Happens(h, worlds[i], worlds[i + 1], events[i])
  }

  lemma RunStep(h: Digest, worlds: seq<World>, events: seq<Event>, i: nat)
    requires Run(h, worlds, events) && i + 1 < |worlds|
    ensures |worlds| == |events| + 1 && Happens(h, worlds[i], worlds[i + 1], events[i])
  {
    hide Happens;
  }

  /** At most 64 records with unique identities, places and aliases, in memory and in everything
      that a crash can leave. */
  lemma {:induction false} EveryRunSafe(h: Digest, worlds: seq<World>, events: seq<Event>, i: nat)
    requires Injective(h) && Run(h, worlds, events) && Safe(h, worlds[0]) && i < |worlds|
    ensures Safe(h, worlds[i])
  {
    hide Safe, Happens, Injective, Run;
    if i > 0 {
      RunStep(h, worlds, events, i - 1);
      EveryRunSafe(h, worlds, events, i - 1);
      HappensKeeps(h, worlds[i - 1], worlds[i], events[i - 1]);
    }
  }

  /** What an event does to durability: a successful commit or a crash restores it, opening the file
      keeps it exactly when the durable and the visible records agree, and nothing else touches it. */
  lemma DurableAfter(h: Digest, w: World, n: World, e: Event)
    requires Safe(h, w) && Happens(h, w, n, e)
    ensures n.file.main != []
    ensures Durable(n) <==>
      match e
      case Operate(op, fault, _) => (Propose(h, w.view, op).Candidate? && fault.None?) || Durable(w)
      case Restart(_) => true
      case Reopen => Loaded(w.file.main[0]) == Loaded(Visible(w.file))
  {
    hide Valid, Propose;
    match e
    case Operate(op, _, _) =>
    case Restart(pick) => CrashLoads(w.file, n.file, pick);
    case Reopen =>
  }

  /** Identities are fixed by coordinates at any two times of a run, removal and re-enrolment included. */
  lemma IdentityFixed(h: Digest, worlds: seq<World>, events: seq<Event>, i: nat, j: nat, r: Record, s: Record)
    requires Injective(h) && Run(h, worlds, events) && Safe(h, worlds[0]) && i < |worlds| && j < |worlds|
    requires r in worlds[i].view && s in worlds[j].view
    ensures r.id == s.id <==> r.kind == s.kind && r.root == s.root
  {
    hide Run, SourceId, Injective;
    EveryRunSafe(h, worlds, events, i);
    EveryRunSafe(h, worlds, events, j);
    var m :| 0 <= m < |worlds[i].view| && worlds[i].view[m] == r;
    var n :| 0 <= n < |worlds[j].view| && worlds[j].view[n] == s;
    assert Proper(h, worlds[i].view[m]) && Proper(h, worlds[j].view[n]);
    if r.id == s.id { SourceIdInjective(h, r.kind, r.root, s.kind, s.root); }
  }

  /** For one place at two times, the identity is the same exactly when the root is written the same:
      places are compared by components and identities made from bytes. */
  lemma PlaceIdentity(h: Digest, worlds: seq<World>, events: seq<Event>, i: nat, j: nat, r: Record, s: Record)
    requires Injective(h) && Run(h, worlds, events) && Safe(h, worlds[0]) && i < |worlds| && j < |worlds|
    requires r in worlds[i].view && s in worlds[j].view && SamePlace(r, s.kind, s.root)
    ensures r.id == s.id <==> r.root == s.root
  {
    hide Run, Components, Injective, Safe;
    IdentityFixed(h, worlds, events, i, j, r, s);
  }

  /** A place that is discovered, removed, and discovered again as `/a//b` has another identity: a run
      of three calls that all succeed. */
  lemma IdentityMoves(h: Digest, kind: Kind, name: string) returns (worlds: seq<World>, events: seq<Event>, r: Record, s: Record)
    requires Injective(h)
    ensures Run(h, worlds, events) && Safe(h, worlds[0]) && |events| == 3
    ensures worlds[1].view == [r] && worlds[2].view == [] && worlds[3].view == [s]
    ensures r.root == [SLASH, 97, SLASH, 98] && s.root == [SLASH, 97, SLASH, SLASH, 98]
    ensures SamePlace(r, s.kind, s.root) && r.id != s.id
  {
    hide Injective, Newcomer, Components, Propose;
    var a, b := [SLASH, 97, SLASH, 98], [SLASH, 97, SLASH, SLASH, 98];
    SameNames();
    r, s := Newcomer(h, kind, a, Some(name)), Newcomer(h, kind, b, Some(name));
    var none := Files([None], None);
    var w0, w1 := World([], none), World([r], Files([Some(Synced([r]))], None));
    var w2, w3 := World([], Files([Some(Synced([]))], None)), World([s], Files([Some(Synced([s]))], None));
    worlds := [w0, w1, w2, w3];
    events := [Operate(EnsureDefault(kind, a, name), None, Done(Some(r))), Operate(Remove(r.id), None, Done(Some(r))),
               Operate(EnsureDefault(kind, b, name), None, Done(Some(s)))];
    FirstDiscovered(h, kind, a, name);
    FirstDiscovered(h, kind, b, name);
    OnlyRemoved(h, r);
    assert Safe(h, w0);
    assert Run(h, worlds, events);
    NewcomerRoot(h, kind, a, name);
    NewcomerRoot(h, kind, b, name);
    PlaceIdentity(h, worlds, events, 1, 3, r, s);
  }

  lemma NewcomerRoot(h: Digest, kind: Kind, root: bytes, name: string)
    ensures var r := Newcomer(h, kind, root, Some(name)); r.kind == kind && r.root == root
  {
  }

  /** `/a/b` and `/a//b` are one place. */
  lemma SameNames()
    ensures var a, b := [SLASH, 97, SLASH, 98], [SLASH, 97, SLASH, SLASH, 98];
      Components(a) == Components(b) == [[97], [98]] && Normalized(a) && Normalized(b)
  {
    var end := [98];
    assert end[1..] == [];
    assert Names(end, []) == [[98]] by { assert [] + [end[0]] == [98]; assert Names([], [98]) == [[98]]; }
    var tail := [SLASH, 98];
    assert tail[1..] == end && Names(tail, []) == [[98]];
    var slashes := [SLASH, SLASH, 98];
    assert slashes[1..] == tail && Names(slashes, []) == [[98]];
    AfterA(tail);
    AfterA(slashes);
    var a, b := [SLASH, 97, SLASH, 98], [SLASH, 97, SLASH, SLASH, 98];
    assert a == [SLASH, 97] + tail && b == [SLASH, 97] + slashes;
  }

  lemma AfterA(rest: bytes)
    requires rest != [] && rest[0] == SLASH && Names(rest, []) == [[98]]
    ensures Components([SLASH, 97] + rest) == [[97], [98]]
  {
    var path, mid := [SLASH, 97] + rest, [97] + rest;
    assert path[1..] == mid && mid[1..] == rest && [] + [mid[0]] == [97];
    assert Names(path, []) == [] + Names(mid, []) == Names(rest, [97]);
    assert Names(rest, []) == [] + Names(rest[1..], []) == Names(rest[1..], []);
    assert Names(rest, [97]) == [[97]] + Names(rest[1..], []);
  }

  lemma FirstDiscovered(h: Digest, kind: Kind, root: bytes, name: string)
    requires Normalized(root)
    ensures var r := Newcomer(h, kind, root, Some(name));
      Propose(h, [], EnsureDefault(kind, root, name)) == Candidate([r], Some(r))
  {
    hide Newcomer, Normalized;
    var r := Newcomer(h, kind, root, Some(name));
    var all := [] + [r];
    assert all[..0] == [] && SortById([]) == [] && SortById(all) == [r];
  }

  lemma OnlyRemoved(h: Digest, r: Record)
    ensures Propose(h, [r], Remove(r.id)) == Candidate([], Some(r))
  {
    var rs := [r];
    assert IdOf(rs, r.id) == Some(0);
    assert rs[..0] + rs[1..] == [];
  }

  /** A failed commit never changes the view, and leaves the file untouched exactly when the parent's
      sync is not what failed, or the file already held the candidate. */
  lemma FailedCommit(h: Digest, w: World, n: World, op: Op, stage: Stage, r: Reply)
    requires Safe(h, w) && Follows(h, w, n, op, Some(stage), r) && Propose(h, w.view, op).Candidate?
    ensures r == Error(Internal) && n.view == w.view
    ensures Visible(n.file) == Visible(w.file)
       <==> stage != SyncParent || Visible(w.file) == Some(Synced(Propose(h, w.view, op).next))
  {
    hide Valid, Propose;
    FailedSaveUntouched(w.file, Propose(h, w.view, op).next, stage);
  }

  // ---------------------------------------------------------------------
  // Tombstones
  // ---------------------------------------------------------------------

  /** Automatic discovery adds at most one record and alters none. */
  lemma DiscoveryAlters(h: Digest, rs: seq<Record>, op: Op)
    requires op.EnsureDefault? && Propose(h, rs, op).Candidate?
    ensures var o := Propose(h, rs, op);
      o.answer.Some? && multiset(o.next) == multiset(rs) + multiset{o.answer.value}
  {
    hide SortById, Newcomer, PlaceOf, Normalized;
    var o := Propose(h, rs, op);
    assert multiset(rs + [o.answer.value]) == multiset(rs) + multiset{o.answer.value};
  }

  /** The record is there, and in everything that a crash can leave. */
  ghost predicate Stands(w: World, r: Record)
  {
    && r in w.view && w.file.main != []
    && forall i | 0 <= i < |w.file.main| :: Loaded(w.file.main[i]).Some? && r in Loaded(w.file.main[i]).value
  }

  /** Whether an operation leaves the record alone: it neither names its identity nor enrols its place.
      Discovery always does. */
  predicate Spares(op: Op, r: Record)
  {
    match op
    case Enroll(kind, canonical, _) => canonical.Some? ==> !SamePlace(r, kind, canonical.value)
    case EnsureDefault(_, _, _) => true
    case Update(record) => record.id != r.id
    case Remove(id) => id != r.id
  }

  lemma SparedStays(h: Digest, rs: seq<Record>, op: Op, r: Record)
    requires r in rs && Spares(op, r) && Propose(h, rs, op).Candidate?
    ensures r in Propose(h, rs, op).next
  {
    hide Components, Sanitized, Valid, Newcomer, Normalized, SortById;
    var next := Propose(h, rs, op).next;
    var k :| 0 <= k < |rs| && rs[k] == r;
    match op
    case Enroll(kind, canonical, text) => UpsertKeeps(h, rs, kind, canonical.value, text, k);
    case EnsureDefault(kind, root, name) => UpsertKeeps(h, rs, kind, root, Some(name), k);
    case Update(record) => assert next[k] == r;
    case Remove(id) =>
      var i := IdOf(rs, id).value;
      assert next[if k < i then k else k - 1] == r;
  }

  lemma UpsertKeeps(h: Digest, rs: seq<Record>, kind: Kind, root: bytes, text: Option<string>, k: nat)
    requires k < |rs| && ProposeUpsert(h, rs, kind, root, text).Candidate?
    requires !SamePlace(rs[k], kind, root) || PlaceOf(rs, kind, root).None?
    ensures rs[k] in ProposeUpsert(h, rs, kind, root, text).next
  {
    hide Components, Sanitized, Newcomer, SortById;
    var next := ProposeUpsert(h, rs, kind, root, text).next;
    match PlaceOf(rs, kind, root)
    case Some(i) => assert next[k] == rs[k];
    case None =>
      var all := rs + [Newcomer(h, kind, root, text)];
      assert all[k] == rs[k] && rs[k] in multiset(all) && multiset(next) == multiset(all);
  }

  predicate SparedBy(e: Event, r: Record) { e.Operate? ==> Spares(e.op, r) }

  predicate SparedThroughout(events: seq<Event>, r: Record) { forall k | 0 <= k < |events| :: SparedBy(events[k], r) }

  lemma SparedAt(events: seq<Event>, r: Record, i: nat)
    requires SparedThroughout(events, r) && i < |events|
    ensures SparedBy(events[i], r)
  {
  }

  lemma SparedStep(h: Digest, w: World, n: World, e: Event, r: Record)
    requires Happens(h, w, n, e) && SparedBy(e, r) && Stands(w, r)
    ensures Stands(n, r)
  {
    hide Propose, Valid, Spares;
    match e
    case Operate(op, fault, _) => if Propose(h, w.view, op).Candidate? { SparedStays(h, w.view, op, r); }
    case Restart(pick) =>
    case Reopen =>
  }

  /** A tombstone, or any record, outlives every operation that does not name it or enrol its place,
      automatic discovery of that very place included, with failing commits, crashes and restarts. */
  lemma {:induction false} TombstoneOutlives(h: Digest, worlds: seq<World>, events: seq<Event>, r: Record, i: nat)
    requires Run(h, worlds, events) && SparedThroughout(events, r)
    requires Stands(worlds[0], r) && i < |worlds|
    ensures Stands(worlds[i], r)
  {
    hide Happens, Stands, SparedBy, SparedThroughout, Run;
    if i > 0 {
      RunStep(h, worlds, events, i - 1);
      SparedAt(events, r, i - 1);
      TombstoneOutlives(h, worlds, events, r, i - 1);
      SparedStep(h, worlds[i - 1], worlds[i], events[i - 1], r);
    }
  }

  /** Re-enrolment of a known place keeps its identity, alias and every other record; a record whose
      source is enabled is returned as it is. */
  lemma ReenrolmentKeeps(h: Digest, rs: seq<Record>, op: Op, i: nat)
    requires Valid(h, rs) && op.Enroll? && op.canonical.Some? && Normalized(op.canonical.value)
    requires i < |rs| && SamePlace(rs[i], op.kind, op.canonical.value)
    ensures var o := Propose(h, rs, op);
      if rs[i].enabled then o == Keep(rs[i])
      else
        && o.Candidate? && |o.next| == |rs| && (forall j | 0 <= j < |rs| && j != i :: o.next[j] == rs[j])
        && o.next[i].enabled && o.next[i].id == rs[i].id && o.next[i].accountAlias == rs[i].accountAlias
        && o.next[i].root == rs[i].root && o.answer == Some(o.next[i])
  {
    hide Components, Sanitized, Proper;
    var k := PlaceOf(rs, op.kind, op.canonical.value).value;
    OnlyItself(rs, k, i);
  }

  lemma OnlyItself(rs: seq<Record>, i: nat, j: nat)
    requires NoClash(rs) && i < |rs| && j < |rs| && Clash(rs[i], rs[j])
    ensures i == j
  {
  }

  /** The account alias finds at most one record. */
  lemma AliasUnique(h: Digest, w: World, r: Record, s: Record)
    requires Safe(h, w) && r in w.view && s in w.view && r.accountAlias.Some? && r.accountAlias == s.accountAlias
    ensures r == s
  {
    hide Components, Proper;
    var i :| 0 <= i < |w.view| && w.view[i] == r;
    var j :| 0 <= j < |w.view| && w.view[j] == s;
    OnlyItself(w.view, i, j);
  }
}
