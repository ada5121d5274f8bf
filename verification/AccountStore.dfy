/** The account descriptors: exactly one active account per provider, whatever the
    operations and however their saves fail. */
module AccountStore {
  import opened Bytes
  import opened SnapshotFile

  datatype AuthMethod = ApiKey | OAuth

  datatype Status = Ok | Limited(untilMs: u64) | Expired | Revoked | NeedsAttention(reason: nat)

  datatype Descriptor = Descriptor(
    alias: bytes, provider: bytes, baseUrl: Option<bytes>, authMethod: AuthMethod, identity: bytes,
    status: Status, active: bool, displayLabel: Option<bytes>, accountIdentity: Option<bytes>, createdAt: Option<u64>)

  datatype Error = InvalidArgument | CredentialMissing | StoreCorrupt | Internal

  datatype Reply = Done(descriptor: Option<Descriptor>) | Unneeded | Error(error: Error)

  /** The mutations; `now` is the clock that `Add` may read. */
  datatype Op =
    | Add(descriptor: Descriptor, now: Option<u64>)
    | Replace(descriptor: Descriptor)
    | Select(alias: bytes)
    | Remove(alias: bytes)
    | SetStatus(alias: bytes, status: Status)
    | SetLabel(alias: bytes, displayLabel: Option<bytes>)
    | SetIdentity(alias: bytes, accountIdentity: Option<bytes>)
    | BackfillIdentity(alias: bytes, found: bytes)

  // ---------------------------------------------------------------------
  // The invariant
  // ---------------------------------------------------------------------

  predicate Named(d: Descriptor) { d.alias != [] && d.provider != [] }

  predicate Distinct(ds: seq<Descriptor>) { forall i, j | 0 <= i < j < |ds| :: ds[i].alias != ds[j].alias }

  predicate ActiveAt(ds: seq<Descriptor>, i: int, provider: bytes)
  {
    0 <= i < |ds| && ds[i].active && ds[i].provider == provider
  }

  /** Exactly one descriptor of the provider is active. */
  ghost predicate OneActive(ds: seq<Descriptor>, provider: bytes)
  {
    && (exists i :: ActiveAt(ds, i, provider))
    && (forall i, j | ActiveAt(ds, i, provider) && ActiveAt(ds, j, provider) :: i == j)
  }

  ghost predicate Valid(ds: seq<Descriptor>)
  {
    && (forall i | 0 <= i < |ds| :: Named(ds[i]))
    && Distinct(ds)
    && (forall i | 0 <= i < |ds| :: OneActive(ds, ds[i].provider))
  }

  // ---------------------------------------------------------------------
  // Validation by counting
  // ---------------------------------------------------------------------

  /** How many descriptors of the provider are active. */
  function ActiveCount(ds: seq<Descriptor>, provider: bytes): (n: nat)
  {
    if ds == [] then 0
    else ActiveCount(ds[..|ds| - 1], provider) + (if ActiveAt(ds, |ds| - 1, provider) then 1 else 0)
  }

  lemma {:induction false} CountNone(ds: seq<Descriptor>, provider: bytes)
    ensures ActiveCount(ds, provider) == 0 <==> forall i :: !ActiveAt(ds, i, provider)
  {
    if ds != [] {
      var front := ds[..|ds| - 1];
      CountNone(front, provider);
      assert forall i | 0 <= i < |front| :: ActiveAt(front, i, provider) == ActiveAt(ds, i, provider);
      if forall i :: !ActiveAt(front, i, provider) {
        forall i ensures ActiveAt(ds, i, provider) ==> i == |ds| - 1 {
          assert !ActiveAt(front, i, provider);
        }
      } else {
        var i :| ActiveAt(front, i, provider);
        assert ActiveAt(ds, i, provider);
      }
    }
  }

  /** Counting to one is having exactly one. */
  lemma {:induction false} CountOne(ds: seq<Descriptor>, provider: bytes)
    ensures ActiveCount(ds, provider) == 1 <==> OneActive(ds, provider)
  {
    if ds != [] {
      var front, last := ds[..|ds| - 1], |ds| - 1;
      CountOne(front, provider);
      CountNone(front, provider);
      assert forall i | 0 <= i < last :: ActiveAt(front, i, provider) == ActiveAt(ds, i, provider);
      if ActiveAt(ds, last, provider) {
        if OneActive(ds, provider) {
          forall i ensures !ActiveAt(front, i, provider) {
            assert ActiveAt(front, i, provider) ==> ActiveAt(ds, i, provider);
          }
        } else {
          var i :| ActiveAt(ds, i, provider) && i != last;
          assert ActiveAt(front, i, provider);
        }
      } else {
        assert forall i :: ActiveAt(front, i, provider) <==> ActiveAt(ds, i, provider);
      }
    }
  }

  predicate HasAlias(ds: seq<Descriptor>, a: bytes) { exists i :: 0 <= i < |ds| && ds[i].alias == a }

  predicate HasProvider(ds: seq<Descriptor>, p: bytes) { exists i :: 0 <= i < |ds| && ds[i].provider == p }

  lemma HasMore(ds: seq<Descriptor>, d: Descriptor, x: bytes)
    ensures HasAlias(ds + [d], x) <==> HasAlias(ds, x) || d.alias == x
    ensures HasProvider(ds + [d], x) <==> HasProvider(ds, x) || d.provider == x
  {
    var more := ds + [d];
    assert more[|ds|] == d;
    if i :| 0 <= i < |ds| && ds[i].alias == x { assert more[i].alias == x; }
    if i :| 0 <= i < |ds| && ds[i].provider == x { assert more[i].provider == x; }
  }

  /** The first loop's tables after `ds`. */
  ghost predicate Tallied(ds: seq<Descriptor>, aliases: set<bytes>, counts: map<bytes, nat>)
  {
    && (forall i | 0 <= i < |ds| :: Named(ds[i])) && Distinct(ds)
    && (forall a :: a in aliases <==> HasAlias(ds, a))
    && (forall p :: p in counts <==> HasProvider(ds, p))
    && (forall p :: ActiveCount(ds, p) == if p in counts then counts[p] else 0)
  }

  lemma TallyOne(ds: seq<Descriptor>, d: Descriptor, aliases: set<bytes>, counts: map<bytes, nat>)
    requires Tallied(ds, aliases, counts) && Named(d) && d.alias !in aliases
    ensures var before := if d.provider in counts then counts[d.provider] else 0;
      Tallied(ds + [d], aliases + {d.alias}, counts[d.provider := before + if d.active then 1 else 0])
  {
    hide ActiveCount, ActiveAt, HasAlias, HasProvider, Distinct;
    assert Distinct(ds + [d]) by { DistinctAppend(ds, d); }
    forall x
      ensures HasAlias(ds + [d], x) <==> HasAlias(ds, x) || d.alias == x
      ensures HasProvider(ds + [d], x) <==> HasProvider(ds, x) || d.provider == x
      ensures ActiveCount(ds + [d], x) == ActiveCount(ds, x) + (if d.active && d.provider == x then 1 else 0)
    {
      HasMore(ds, d, x);
      CountAppend(ds, d, x);
    }
  }

  lemma DistinctAppend(ds: seq<Descriptor>, d: Descriptor)
    requires Distinct(ds) && !HasAlias(ds, d.alias)
    ensures Distinct(ds + [d])
  {
  }

  lemma CountAppend(ds: seq<Descriptor>, d: Descriptor, p: bytes)
    ensures ActiveCount(ds + [d], p) == ActiveCount(ds, p) + (if d.active && d.provider == p then 1 else 0)
  {
    assert (ds + [d])[..|ds|] == ds;
  }

  /** `validate_snapshot`: accepts exactly the snapshots with distinct, named descriptors and one
      active account per provider. */
  method ValidateSnapshot(ds: seq<Descriptor>) returns (ok: bool)
    ensures ok <==> Valid(ds)
  {
    hide ActiveCount, OneActive, Tallied;
    var aliases: set<bytes>, counts: map<bytes, nat> := {}, map[];
    assert Tallied([], {}, map[]) by { NothingTallied(); }
    assert ds[..0] == [];
    for i := 0 to |ds|
      invariant Tallied(ds[..i], aliases, counts)
    {
      var d := ds[i];
      if !Named(d) { return false; }
      if d.alias in aliases {
        SeenTwice(ds, i, aliases, counts);
        return false;
      }
      TallyOne(ds[..i], d, aliases, counts);
      assert ds[..i] + [d] == ds[..i + 1];
      aliases := aliases + {d.alias};
      var before := if d.provider in counts then counts[d.provider] else 0;
      counts := counts[d.provider := before + if d.active then 1 else 0];
    }
    assert ds[..|ds|] == ds;
    var left := counts.Keys;
    while left != {}
      invariant left <= counts.Keys
      invariant forall p | p in counts && p !in left :: counts[p] == 1
    {
      var p :| p in left;
      if counts[p] != 1 {
        BadCount(ds, aliases, counts, p);
        return false;
      }
      left := left - {p};
    }
    GoodCounts(ds, aliases, counts);
    return true;
  }

  lemma NothingTallied()
    ensures Tallied([], {}, map[])
  {
  }

  lemma SeenTwice(ds: seq<Descriptor>, i: nat, aliases: set<bytes>, counts: map<bytes, nat>)
    requires i < |ds| && Tallied(ds[..i], aliases, counts) && ds[i].alias in aliases
    ensures !Distinct(ds)
  {
    hide ActiveCount;
    var j :| 0 <= j < |ds[..i]| && ds[..i][j].alias == ds[i].alias;
    assert ds[j].alias == ds[i].alias;
  }

  lemma BadCount(ds: seq<Descriptor>, aliases: set<bytes>, counts: map<bytes, nat>, p: bytes)
    requires Tallied(ds, aliases, counts) && p in counts && counts[p] != 1
    ensures !Valid(ds)
  {
    hide ActiveCount, OneActive;
    CountOne(ds, p);
    var i :| 0 <= i < |ds| && ds[i].provider == p;
  }

  lemma GoodCounts(ds: seq<Descriptor>, aliases: set<bytes>, counts: map<bytes, nat>)
    requires Tallied(ds, aliases, counts) && forall p | p in counts :: counts[p] == 1
    ensures Valid(ds)
  {
    hide ActiveCount, OneActive;
    forall i | 0 <= i < |ds| ensures OneActive(ds, ds[i].provider) {
      CountOne(ds, ds[i].provider);
      assert ds[i].provider in counts;
    }
  }

  // ---------------------------------------------------------------------
  // What each operation proposes
  // ---------------------------------------------------------------------

  function WithAlias(alias: bytes): (p: Descriptor -> bool) { (d: Descriptor) => d.alias == alias }

  function OfProvider(provider: bytes): (p: Descriptor -> bool) { (d: Descriptor) => d.provider == provider }

  function Position(ds: seq<Descriptor>, alias: bytes): (r: Option<nat>)
    ensures r.Some? ==> r.value < |ds| && ds[r.value].alias == alias
    ensures r.None? <==> !HasAlias(ds, alias)
  {
    FirstFrom(ds, WithAlias(alias), 0)
  }

  /** The first descriptor of the provider. */
  function Successor(ds: seq<Descriptor>, provider: bytes): (r: Option<nat>)
    ensures r.Some? ==> r.value < |ds| && ds[r.value].provider == provider
    ensures r.Some? ==> forall j | 0 <= j < r.value :: ds[j].provider != provider
    ensures r.None? <==> !HasProvider(ds, provider)
  {
    FirstFrom(ds, OfProvider(provider), 0)
  }

  function Deselect(d: Descriptor, provider: bytes): (e: Descriptor)
  {
    if d.provider == provider then d.(active := false) else d
  }

  function Deselected(ds: seq<Descriptor>, provider: bytes): (r: seq<Descriptor>)
  {
    seq(|ds|, i requires 0 <= i < |ds| => Deselect(ds[i], provider))
  }

  function Choose(d: Descriptor, provider: bytes, alias: bytes): (e: Descriptor)
  {
    if d.provider == provider then d.(active := d.alias == alias) else d
  }

  function Chosen(ds: seq<Descriptor>, provider: bytes, alias: bytes): (r: seq<Descriptor>)
  {
    seq(|ds|, i requires 0 <= i < |ds| => Choose(ds[i], provider, alias))
  }

  function Without(ds: seq<Descriptor>, i: nat): (r: seq<Descriptor>)
    requires i < |ds|
  {
    ds[..i] + ds[i + 1..]
  }

  /** The descriptor as `Add` stores it: active if it is the provider's first, stamped if unstamped. */
  function Admitted(ds: seq<Descriptor>, d: Descriptor, now: Option<u64>): (e: Descriptor)
  {
    d.(active := d.active || !HasProvider(ds, d.provider), createdAt := if d.createdAt.Some? then d.createdAt else now)
  }

  /** The descriptor as `Replace` stores it: slot and creation time are kept, and the display label
      unless a new one comes. */
  function Merged(previous: Descriptor, d: Descriptor): (e: Descriptor)
  {
    d.(active := previous.active,
       displayLabel := if d.displayLabel.None? then previous.displayLabel else d.displayLabel,
       createdAt := previous.createdAt)
  }

  datatype Outcome = Refuse(error: Error) | Keep | Candidate(next: seq<Descriptor>, answer: Option<Descriptor>)

  function Patched(ds: seq<Descriptor>, i: nat, d: Descriptor, answers: bool): (o: Outcome)
    requires i < |ds|
  {
    Candidate(ds[i := d], if answers then Some(d) else None)
  }

  function ProposeAdd(ds: seq<Descriptor>, d: Descriptor, now: Option<u64>): (o: Outcome)
  {
    if !Named(d) || HasAlias(ds, d.alias) then Refuse(InvalidArgument)
    else if d.createdAt.None? && now.None? then Refuse(Internal)
    else
      Candidate(Extended(ds, Admitted(ds, d, now)), None)
  }

  function ProposeReplace(ds: seq<Descriptor>, d: Descriptor): (o: Outcome)
  {
    if !Named(d) then Refuse(InvalidArgument) else
    match Position(ds, d.alias)
    case None => Refuse(CredentialMissing)
    case Some(i) =>
      if ds[i].provider != d.provider || ds[i].authMethod != d.authMethod || ds[i].baseUrl != d.baseUrl
      then Refuse(InvalidArgument)
      else Patched(ds, i, Merged(ds[i], d), false)
  }

  function RemovedAt(ds: seq<Descriptor>, i: nat): (r: seq<Descriptor>)
    requires i < |ds|
  {
    var left := Without(ds, i);
    match Successor(left, ds[i].provider)
    case Some(j) => if ds[i].active then left[j := left[j].(active := true)] else left
    case None => left
  }

  function Propose(ds: seq<Descriptor>, op: Op): (o: Outcome)
  {
    match op
    case Add(d, now) => ProposeAdd(ds, d, now)
    case Replace(d) => ProposeReplace(ds, d)
    case Select(a) =>
      (match Position(ds, a)
       case None => Refuse(CredentialMissing)
       case Some(i) => Candidate(Chosen(ds, ds[i].provider, a), None))
    case Remove(a) =>
      (match Position(ds, a)
       case None => Refuse(CredentialMissing)
       case Some(i) => Candidate(RemovedAt(ds, i), Some(ds[i])))
    case SetStatus(a, status) =>
      (match Position(ds, a)
       case None => Refuse(CredentialMissing)
       case Some(i) => Patched(ds, i, ds[i].(status := status), false))
    case SetLabel(a, text) =>
      (match Position(ds, a)
       case None => Refuse(CredentialMissing)
       case Some(i) => Patched(ds, i, ds[i].(displayLabel := text), true))
    case SetIdentity(a, identity) =>
      (match Position(ds, a)
       case None => Refuse(CredentialMissing)
       case Some(i) => Patched(ds, i, ds[i].(accountIdentity := identity), true))
    case BackfillIdentity(a, found) =>
      (match Position(ds, a)
       case None => Refuse(CredentialMissing)
       case Some(i) =>
         if ds[i].accountIdentity.Some? then Keep
         else Patched(ds, i, ds[i].(accountIdentity := Some(found)), false))
  }

  // ---------------------------------------------------------------------
  // Every proposal is valid
  // ---------------------------------------------------------------------

  lemma PatchKeeps(ds: seq<Descriptor>, i: nat, d: Descriptor)
    requires Valid(ds) && i < |ds| && d.alias == ds[i].alias && d.provider == ds[i].provider && d.active == ds[i].active
    ensures Valid(ds[i := d])
  {
    var next := ds[i := d];
    assert forall j, p :: ActiveAt(next, j, p) <==> ActiveAt(ds, j, p);
    forall j | 0 <= j < |next| ensures OneActive(next, next[j].provider) {
      assert OneActive(ds, ds[j].provider);
      var k :| ActiveAt(ds, k, ds[j].provider);
      assert ActiveAt(next, k, next[j].provider);
    }
  }

  lemma SelectKeeps(ds: seq<Descriptor>, i: nat)
    requires Valid(ds) && i < |ds|
    ensures Valid(Chosen(ds, ds[i].provider, ds[i].alias))
  {
    var p, next := ds[i].provider, Chosen(ds, ds[i].provider, ds[i].alias);
    assert ActiveAt(next, i, p);
    forall j ensures ActiveAt(next, j, p) <==> j == i {
    }
    forall j | 0 <= j < |next| ensures OneActive(next, next[j].provider) {
      var q := ds[j].provider;
      if q != p {
        assert forall k :: ActiveAt(next, k, q) <==> ActiveAt(ds, k, q);
        assert OneActive(ds, q);
        var k :| ActiveAt(ds, k, q);
        assert ActiveAt(next, k, q);
      }
    }
  }

  function Extended(ds: seq<Descriptor>, e: Descriptor): (next: seq<Descriptor>)
  {
    (if e.active then Deselected(ds, e.provider) else ds) + [e]
  }

  lemma AddKeeps(ds: seq<Descriptor>, e: Descriptor)
    requires Valid(ds) && Named(e) && !HasAlias(ds, e.alias) && (!HasProvider(ds, e.provider) ==> e.active)
    ensures Valid(Extended(ds, e))
  {
    hide HasAlias, OneActive;
    var next, last := Extended(ds, e), |ds|;
    assert next[last] == e;
    assert forall j | 0 <= j < last :: next[j].alias == ds[j].alias && next[j].provider == ds[j].provider;
    assert Distinct(next) by { FreshAlias(ds, e.alias); }
    forall j | 0 <= j < |next| ensures OneActive(next, next[j].provider) {
      var q := next[j].provider;
      if q == e.provider && e.active {
        NewcomerActive(ds, e);
      } else {
        assert HasProvider(ds, q);
        var m :| 0 <= m < |ds| && ds[m].provider == q;
        assert OneActive(ds, ds[m].provider);
        IncumbentActive(ds, e, q);
      }
    }
  }

  lemma NewcomerActive(ds: seq<Descriptor>, e: Descriptor)
    requires e.active
    ensures OneActive(Extended(ds, e), e.provider)
  {
    var next := Extended(ds, e);
    assert ActiveAt(next, |ds|, e.provider);
    forall k ensures ActiveAt(next, k, e.provider) ==> k == |ds| {
    }
  }

  lemma IncumbentActive(ds: seq<Descriptor>, e: Descriptor, q: bytes)
    requires OneActive(ds, q) && (q != e.provider || !e.active)
    ensures OneActive(Extended(ds, e), q)
  {
    var next := Extended(ds, e);
    forall k ensures ActiveAt(next, k, q) <==> ActiveAt(ds, k, q) {
    }
    var k :| ActiveAt(ds, k, q);
    assert ActiveAt(next, k, q);
  }

  lemma FreshAlias(ds: seq<Descriptor>, a: bytes)
    requires !HasAlias(ds, a)
    ensures forall j | 0 <= j < |ds| :: ds[j].alias != a
  {
  }

  lemma RemoveKeeps(ds: seq<Descriptor>, i: nat)
    requires Valid(ds) && i < |ds|
    ensures Valid(RemovedAt(ds, i))
  {
    hide OneActive;
    var p, left, next := ds[i].provider, Without(ds, i), RemovedAt(ds, i);
    assert forall j | 0 <= j < |left| :: left[j] == ds[if j < i then j else j + 1];
    assert forall j | 0 <= j < |left| :: next[j].provider == left[j].provider && next[j].alias == left[j].alias;
    forall j | 0 <= j < |next| ensures OneActive(next, next[j].provider) {
      var q := next[j].provider;
      assert q == ds[if j < i then j else j + 1].provider;
      assert OneActive(ds, q);
      if q == p && ds[i].active {
        SuccessorActive(ds, i);
      } else {
        OthersActive(ds, i, q);
      }
    }
  }

  /** The removed account was the active one, and its successor is. */
  lemma SuccessorActive(ds: seq<Descriptor>, i: nat)
    requires i < |ds| && ds[i].active && OneActive(ds, ds[i].provider)
    requires Successor(Without(ds, i), ds[i].provider).Some?
    ensures OneActive(RemovedAt(ds, i), ds[i].provider)
  {
    var p, left, next := ds[i].provider, Without(ds, i), RemovedAt(ds, i);
    var s := Successor(left, p).value;
    assert ActiveAt(ds, i, p) && ActiveAt(next, s, p);
    forall k ensures ActiveAt(next, k, p) <==> k == s {
      if 0 <= k < |left| && k != s {
        assert next[k] == left[k] == ds[if k < i then k else k + 1];
        assert ActiveAt(next, k, p) ==> ActiveAt(ds, if k < i then k else k + 1, p);
      }
    }
  }

  /** The active account of a provider is not the removed one. */
  lemma OthersActive(ds: seq<Descriptor>, i: nat, q: bytes)
    requires i < |ds| && OneActive(ds, q) && (q != ds[i].provider || !ds[i].active)
    ensures OneActive(RemovedAt(ds, i), q)
  {
    var left, next := Without(ds, i), RemovedAt(ds, i);
    assert forall k | 0 <= k < |left| :: left[k] == ds[if k < i then k else k + 1];
    forall k ensures ActiveAt(next, k, q) <==> 0 <= k < |left| && ActiveAt(ds, if k < i then k else k + 1, q) {
    }
    var m :| ActiveAt(ds, m, q);
    assert m != i;
    assert ActiveAt(next, if m < i then m else m - 1, q);
    forall k, l | ActiveAt(next, k, q) && ActiveAt(next, l, q) ensures k == l {
      assert ActiveAt(ds, if k < i then k else k + 1, q) && ActiveAt(ds, if l < i then l else l + 1, q);
    }
  }

  /** Whatever is proposed for a valid view is valid: revalidation never rejects it. */
  lemma ProposalValid(ds: seq<Descriptor>, op: Op)
    requires Valid(ds) && Propose(ds, op).Candidate?
    ensures Valid(Propose(ds, op).next)
  {
    hide Valid, Position, RemovedAt, Chosen, Extended, HasAlias, HasProvider;
    match op
    case Add(d, now) => AddKeeps(ds, Admitted(ds, d, now));
    case Replace(d) =>
      var i := Position(ds, d.alias).value;
      PatchKeeps(ds, i, Merged(ds[i], d));
    case Select(a) => SelectKeeps(ds, Position(ds, a).value);
    case Remove(a) => RemoveKeeps(ds, Position(ds, a).value);
    case SetStatus(a, status) =>
      var i := Position(ds, a).value;
      PatchKeeps(ds, i, ds[i].(status := status));
    case SetLabel(a, text) =>
      var i := Position(ds, a).value;
      PatchKeeps(ds, i, ds[i].(displayLabel := text));
    case SetIdentity(a, identity) =>
      var i := Position(ds, a).value;
      PatchKeeps(ds, i, ds[i].(accountIdentity := identity));
    case BackfillIdentity(a, found) =>
      var i := Position(ds, a).value;
      PatchKeeps(ds, i, ds[i].(accountIdentity := Some(found)));
  }

  // ---------------------------------------------------------------------
  // The store
  // ---------------------------------------------------------------------

  /** The in-memory view and its file. */
  datatype World = World(view: seq<Descriptor>, file: Files<Descriptor>)

  /** What a store needs: the view it loaded is valid. */
  ghost predicate Ready(w: World) { Valid(w.view) && w.file.main != [] }

  /** The view is valid, and so is everything that a crash can leave. */
  ghost predicate Safe(w: World)
  {
    && Valid(w.view) && Whole(w.file)
    && forall i | 0 <= i < |w.file.main| :: Loaded(w.file.main[i]).Some? && Valid(Loaded(w.file.main[i]).value)
  }

  /** The view is what the file durably holds. */
  predicate Durable(w: World)
    requires w.file.main != []
  {
    Loaded(w.file.main[0]) == Some(w.view)
  }

  /** One call, with its save failing at `fault`. */
  ghost predicate Follows(w: World, n: World, op: Op, fault: Option<Stage>, r: Reply)
  {
    match Propose(w.view, op)
    case Refuse(e) => n == w && r == Error(e)
    case Keep => n == w && r == Unneeded
    case Candidate(next, answer) =>
      && n.file.main == Saved(w.file.main, next, fault)
      && (if fault.None? then n.view == next && r == Done(answer) else n.view == w.view && r == Error(Internal))
  }

  /** A process loads what it sees. */
  ghost predicate Opens(file: Files<Descriptor>, w: World)
    requires file.main != []
  {
    w.file == file && Loaded(Visible(file)) == Some(w.view)
  }

  class AccountStore {
    var descriptors: seq<Descriptor>
    var file: Files<Descriptor>

    ghost function State(): (w: World) reads this { World(descriptors, file) }

    /** Opens whatever the file holds; anything but a valid snapshot is refused. */
    static method Load(file: Files<Descriptor>) returns (store: AccountStore?, error: Option<Error>)
      requires file.main != []
      ensures error.None? <==> store != null
      ensures store != null <==> Loaded(Visible(file)).Some? && Valid(Loaded(Visible(file)).value)
      ensures store != null ==> fresh(store) && Ready(store.State()) && Opens(file, store.State())
    {
      hide Valid;
      match Loaded(Visible(file))
      case None => return null, Some(StoreCorrupt);
      case Some(ds) =>
        var ok := ValidateSnapshot(ds);
        if !ok { return null, Some(StoreCorrupt); }
        store := new AccountStore(ds, file);
        return store, None;
    }

    constructor (descriptors: seq<Descriptor>, file: Files<Descriptor>)
      ensures this.descriptors == descriptors && this.file == file
    {
      this.descriptors, this.file := descriptors, file;
    }

    /** Saves a candidate; the view changes only after the save succeeded. */
    method Persist(next: seq<Descriptor>, fault: Option<Stage>) returns (ok: bool)
      requires file.main != []
      modifies this
      ensures ok <==> fault.None?
      ensures descriptors == if ok then next else old(descriptors)
      ensures file.main == Saved(old(file.main), next, fault)
    {
      file, ok := Save(file, next, fault);
      if ok { descriptors := next; }
    }

    method Commit(next: seq<Descriptor>, fault: Option<Stage>) returns (error: Option<Error>)
      requires file.main != []
      modifies this
      ensures !Valid(next) ==> error == Some(StoreCorrupt) && State() == old(State())
      ensures Valid(next) ==>
        && error == (if fault.None? then None else Some(Internal))
        && descriptors == (if fault.None? then next else old(descriptors))
        && file.main == Saved(old(file.main), next, fault)
    {
      hide Valid;
      var valid := ValidateSnapshot(next);
      if !valid { return Some(StoreCorrupt); }
      var ok := Persist(next, fault);
      return if ok then None else Some(Internal);
    }

    method Find(alias: bytes) returns (r: Option<nat>)
      ensures r == Position(descriptors, alias)
    {
      r := FindFirst(descriptors, WithAlias(alias));
    }

    method Insert(descriptor: Descriptor, now: Option<u64>, fault: Option<Stage>) returns (r: Reply)
      requires Ready(State())
      modifies this
      ensures Ready(State()) && Follows(old(State()), State(), Add(descriptor, now), fault, r)
    {
      hide Valid, Named, HasAlias, HasProvider, Admitted, Position, Extended;
      if !Named(descriptor) { return Error(InvalidArgument); }
      var existing := Find(descriptor.alias);
      if existing.Some? { return Error(InvalidArgument); }
      var first := FindFirst(descriptors, OfProvider(descriptor.provider));
      var provided := first.Some?;
      assert provided <==> HasProvider(descriptors, descriptor.provider) by { SuccessorIs(descriptors, descriptor.provider); }
      if descriptor.createdAt.None? && now.None? { return Error(Internal); }
      var d := descriptor;
      if !provided { d := d.(active := true); }
      if d.createdAt.None? { d := d.(createdAt := now); }
      assert d == Admitted(descriptors, descriptor, now) by { AdmittedIs(descriptors, descriptor, now, d); }
      var next := descriptors;
      if d.active {
        next := DeselectAll(next, d.provider);
      }
      next := next + [d];
      assert next == Extended(descriptors, d) by { ExtendedIs(descriptors, d); }
      ProposalValid(descriptors, Add(descriptor, now));
      var error := Commit(next, fault);
      return if error.Some? then Error(error.value) else Done(None);
    }

    method Activate(alias: bytes, fault: Option<Stage>) returns (r: Reply)
      requires Ready(State())
      modifies this
      ensures Ready(State()) && Follows(old(State()), State(), Select(alias), fault, r)
    {
      hide Valid, Position, Chosen;
      var i := Find(alias);
      if i.None? { return Error(CredentialMissing); }
      var next := ChooseAll(descriptors, descriptors[i.value].provider, alias);
      ProposalValid(descriptors, Select(alias));
      var error := Commit(next, fault);
      return if error.Some? then Error(error.value) else Done(None);
    }

    method Delete(alias: bytes, fault: Option<Stage>) returns (r: Reply)
      requires Ready(State())
      modifies this
      ensures Ready(State()) && Follows(old(State()), State(), Remove(alias), fault, r)
    {
      hide Valid, Position;
      var i := Find(alias);
      if i.None? { return Error(CredentialMissing); }
      var removed, next := descriptors[i.value], Without(descriptors, i.value);
      if removed.active {
        var successor := FindFirst(next, OfProvider(removed.provider));
        if successor.Some? {
          next := next[successor.value := next[successor.value].(active := true)];
        }
      }
      assert next == RemovedAt(descriptors, i.value);
      ProposalValid(descriptors, Remove(alias));
      var error := Commit(next, fault);
      return if error.Some? then Error(error.value) else Done(Some(removed));
    }

    method Update(descriptor: Descriptor, fault: Option<Stage>) returns (r: Reply)
      requires Ready(State())
      modifies this
      ensures Ready(State()) && Follows(old(State()), State(), Replace(descriptor), fault, r)
    {
      hide Valid, Position, Named;
      if !Named(descriptor) { return Error(InvalidArgument); }
      var i := Find(descriptor.alias);
      if i.None? { return Error(CredentialMissing); }
      var previous := descriptors[i.value];
      if previous.provider != descriptor.provider { return Error(InvalidArgument); }
      if previous.authMethod != descriptor.authMethod || previous.baseUrl != descriptor.baseUrl {
        return Error(InvalidArgument);
      }
      var d := descriptor.(active := previous.active);
      if d.displayLabel.None? { d := d.(displayLabel := previous.displayLabel); }
      d := d.(createdAt := previous.createdAt);
      ProposalValid(descriptors, Replace(descriptor));
      var error := Commit(descriptors[i.value := d], fault);
      return if error.Some? then Error(error.value) else Done(None);
    }

    method UpdateStatus(alias: bytes, status: Status, fault: Option<Stage>) returns (r: Reply)
      requires Ready(State())
      modifies this
      ensures Ready(State()) && Follows(old(State()), State(), SetStatus(alias, status), fault, r)
    {
      hide Valid, Position;
      var i := Find(alias);
      if i.None? { return Error(CredentialMissing); }
      ProposalValid(descriptors, SetStatus(alias, status));
      var error := Commit(descriptors[i.value := descriptors[i.value].(status := status)], fault);
      return if error.Some? then Error(error.value) else Done(None);
    }

    /** Unlike the mutations above, this one and the next two save without revalidating. */
    method UpdateLabel(alias: bytes, text: Option<bytes>, fault: Option<Stage>) returns (r: Reply)
      requires Ready(State())
      modifies this
      ensures Ready(State()) && Follows(old(State()), State(), SetLabel(alias, text), fault, r)
    {
      hide Valid, Position;
      var i := Find(alias);
      if i.None? { return Error(CredentialMissing); }
      var updated := descriptors[i.value].(displayLabel := text);
      ProposalValid(descriptors, SetLabel(alias, text));
      var ok := Persist(descriptors[i.value := updated], fault);
      return if ok then Done(Some(updated)) else Error(Internal);
    }

    method UpdateIdentity(alias: bytes, identity: Option<bytes>, fault: Option<Stage>) returns (r: Reply)
      requires Ready(State())
      modifies this
      ensures Ready(State()) && Follows(old(State()), State(), SetIdentity(alias, identity), fault, r)
    {
      hide Valid, Position;
      var i := Find(alias);
      if i.None? { return Error(CredentialMissing); }
      var updated := descriptors[i.value].(accountIdentity := identity);
      ProposalValid(descriptors, SetIdentity(alias, identity));
      var ok := Persist(descriptors[i.value := updated], fault);
      return if ok then Done(Some(updated)) else Error(Internal);
    }

    method Backfill(alias: bytes, found: bytes, fault: Option<Stage>) returns (r: Reply)
      requires Ready(State())
      modifies this
      ensures Ready(State()) && Follows(old(State()), State(), BackfillIdentity(alias, found), fault, r)
    {
      hide Valid, Position;
      var i := Find(alias);
      if i.None? { return Error(CredentialMissing); }
      if descriptors[i.value].accountIdentity.Some? { return Unneeded; }
      ProposalValid(descriptors, BackfillIdentity(alias, found));
      var ok := Persist(descriptors[i.value := descriptors[i.value].(accountIdentity := Some(found))], fault);
      return if ok then Done(None) else Error(Internal);
    }
  }

  lemma SuccessorIs(ds: seq<Descriptor>, provider: bytes)
    ensures FirstFrom(ds, OfProvider(provider), 0) == Successor(ds, provider)
  {
  }

  lemma AdmittedIs(ds: seq<Descriptor>, d: Descriptor, now: Option<u64>, e: Descriptor)
    requires e == d.(active := d.active || !HasProvider(ds, d.provider), createdAt := if d.createdAt.Some? then d.createdAt else now)
    ensures e == Admitted(ds, d, now)
  {
  }

  lemma ExtendedIs(ds: seq<Descriptor>, e: Descriptor)
    ensures Extended(ds, e) == (if e.active then Deselected(ds, e.provider) else ds) + [e]
  {
  }

  method DeselectAll(ds: seq<Descriptor>, provider: bytes) returns (next: seq<Descriptor>)
    ensures next == Deselected(ds, provider)
  {
    next := ds;
    for i := 0 to |ds|
      invariant |next| == |ds|
      invariant forall j | 0 <= j < |ds| :: next[j] == if j < i then Deselect(ds[j], provider) else ds[j]
    {
      if next[i].provider == provider {
        next := next[i := next[i].(active := false)];
      }
    }
  }

  method ChooseAll(ds: seq<Descriptor>, provider: bytes, alias: bytes) returns (next: seq<Descriptor>)
    ensures next == Chosen(ds, provider, alias)
  {
    next := ds;
    for i := 0 to |ds|
      invariant |next| == |ds|
      invariant forall j | 0 <= j < |ds| :: next[j] == if j < i then Choose(ds[j], provider, alias) else ds[j]
    {
      if next[i].provider == provider {
        next := next[i := next[i].(active := next[i].alias == alias)];
      }
    }
  }

  // ---------------------------------------------------------------------
  // Every run
  // ---------------------------------------------------------------------

  /** A call; a machine crash that leaves candidate `pick`, and loading it; or a new process that loads
      the file as it is, nothing having crashed. */
  datatype Event = Operate(op: Op, fault: Option<Stage>, reply: Reply) | Restart(pick: nat) | Reopen

  ghost predicate Happens(w: World, n: World, e: Event)
  {
    match e
    case Operate(op, fault, r) => Follows(w, n, op, fault, r)
    case Restart(pick) => Crashes(w.file, n.file, pick) && Opens(n.file, n)
    case Reopen => w.file.main != [] && Opens(w.file, n)
  }

  lemma HappensKeeps(w: World, n: World, e: Event)
    requires Safe(w) && Happens(w, n, e)
    ensures Safe(n)
  {
    hide Valid, Propose;
    match e
    case Operate(op, _, _) => if Propose(w.view, op).Candidate? { ProposalValid(w.view, op); }
    case Restart(pick) => CrashLoads(w.file, n.file, pick);
    case Reopen =>
  }

  ghost predicate Run(worlds: seq<World>, events: seq<Event>)
  {
    && |worlds| == |events| + 1
    && forall i | 0 <= i < |events| :: Happens(worlds[i], worlds[i + 1], events[i])
  }

  /** One active account per provider, in the view and in everything that a crash can leave, whatever
      the operations, failing saves, crashes and new processes. */
  lemma {:induction false} EveryRunSafe(worlds: seq<World>, events: seq<Event>, i: nat)
    requires Run(worlds, events) && Safe(worlds[0]) && i < |worlds|
    ensures Safe(worlds[i])
  {
    if i > 0 {
      hide Safe, Happens;
      EveryRunSafe(worlds, events, i - 1);
      assert Happens(worlds[i - 1], worlds[i - 1 + 1], events[i - 1]);
      HappensKeeps(worlds[i - 1], worlds[i], events[i - 1]);
    }
  }

  /** Whatever happens, the next process or the machine after a crash finds a file it accepts. */
  lemma AlwaysLoads(worlds: seq<World>, events: seq<Event>, i: nat, file: Files<Descriptor>, pick: nat)
    requires Run(worlds, events) && Safe(worlds[0]) && i < |worlds|
    requires file == worlds[i].file || Crashes(worlds[i].file, file, pick)
    ensures file.main != [] && Loaded(Visible(file)).Some? && Valid(Loaded(Visible(file)).value)
  {
    hide Valid, Run, Happens;
    EveryRunSafe(worlds, events, i);
    if file != worlds[i].file { CrashLoads(worlds[i].file, file, pick); }
  }

  // ---------------------------------------------------------------------
  // When the durable file is the view
  // ---------------------------------------------------------------------

  /** What an event does to it: a successful save or a crash restores it, opening the file keeps it
      exactly when the durable and the visible snapshot agree, and nothing else touches it. */
  lemma DurableAfter(w: World, n: World, e: Event)
    requires Safe(w) && Happens(w, n, e)
    ensures n.file.main != []
    ensures Durable(n) <==>
      match e
      case Operate(_, _, r) => r.Done? || Durable(w)
      case Restart(_) => true
      case Reopen => Loaded(w.file.main[0]) == Loaded(Visible(w.file))
  {
    hide Valid, Propose;
    match e
    case Operate(op, _, _) =>
    case Restart(pick) => CrashLoads(w.file, n.file, pick);
    case Reopen =>
  }

  /** Opening a file whose last change is visible but not durable. */
  predicate Premature(w: World, e: Event)
    requires w.file.main != []
  {
    e.Reopen? && Loaded(w.file.main[0]) != Loaded(Visible(w.file))
  }

  predicate Settling(e: Event) { e.Restart? || (e.Operate? && e.reply.Done?) }

  /** Over a run that starts durable: the durable file is the view if and only if the last event that
      could settle the matter, looking back, is not a premature opening. */
  lemma {:induction false} DurableExactly(worlds: seq<World>, events: seq<Event>, i: nat)
    requires Run(worlds, events) && Safe(worlds[0]) && Durable(worlds[0]) && i < |worlds|
    ensures forall k | 0 <= k < |worlds| :: worlds[k].file.main != []
    ensures Durable(worlds[i]) <==>
      forall k | 0 <= k < i :: Premature(worlds[k], events[k]) ==>
        exists m | k < m < i :: Settling(events[m]) || (events[m].Reopen? && !Premature(worlds[m], events[m]))
    decreases i
  {
    hide Safe, Happens, Durable;
    forall k | 0 <= k < |worlds| ensures worlds[k].file.main != [] {
      EveryRunSafe(worlds, events, k);
      SafeFile(worlds[k]);
    }
    if i > 0 {
      DurableExactly(worlds, events, i - 1);
      assert Happens(worlds[i - 1], worlds[i - 1 + 1], events[i - 1]);
      EveryRunSafe(worlds, events, i - 1);
      DurableAfter(worlds[i - 1], worlds[i], events[i - 1]);
    }
  }

  lemma SafeFile(w: World)
    requires Safe(w)
    ensures w.file.main != []
  {
  }

  /** A save that failed at the parent's sync, and then a new process: the view is the unacknowledged
      snapshot, and a crash may still take it away. */
  lemma ReopenExample(before: seq<Descriptor>, next: seq<Descriptor>)
    requires Valid(before) && Valid(next) && before != next
    ensures var saved := Files(Saved([Some(Synced(before))], next, Some(SyncParent)), None);
      var w, n := World(before, saved), World(next, saved);
      Safe(w) && Durable(w) && Happens(w, n, Reopen) && Safe(n) && !Durable(n)
      && Crashes(n.file, Files([Some(Synced(before))], None), 0)
  {
    hide Valid;
  }

  /** A failed save never changes the view; it leaves the file untouched exactly when the step that
      failed is not the parent's sync, or the file already held the candidate. */
  lemma FailedSave(w: World, n: World, op: Op, stage: Stage, r: Reply)
    requires Safe(w) && Follows(w, n, op, Some(stage), r) && Propose(w.view, op).Candidate?
    ensures r == Error(Internal) && n.view == w.view
    ensures Visible(n.file) == Visible(w.file)
       <==> stage != SyncParent || Visible(w.file) == Some(Synced(Propose(w.view, op).next))
  {
    hide Valid, Propose;
    FailedSaveUntouched(w.file, Propose(w.view, op).next, stage);
  }

  /** So the promise that a failed save leaves the file untouched is broken: adding the first
      account with a failing directory sync reports an error and leaves the account in the file. */
  lemma FailedSaveExample(d: Descriptor)
    requires Named(d) && d.createdAt.Some?
    ensures var w := World([], Files([None], None));
            var n := World([], Files([None, Some(Synced([d.(active := true)]))], None));
      Safe(w) && Follows(w, n, Add(d, None), Some(SyncParent), Error(Internal)) && Visible(n.file) != Visible(w.file)
  {
    assert Admitted([], d, None) == d.(active := true);
    assert Extended([], d.(active := true)) == [d.(active := true)];
  }
}
