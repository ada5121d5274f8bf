/** What the account operations mean, said without their candidate snapshots: which
    accounts there are and in what order, what of them never changes, which is active, which
    requests are refused, and what each makes of the account that it names. */
module AccountLaws {
  import opened Bytes
  import opened SnapshotFile
  import opened AccountStore

  function AliasesOf(ds: seq<Descriptor>): (a: seq<bytes>) { seq(|ds|, i requires 0 <= i < |ds| => ds[i].alias) }

  /** Insertion order: additions go last, a removal closes the gap, nothing else moves. */
  lemma AliasOrder(ds: seq<Descriptor>, op: Op)
    requires Propose(ds, op).Candidate?
    ensures var before, after := AliasesOf(ds), AliasesOf(Propose(ds, op).next);
      match op
      case Add(d, _) => after == before + [d.alias]
      case Remove(a) => exists i | 0 <= i < |before| :: before[i] == a && after == before[..i] + before[i + 1..]
      case _ => after == before
  {
    hide HasAlias, HasProvider;
    var before, after := AliasesOf(ds), AliasesOf(Propose(ds, op).next);
    if op.Remove? {
      var i := Position(ds, op.alias).value;
      assert before[i] == op.alias && after == before[..i] + before[i + 1..];
    } else if op.Add? {
      assert after == before + [op.descriptor.alias];
    } else {
      assert after == before;
    }
  }

  /** The account that an operation names. */
  function Subject(op: Op): (a: bytes)
  {
    match op
    case Add(d, _) => d.alias
    case Replace(d) => d.alias
    case Select(a) => a
    case Remove(a) => a
    case SetStatus(a, _) => a
    case SetLabel(a, _) => a
    case SetIdentity(a, _) => a
    case BackfillIdentity(a, _) => a
  }

  predicate SameCoordinates(d: Descriptor, e: Descriptor)
  {
    e.provider == d.provider && e.authMethod == d.authMethod && e.baseUrl == d.baseUrl && e.createdAt == d.createdAt
  }

  /** Where the descriptor at `j` of the candidate comes from. */
  lemma Origin(ds: seq<Descriptor>, op: Op, j: nat) returns (i: nat)
    requires Propose(ds, op).Candidate? && j < |Propose(ds, op).next| && HasAlias(ds, Propose(ds, op).next[j].alias)
    ensures i < |ds| && ds[i].alias == Propose(ds, op).next[j].alias && SameCoordinates(ds[i], Propose(ds, op).next[j])
    ensures ds[i].alias != Subject(op) ==> Propose(ds, op).next[j].(active := ds[i].active) == ds[i]
  {
    hide HasAlias, HasProvider, RemovedAt, Extended, Position, Successor;
    match op
    case Remove(a) => i := OriginRemoved(ds, Position(ds, a).value, j);
    case Add(d, now) => i := OriginAdded(ds, Admitted(ds, d, now), j);
    case _ => i := j;
  }

  lemma OriginRemoved(ds: seq<Descriptor>, x: nat, j: nat) returns (i: nat)
    requires x < |ds| && j < |RemovedAt(ds, x)|
    ensures i < |ds| && ds[i].alias == RemovedAt(ds, x)[j].alias && SameCoordinates(ds[i], RemovedAt(ds, x)[j])
    ensures RemovedAt(ds, x)[j].(active := ds[i].active) == ds[i]
  {
    i := if j < x then j else j + 1;
    assert Without(ds, x)[j] == ds[i];
  }

  lemma OriginAdded(ds: seq<Descriptor>, e: Descriptor, j: nat) returns (i: nat)
    requires !HasAlias(ds, e.alias) && j < |Extended(ds, e)| && HasAlias(ds, Extended(ds, e)[j].alias)
    ensures i < |ds| && ds[i].alias == Extended(ds, e)[j].alias && SameCoordinates(ds[i], Extended(ds, e)[j])
    ensures Extended(ds, e)[j].(active := ds[i].active) == ds[i]
  {
    hide HasAlias;
    i := j;
    assert Extended(ds, e)[|ds|] == e;
  }

  /** An account's provider, authentication method, base URL and creation time never change; of an
      account that the operation does not name, nothing but the active mark does. */
  lemma CoordinatesFixed(ds: seq<Descriptor>, op: Op, i: nat, j: nat)
    requires Valid(ds) && Propose(ds, op).Candidate? && i < |ds| && j < |Propose(ds, op).next|
    requires ds[i].alias == Propose(ds, op).next[j].alias
    ensures SameCoordinates(ds[i], Propose(ds, op).next[j])
    ensures ds[i].alias != Subject(op) ==> Propose(ds, op).next[j].(active := ds[i].active) == ds[i]
  {
    hide Propose, OneActive, SameCoordinates;
    assert HasAlias(ds, Propose(ds, op).next[j].alias);
    var k := Origin(ds, op, j);
    assert k == i;
  }

  /** The active account of a provider changes only by selecting another, by adding an active one,
      or by removing it, and then to the first that remains. */
  lemma ActiveAfter(ds: seq<Descriptor>, op: Op, p: bytes, i: nat, k: nat)
    requires Valid(ds) && Propose(ds, op).Candidate?
    requires ActiveAt(ds, i, p) && ActiveAt(Propose(ds, op).next, k, p)
    ensures var next := Propose(ds, op).next;
      match op
      case Select(a) =>
        next[k].alias == if exists m :: 0 <= m < |ds| && ds[m].alias == a && ds[m].provider == p then a else ds[i].alias
      case Add(d, _) => next[k].alias == if d.active && d.provider == p then d.alias else ds[i].alias
      case Remove(a) =>
        if ds[i].alias == a then forall m | 0 <= m < k :: next[m].provider != p else next[k].alias == ds[i].alias
      case _ => next[k].alias == ds[i].alias
  {
    hide HasAlias, HasProvider, RemovedAt, Extended, Position, Chosen, Valid;
    match op
    case Select(a) => SelectActive(ds, a, p, i, k);
    case Add(d, now) => AddActive(ds, d, now, p, i, k);
    case Remove(a) => RemoveActive(ds, a, p, i, k);
    case Replace(d) => SameActive(ds, Propose(ds, op).next, p, i, k);
    case SetStatus(_, _) => SameActive(ds, Propose(ds, op).next, p, i, k);
    case SetLabel(_, _) => SameActive(ds, Propose(ds, op).next, p, i, k);
    case SetIdentity(_, _) => SameActive(ds, Propose(ds, op).next, p, i, k);
    case BackfillIdentity(_, _) => SameActive(ds, Propose(ds, op).next, p, i, k);
  }

  lemma SameActive(ds: seq<Descriptor>, next: seq<Descriptor>, p: bytes, i: nat, k: nat)
    requires Valid(ds) && |next| == |ds| && ActiveAt(ds, i, p) && ActiveAt(next, k, p)
    requires forall m | 0 <= m < |ds| ::
      next[m].alias == ds[m].alias && next[m].provider == ds[m].provider && next[m].active == ds[m].active
    ensures next[k].alias == ds[i].alias
  {
    assert ActiveAt(ds, k, p);
    assert OneActive(ds, ds[i].provider);
  }

  lemma SelectActive(ds: seq<Descriptor>, a: bytes, p: bytes, i: nat, k: nat)
    requires Valid(ds) && Position(ds, a).Some? && ActiveAt(ds, i, p)
    requires ActiveAt(Chosen(ds, ds[Position(ds, a).value].provider, a), k, p)
    ensures Chosen(ds, ds[Position(ds, a).value].provider, a)[k].alias
         == if exists m :: 0 <= m < |ds| && ds[m].alias == a && ds[m].provider == p then a else ds[i].alias
  {
    var m := Position(ds, a).value;
    assert OneActive(ds, ds[i].provider);
    if ds[m].provider == p {
      assert 0 <= m < |ds| && ds[m].alias == a && ds[m].provider == p;
    } else {
      assert ActiveAt(ds, k, p);
    }
  }

  lemma AddActive(ds: seq<Descriptor>, d: Descriptor, now: Option<u64>, p: bytes, i: nat, k: nat)
    requires Valid(ds) && ProposeAdd(ds, d, now).Candidate?
    requires ActiveAt(ds, i, p) && ActiveAt(ProposeAdd(ds, d, now).next, k, p)
    ensures ProposeAdd(ds, d, now).next[k].alias == if d.active && d.provider == p then d.alias else ds[i].alias
  {
    hide HasAlias;
    assert OneActive(ds, ds[i].provider);
    assert d.provider == p ==> HasProvider(ds, d.provider);
    if k < |ds| { assert ActiveAt(ds, k, p) || (d.active && d.provider == p); }
  }

  lemma RemoveActive(ds: seq<Descriptor>, a: bytes, p: bytes, i: nat, k: nat)
    requires Valid(ds) && Position(ds, a).Some? && ActiveAt(ds, i, p) && ActiveAt(RemovedAt(ds, Position(ds, a).value), k, p)
    ensures var next := RemovedAt(ds, Position(ds, a).value);
      if ds[i].alias == a then forall m | 0 <= m < k :: next[m].provider != p else next[k].alias == ds[i].alias
  {
    var x := Position(ds, a).value;
    var left, next := Without(ds, x), RemovedAt(ds, x);
    var source := if k < x then k else k + 1;
    assert left[k] == ds[source];
    assert OneActive(ds, ds[i].provider);
    assert ActiveAt(left, k, p) ==> ActiveAt(ds, source, p);
    if ds[i].alias == a {
      assert x == i;
      assert Successor(left, p) == Some(k);
    } else {
      assert !ActiveAt(ds, x, p);
      assert next[k] == left[k];
    }
  }

  // ---------------------------------------------------------------------
  // Requests and answers
  // ---------------------------------------------------------------------

  /** The account at `i` has the alias. */
  predicate NamedAt(ds: seq<Descriptor>, i: int, a: bytes) { 0 <= i < |ds| && ds[i].alias == a }

  predicate Unnamed(d: Descriptor) { |d.alias| == 0 || |d.provider| == 0 }

  predicate Elsewhere(d: Descriptor, e: Descriptor)
  {
    d.provider != e.provider || d.authMethod != e.authMethod || d.baseUrl != e.baseUrl
  }

  /** Which requests are refused, and with which error; the one that is found unneeded; and the rest. */
  lemma RefusedExactly(ds: seq<Descriptor>, op: Op)
    requires Valid(ds)
    ensures var o := Propose(ds, op);
      match op
      case Add(d, now) =>
        var bad, undated := Unnamed(d) || (exists i :: NamedAt(ds, i, d.alias)), d.createdAt.None? && now.None?;
        && (o == Refuse(InvalidArgument) <==> bad) && (o == Refuse(Internal) <==> !bad && undated)
        && (o.Candidate? <==> !bad && !undated)
      case Replace(d) =>
        var bad := Unnamed(d) || exists i :: NamedAt(ds, i, d.alias) && Elsewhere(ds[i], d);
        var missing := !Unnamed(d) && !exists i :: NamedAt(ds, i, d.alias);
        && (o == Refuse(InvalidArgument) <==> bad) && (o == Refuse(CredentialMissing) <==> missing)
        && (o.Candidate? <==> !bad && !missing)
      case BackfillIdentity(a, _) =>
        && (o == Refuse(CredentialMissing) <==> !exists i :: NamedAt(ds, i, a))
        && (o == Keep <==> exists i :: NamedAt(ds, i, a) && ds[i].accountIdentity.Some?)
        && (o.Candidate? <==> exists i :: NamedAt(ds, i, a) && ds[i].accountIdentity.None?)
      case _ =>
        var a := Subject(op);
        (o == Refuse(CredentialMissing) <==> !exists i :: NamedAt(ds, i, a)) && (o.Candidate? <==> exists i :: NamedAt(ds, i, a))
  {
    hide OneActive, Chosen, RemovedAt, Extended, Admitted, Merged;
    var a := Subject(op);
    assert HasAlias(ds, a) <==> exists i :: NamedAt(ds, i, a) by { HasNamed(ds, a); }
    match Position(ds, a)
    case None =>
    case Some(p) =>
      assert NamedAt(ds, p, a);
      forall i | NamedAt(ds, i, a) ensures i == p { OnlyOne(ds, i, p); }
  }

  lemma HasNamed(ds: seq<Descriptor>, a: bytes)
    ensures HasAlias(ds, a) <==> exists i :: NamedAt(ds, i, a)
  {
    if i :| 0 <= i < |ds| && ds[i].alias == a { assert NamedAt(ds, i, a); }
  }

  lemma OnlyOne(ds: seq<Descriptor>, i: nat, j: nat)
    requires Distinct(ds) && i < |ds| && j < |ds| && ds[i].alias == ds[j].alias
    ensures i == j
  {
  }

  /** Every field of the named account afterwards, `p` being that account before. */
  ghost function Rewritten(ds: seq<Descriptor>, p: Descriptor, op: Op): (e: Descriptor)
  {
    match op
    case Add(d, now) =>
      Descriptor(d.alias, d.provider, d.baseUrl, d.authMethod, d.identity, d.status,
                 d.active || forall m | 0 <= m < |ds| :: ds[m].provider != d.provider,
                 d.displayLabel, d.accountIdentity, if d.createdAt.Some? then d.createdAt else now)
    case Replace(d) =>
      Descriptor(p.alias, p.provider, p.baseUrl, p.authMethod, d.identity, d.status, p.active,
                 if d.displayLabel.Some? then d.displayLabel else p.displayLabel, d.accountIdentity, p.createdAt)
    case Select(_) =>
      Descriptor(p.alias, p.provider, p.baseUrl, p.authMethod, p.identity, p.status, true,
                 p.displayLabel, p.accountIdentity, p.createdAt)
    case SetStatus(_, status) =>
      Descriptor(p.alias, p.provider, p.baseUrl, p.authMethod, p.identity, status, p.active,
                 p.displayLabel, p.accountIdentity, p.createdAt)
    case SetLabel(_, text) =>
      Descriptor(p.alias, p.provider, p.baseUrl, p.authMethod, p.identity, p.status, p.active,
                 text, p.accountIdentity, p.createdAt)
    case SetIdentity(_, identity) =>
      Descriptor(p.alias, p.provider, p.baseUrl, p.authMethod, p.identity, p.status, p.active,
                 p.displayLabel, identity, p.createdAt)
    case BackfillIdentity(_, found) =>
      Descriptor(p.alias, p.provider, p.baseUrl, p.authMethod, p.identity, p.status, p.active,
                 p.displayLabel, Some(found), p.createdAt)
    case Remove(_) => p
  }

  /** What an accepted request makes of the account that it names, and what it answers. A removed
      account is returned and is gone; a new label or identity is returned with its account. */
  lemma NamedAfter(ds: seq<Descriptor>, op: Op, i: nat, j: nat)
    requires Valid(ds) && Propose(ds, op).Candidate? && (op.Add? || NamedAt(ds, i, Subject(op)))
    ensures var o := Propose(ds, op);
      if op.Remove? then
        !NamedAt(o.next, j, op.alias) && o.answer == Some(ds[i])
      else
        && (NamedAt(o.next, j, Subject(op)) ==> o.next[j] == Rewritten(ds, if op.Add? then op.descriptor else ds[i], op))
        && o.answer == if op.SetLabel? || op.SetIdentity? then Some(Rewritten(ds, ds[i], op)) else None
  {
    hide OneActive, Position, RemovedAt, Extended;
    var o := Propose(ds, op);
    if op.Add? {
      if NamedAt(o.next, j, Subject(op)) { AddedAfter(ds, op.descriptor, op.now, j); }
    } else {
      var p := Position(ds, Subject(op)).value;
      OnlyOne(ds, i, p);
      if op.Remove? {
        RemovedAfter(ds, p, j);
      } else if NamedAt(o.next, j, Subject(op)) {
        OnlyOne(ds, p, j);
      }
    }
  }

  /** What a call that succeeds has put in the view and on disk, and has answered. */
  lemma StoredAndAnswered(w: World, n: World, op: Op, fault: Option<Stage>, r: Reply, i: nat, j: nat)
    requires Ready(w) && Follows(w, n, op, fault, r) && r.Done? && (op.Add? || NamedAt(w.view, i, Subject(op)))
    ensures fault.None? && n.file.main == [Some(Synced(n.view))]
    ensures NamedAt(n.view, j, Subject(op)) ==>
      !op.Remove? && n.view[j] == Rewritten(w.view, if op.Add? then op.descriptor else w.view[i], op)
    ensures r.descriptor ==
      if op.SetLabel? || op.SetIdentity? then Some(Rewritten(w.view, w.view[i], op))
      else if op.Remove? then Some(w.view[i]) else None
  {
    hide Valid, Propose, Rewritten;
    NamedAfter(w.view, op, i, j);
  }

  lemma AddedAfter(ds: seq<Descriptor>, d: Descriptor, now: Option<u64>, j: nat)
    requires ProposeAdd(ds, d, now).Candidate? && NamedAt(ProposeAdd(ds, d, now).next, j, d.alias)
    ensures ProposeAdd(ds, d, now).next[j] == Rewritten(ds, d, Add(d, now))
  {
    var next := ProposeAdd(ds, d, now).next;
    assert j < |ds| ==> next[j].alias == ds[j].alias;
  }

  lemma RemovedAfter(ds: seq<Descriptor>, x: nat, j: nat)
    requires Distinct(ds) && x < |ds|
    ensures !NamedAt(RemovedAt(ds, x), j, ds[x].alias)
  {
    var next := RemovedAt(ds, x);
    if j < |next| {
      var m := if j < x then j else j + 1;
      assert Without(ds, x)[j] == ds[m] && next[j].alias == ds[m].alias;
    }
  }

  /** What validation asks of a snapshot: aliases and providers that are not empty, no alias twice, and for
      each account exactly one active account of its provider. */
  lemma ValidExactly(ds: seq<Descriptor>)
    ensures Valid(ds) <==>
      && (forall i | 0 <= i < |ds| :: |ds[i].alias| > 0 && |ds[i].provider| > 0)
      && (forall i, j | 0 <= i < |ds| && 0 <= j < |ds| && ds[i].alias == ds[j].alias :: i == j)
      && (forall i | 0 <= i < |ds| :: HasOnlyActive(ds, ds[i].provider))
  {
    hide OneActive, HasOnlyActive;
    forall i | 0 <= i < |ds| ensures OneActive(ds, ds[i].provider) <==> HasOnlyActive(ds, ds[i].provider) {
      OnlyIsOne(ds, ds[i].provider);
    }
    if Distinct(ds) {
      forall i, j | 0 <= i < |ds| && 0 <= j < |ds| && ds[i].alias == ds[j].alias ensures i == j { OnlyOne(ds, i, j); }
    }
  }

  ghost predicate HasOnlyActive(ds: seq<Descriptor>, p: bytes) { exists k :: OnlyActive(ds, k, p) }

  predicate OnlyActive(ds: seq<Descriptor>, k: int, p: bytes)
  {
    0 <= k < |ds| && forall m | 0 <= m < |ds| :: (ds[m].active && ds[m].provider == p <==> m == k)
  }

  lemma OnlyIsOne(ds: seq<Descriptor>, p: bytes)
    ensures OneActive(ds, p) <==> HasOnlyActive(ds, p)
  {
    if OneActive(ds, p) {
      var k :| ActiveAt(ds, k, p);
      forall m | 0 <= m < |ds| ensures ds[m].active && ds[m].provider == p <==> m == k {
        assert ActiveAt(ds, m, p) <==> ds[m].active && ds[m].provider == p;
      }
      assert OnlyActive(ds, k, p);
    }
    if k :| OnlyActive(ds, k, p) {
      assert ActiveAt(ds, k, p);
    }
  }
}
