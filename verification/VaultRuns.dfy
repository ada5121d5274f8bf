/** What callers of the file vaults may rely on, over every run. */
module VaultRuns {
  import opened Bytes
  import opened VaultDisk
  import opened Sealing
  import opened VaultSpec
  import opened VaultMachine
  import opened VaultProof
  import opened VaultTraces
  import VaultNames

  /** The entry files are whole and durable. */
  ghost predicate Authentic(k: Kind, d: Disk, seals: set<Seal>)
  {
    forall a | Entry(a) in d.names ::
      d.names[Entry(a)] in d.synced && d.names[Entry(a)] in d.data && Reads(k, seals, a, d.data[d.names[Entry(a)]]).Some?
  }

  ghost function FirstValues(k: Kind, d: Disk, seals: set<Seal>): (values: map<bytes, history>)
    requires Authentic(k, d, seals)
    ensures forall a :: a in values <==> Entry(a) in d.names
    ensures forall a | Entry(a) in d.names :: values[a] == [Reads(k, seals, a, d.data[d.names[Entry(a)]])]
  {
    var aliases := set n | n in d.names && n.Entry? :: n.alias;
    assert forall a | Entry(a) in d.names :: Entry(a).alias in aliases;
    map a | a in aliases :: [Reads(k, seals, a, d.data[d.names[Entry(a)]])]
  }

  /** Any directory whose entry files are whole and durable is a starting point. */
  lemma Starts(k: Kind, d: Disk, seals: set<Seal>) returns (s: State)
    requires d.recent == map[] && Ledger(seals) && Authentic(k, d, seals)
    ensures Inv(k, s) && s.pcs == map[] && s.disk == d && s.seals == seals
  {
    hide Reads, FirstValues, Ledger;
    var values := FirstValues(k, d, seals);
    s := State(d, seals, map[], Book(values, map[]));
    forall a ensures Aligned(k, s, a) {
      assert a in values <==> Entry(a) in d.names;
    }
  }

  /** Crash safety: in every state of every run, after any crash too, each alias is absent or its
      file reads as one whole value, the current one. */
  lemma NeverTorn(k: Kind, states: seq<State>, labels: seq<Label>, i: nat, a: bytes)
    requires Run(k, states, labels) && Inv(k, states[0]) && i < |states|
    ensures Matches(k, states[i], a, Lookup(states[i].disk, Entry(a)), Current(states[i].book, a))
  {
    hide Run, Matches, Aligned, Latest, Current;
    assert Run(k, states, labels) && |states| == |labels| + 1 by { RunLength(k, states, labels); }
    var spec := Linearizable(k, states, labels);
    assert Inv(k, states[i]);
    assert Aligned(k, states[i], a);
    Visible(k, states[i], a);
  }

  lemma RunLength(k: Kind, states: seq<State>, labels: seq<Label>)
    requires Run(k, states, labels)
    ensures |states| == |labels| + 1
  {
  }

  /** What is true of an acknowledged put or delete: called at `h`, answered at `i`. */
  ghost predicate Acknowledged(k: Kind, states: seq<State>, labels: seq<Label>, h: nat, i: nat, t: nat, op: Op)
  {
    && Run(k, states, labels) && Inv(k, states[0]) && h < i < |labels|
    && labels[h] == Call(t, op) && (forall x | h < x < i :: !Ends(labels[x], t))
    && labels[i].Return? && labels[i].thread == t && labels[i].reply != Failed && !op.Resolve?
  }

  /** An acknowledged put or delete survives every later step and crash. Its place in the history is
      the one at which it took effect, after it was called; the history up to there never changes
      again, and no crash goes back behind it. */
  lemma AcknowledgedSurvives(k: Kind, states: seq<State>, labels: seq<Label>, h: nat, i: nat, j: nat, t: nat, op: Op)
    returns (n: nat)
    requires Acknowledged(k, states, labels, h, i, t, op) && i < j < |states|
    ensures t in states[i].pcs && PhaseOf(states[i].pcs[t]).op == op
    ensures PhaseOf(states[i].pcs[t]).Taken? && n == PhaseOf(states[i].pcs[t]).at
    ensures |History(states[h].book, op.alias)| <= n + 1 && (op.Put? ==> |History(states[h].book, op.alias)| <= n)
    ensures n < |History(states[i].book, op.alias)| && History(states[i].book, op.alias)[n] == Left(op)
    ensures n <= Floor(states[j].book, op.alias) < |History(states[j].book, op.alias)|
    ensures History(states[j].book, op.alias)[..n + 1] == History(states[i].book, op.alias)[..n + 1]
  {
    hide SpecRun, Aligned, Latest, History, Floor, Step, Abs, Recorded, Durable, PcOk, Ledger, Apart;
    var a := op.alias;
    var spec := Linearizable(k, states, labels);
    TakenAfterCall(spec, labels, h, i, t, op);
    AbsFacts(states[h], t);
    AbsFacts(states[i], t);
    assert Inv(k, states[i]) && Inv(k, states[i + 1]) && PcOk(k, states[i], states[i].pcs[t]);
    assert Step(k, states[i], states[i + 1], labels[i]);
    Returned(k, states[i], states[i + 1], t, labels[i].reply);
    n := states[i].pcs[t].phase.at;
    AckedAt(states[i].book, states[i].pcs[t].phase);
    assert Aligned(k, states[i + 1], a);
    FloorBelow(k, states[i + 1], a);
    SuffixRun(spec, labels, i + 1, j);
    assert spec[i + 1..j + 1][0] == Abs(states[i + 1]) && spec[i + 1..j + 1][|labels[i + 1..j]|] == Abs(states[j]);
    AbsBook(states[i + 1]);
    AbsBook(states[j]);
    DurableForever(spec[i + 1..j + 1], labels[i + 1..j], a, n);
  }

  /** With no other put or delete of the alias in flight when it was called, and none called since, an
      acknowledged put or delete is what the file says at every later time, crashes or not. */
  lemma LoneWriteStays(k: Kind, states: seq<State>, labels: seq<Label>, h: nat, i: nat, j: nat, t: nat, op: Op)
    requires Acknowledged(k, states, labels, h, i, t, op) && i < j < |states|
    requires forall u | u in states[h].pcs :: !Writes(PhaseOf(states[h].pcs[u]).op, op.alias)
    requires forall x | h < x < j && labels[x].Call? :: !Writes(labels[x].op, op.alias)
    ensures Current(states[j].book, op.alias) == Left(op)
    ensures Matches(k, states[j], op.alias, Lookup(states[j].disk, Entry(op.alias)), Left(op))
  {
    hide SpecRun, Aligned, Latest, History, Floor, Step, Recorded, Durable, PcOk, Ledger, Apart, Matches, AtRest, Leads;
    var a := op.alias;
    var spec := Linearizable(k, states, labels);
    assert Alone(spec[h], t, a);
    LeadsUntil(spec, labels, h, i, t, op);
    assert Inv(k, states[i]) && Aligned(k, states[i], a);
    FloorBelow(k, states[i], a);
    assert SpecStep(spec[i], spec[i + 1], labels[i]) by { SpecAt(spec, labels, i); }
    LoneReturn(spec[i], spec[i + 1], t, labels[i].reply, op);
    RestForever(spec, labels, i + 1, j, a, Left(op));
    RestCurrent(spec[j], a, Left(op));
    NeverTorn(k, states, labels, j, a);
  }

  lemma SpecAt(spec: seq<Spec>, labels: seq<Label>, i: nat)
    requires SpecRun(spec, labels) && i < |labels|
    ensures SpecStep(spec[i], spec[i + 1], labels[i])
  {
  }

  lemma RestCurrent(s: Spec, a: bytes, v: Option<bytes>)
    requires AtRest(s, a, v)
    ensures Current(s.book, a) == v
  {
  }

  /** Every secret that a resolve returns was put for that alias by a call before it, or was the
      alias's value at the start. */
  lemma FoundWasPut(k: Kind, states: seq<State>, labels: seq<Label>, i: nat, t: nat, v: bytes)
    requires Run(k, states, labels) && Inv(k, states[0]) && states[0].pcs == map[] && i < |labels|
    requires labels[i] == Return(t, Found(v))
    ensures t in states[i].pcs && PhaseOf(states[i].pcs[t]).op.Resolve?
    ensures Sourced(states[0].book, labels[..i], PhaseOf(states[i].pcs[t]).op.alias, v)
  {
    hide SpecRun, Inv, Step, Sourced;
    var spec := Linearizable(k, states, labels);
    assert spec[0] == Abs(states[0]) && spec[0].phases == map[];
    VaultTraces.FoundWasPut(spec, labels, i, t, v);
    assert spec[i] == Abs(states[i]);
  }

  lemma AbsFacts(s: State, t: nat)
    ensures Abs(s).book == s.book && (t in Abs(s).phases <==> t in s.pcs)
    ensures t in s.pcs ==> Abs(s).phases[t] == PhaseOf(s.pcs[t])
  {
  }

  lemma AbsBook(s: State)
    ensures Abs(s).book == s.book
  {
  }

  lemma Returned(k: Kind, s: State, s': State, t: nat, reply: Reply)
    requires Step(k, s, s', Return(t, reply)) && t in s.pcs && PcOk(k, s, s.pcs[t]) && reply != Failed
    ensures s.pcs[t].Answer? && s'.book == s.book
    ensures s.pcs[t].phase.Taken? && Durable(s.book, s.pcs[t].phase) && Recorded(s.book, s.pcs[t].phase)
  {
    hide PcOk, Recorded, Durable;
    AnswerDurable(k, s, s.pcs[t]);
  }

  lemma AckedAt(b: Book, p: Phase)
    requires p.Taken? && Recorded(b, p) && Durable(b, p) && !p.op.Resolve?
    ensures p.at < |History(b, p.op.alias)| && p.at <= Floor(b, p.op.alias)
    ensures History(b, p.op.alias)[p.at] == Left(p.op)
  {
  }

  lemma FloorBelow(k: Kind, s: State, a: bytes)
    requires Latest(s.disk) && Aligned(k, s, a)
    ensures Floor(s.book, a) < |History(s.book, a)|
  {
    hide Matches;
  }

  lemma SuffixRun(spec: seq<Spec>, labels: seq<Label>, i: nat, j: nat)
    requires SpecRun(spec, labels) && i <= j < |spec|
    ensures SpecRun(spec[i..j + 1], labels[i..j])
  {
    hide SpecStep;
    forall m | 0 <= m < j - i ensures SpecStep(spec[i..j + 1][m], spec[i..j + 1][m + 1], labels[i..j][m]) {
      assert SpecStep(spec[i + m], spec[i + m + 1], labels[i + m]);
    }
  }

  // ---------------------------------------------------------------------
  // A failing stat
  // ---------------------------------------------------------------------

  /** A resolve that is called, works and answers that the credential is absent. */
  function AbsentTrace(a: bytes, n: nat): (labels: seq<Label>)
  {
    [Call(0, Resolve(a))] + seq(n, _ => Inner) + [Return(0, Absent)]
  }

  /** The atomic vault has no such run, of any length, where the alias has a value. */
  lemma NeverAbsent(spec: seq<Spec>, a: bytes, n: nat)
    requires |spec| > 0 && spec[0].phases == map[] && Current(spec[0].book, a).Some?
    ensures !SpecRun(spec, AbsentTrace(a, n))
  {
    hide SpecStep, History;
    var labels := AbsentTrace(a, n);
    assert labels[0] == Call(0, Resolve(a)) && labels[n + 1] == Return(0, Absent) && forall x | 0 < x < n + 1 :: labels[x] == Inner;
    if SpecRun(spec, labels) {
      ResolveAlone(spec, labels, 0, n + 1, 0, a);
      SpecAt(spec, labels, n + 1);
      AbsentNeeds(spec[n + 1], spec[n + 2]);
    }
  }

  lemma AbsentNeeds(s: Spec, s': Spec)
    requires SpecStep(s, s', Return(0, Absent))
    ensures 0 in s.phases && s.phases[0].Taken? && s.phases[0].reply == Absent
  {
  }

  /** A plain resolve whose inspection of an existing file fails answers that the credential is absent:
      from any directory that holds the alias, three steps of the code that no run of the atomic vault
      from the same start matches, however many steps it takes. `StatWorks` cannot be dropped. */
  lemma FailedStatLies(s0: State, a: bytes, c: Choice) returns (s1: State, s2: State, s3: State)
    requires Inv(Plain, s0) && s0.pcs == map[] && Entry(a) in s0.disk.names && c.fails
    ensures Step(Plain, s0, s1, Call(0, Resolve(a))) && Step(Plain, s2, s3, Return(0, Absent))
    ensures 0 in s1.pcs && !s1.pcs[0].Answer? && Allowed(Plain, s1, 0, c) && s2 == Turn(Plain, s1, 0, c) && !StatWorks(s1, 0, c)
    ensures forall spec: seq<Spec>, n: nat | |spec| > 0 && spec[0] == Abs(s0) :: !SpecRun(spec, AbsentTrace(a, n))
  {
    hide Aligned, Latest, Ledger, PcOk, Apart, Current, Reads, SpecRun, AbsentTrace;
    s1 := Give(s0, 0, ResolveStat(a));
    s2 := Give(s1, 0, Answer(Called(Resolve(a)), Absent));
    s3 := s2.(pcs := s2.pcs - {0});
    assert Aligned(Plain, s0, a);
    Visible(Plain, s0, a);
    forall spec: seq<Spec>, n: nat | |spec| > 0 && spec[0] == Abs(s0) ensures !SpecRun(spec, AbsentTrace(a, n)) {
      NeverAbsent(spec, a, n);
    }
  }

  // ---------------------------------------------------------------------
  // No spurious failures
  // ---------------------------------------------------------------------

  /** The call gives up in this step. */
  predicate GivesUp(before: Pc, after: Pc)
  {
    (after.PutUndo? && !before.PutUndo?) || (after.Answer? && after.reply == Failed && !before.PutUndo?)
  }

  /** The reasons a call has to give up though no file operation failed: a taken temporary name, an
      alias too long to seal, a plain entry that vanished between stat and open, or is oversized. */
  ghost predicate HasReason(k: Kind, s: State, t: nat, c: Choice)
    requires t in s.pcs
  {
    var pc := s.pcs[t];
    || (pc.PutCreate? && (Temp(c.id) in s.disk.names || (k.Keyed? && Aad(pc.alias).None?)))
    || (pc.ResolveOpen? && k.Plain? && Entry(pc.alias) !in s.disk.names)
    || (pc.ResolveStat? && Entry(pc.alias) in s.disk.names && s.disk.names[Entry(pc.alias)] in s.disk.data
        && |s.disk.data[s.disk.names[Entry(pc.alias)]]| > MAX_SECRET)
  }

  /** While file operations work, a call gives up exactly when it has one of those reasons: whatever
      the other callers do, no authentication, read, write or rename of its own ever fails. */
  lemma NoSpuriousFailure(k: Kind, s: State, t: nat, c: Choice)
    requires Inv(k, s) && t in s.pcs && !s.pcs[t].Answer? && Allowed(k, s, t, c) && !c.fails
    ensures GivesUp(s.pcs[t], Turn(k, s, t, c).pcs[t]) <==> HasReason(k, s, t, c)
  {
    hide Aligned, Latest, Ledger, Apart, Current, Reads, Recorded, Record, Create, Bind;
    assert PcOk(k, s, s.pcs[t]);
  }

  /** How many turns of its own a call has left at most. */
  function Remaining(pc: Pc): (n: nat)
  {
    match pc
    case PutOpen(_, v) => |v| + OVERHEAD + 8
    case PutCheck(_, v, _) => |v| + OVERHEAD + 7
    case PutCreate(_, v) => |v| + OVERHEAD + 6
    case PutWrite(_, _, _, _, record, written) => (if written < |record| then |record| - written else 0) + 5
    case PutFsync(_, _, _, _, _) => 4
    case PutRename(_, _, _, _, _) => 3
    case PutSync(_, _) => 2
    case PutUndo(_, _) => 1
    case ResolveStat(_) => 3
    case ResolveOpen(_) => 2
    case ResolveRead(_, _, _) => 1
    case DeleteOpen(_) => 4
    case DeleteCheck(_, _) => 3
    case DeleteUnlink(_) => 2
    case DeleteSync(_) => 1
    case Answer(_, _) => 0
  }

  /** Every turn brings its call nearer to its answer, whatever the other callers do; only a write
      that moves no bytes stands still. */
  lemma TurnProgresses(k: Kind, s: State, t: nat, c: Choice)
    requires t in s.pcs && !s.pcs[t].Answer? && Allowed(k, s, t, c)
    requires s.pcs[t].PutWrite? ==> c.fails || c.upto > s.pcs[t].written || c.upto == |s.pcs[t].record|
    ensures Remaining(Turn(k, s, t, c).pcs[t]) < Remaining(s.pcs[t])
  {
    hide Reads, CreateTurn, RenameTurn, UndoTurn, SyncTurn, UnlinkTurn;
    if s.pcs[t].PutCreate? {
      CreateProgresses(k, s, t, c);
    } else if !c.fails || s.pcs[t].PutUndo? {
      EntryTurnsProgress(s, t, c.fails);
    }
  }

  lemma CreateProgresses(k: Kind, s: State, t: nat, c: Choice)
    requires t in s.pcs && s.pcs[t].PutCreate? && Allowed(k, s, t, c)
    ensures Remaining(CreateTurn(k, s, t, c).pcs[t]) < Remaining(s.pcs[t])
  {
    hide Create;
  }

  lemma EntryTurnsProgress(s: State, t: nat, fails: bool)
    requires t in s.pcs
    ensures s.pcs[t].PutRename? ==> Remaining(RenameTurn(s, t).pcs[t]) < 3
    ensures s.pcs[t].PutUndo? ==> Remaining(UndoTurn(s, t, fails).pcs[t]) < 1
    ensures s.pcs[t].DeleteUnlink? ==> Remaining(UnlinkTurn(s, t).pcs[t]) < 2
    ensures s.pcs[t].PutSync? || s.pcs[t].DeleteSync? ==> Remaining(SyncTurn(s, t).pcs[t]) < 1
  {
    hide Bind;
  }

  // ---------------------------------------------------------------------
  // Listing
  // ---------------------------------------------------------------------

  /** The name of a temporary or lock file. */
  ghost predicate Leftover(name: bytes)
  {
    || (exists nonce :: name == VaultNames.SealedTemp(nonce))
    || (exists a, process, counter :: name == VaultNames.PlainTemp(a, process, counter))
    || (exists a :: name == VaultNames.LockName(a))
  }

  /** `names` is what reading the directory yields. */
  ghost predicate Directory(d: Disk, names: seq<bytes>)
  {
    && VaultNames.Distinct(names)
    && (forall a :: Entry(a) in d.names <==> VaultNames.EntryName(a) in names)
    && (forall n | n in names :: Leftover(n) || exists a :: n == VaultNames.EntryName(a))
  }

  lemma LeftoverStemless(name: bytes)
    requires Leftover(name)
    ensures VaultNames.Stem(name).None? && VaultNames.Listed(name).None?
  {
    hide VaultNames.SealedTemp, VaultNames.PlainTemp, VaultNames.LockName, VaultNames.Stem;
    if nonce :| name == VaultNames.SealedTemp(nonce) {
      VaultNames.OthersHaveNoStem([], nonce, 0, 0);
    } else if a, process, counter :| name == VaultNames.PlainTemp(a, process, counter) {
      VaultNames.OthersHaveNoStem(a, [], process, counter);
    } else {
      var a :| name == VaultNames.LockName(a);
      VaultNames.OthersHaveNoStem(a, [], 0, 0);
    }
  }

  lemma EntryNotStray(a: bytes)
    ensures !VaultNames.Stray(VaultNames.EntryName(a))
  {
    hide VaultNames.Hex, VaultNames.Unhex;
    VaultNames.StemOfEntry(a);
    VaultNames.UnhexHex(a);
  }

  lemma NoStrays(d: Disk, names: seq<bytes>)
    requires Directory(d, names)
    ensures forall n | n in names :: !VaultNames.Stray(n)
  {
    hide VaultNames.Listed, VaultNames.EntryName, Leftover, VaultNames.Stray;
    forall n | n in names ensures !VaultNames.Stray(n) {
      if Leftover(n) {
        LeftoverStemless(n);
        assert !VaultNames.Stray(n) by { Unlisted(n); }
      } else {
        var a :| n == VaultNames.EntryName(a);
        EntryNotStray(a);
      }
    }
  }

  lemma Unlisted(n: bytes)
    requires VaultNames.Listed(n).None?
    ensures !VaultNames.Stray(n)
  {
  }

  /** Every alias with an entry is text, as every alias of the source is. */
  ghost predicate TextAliases(d: Disk) { forall a | Entry(a) in d.names :: ValidUtf8(a) }

  /** The sealed vault does not refuse to list such a directory while its entry files open, and whatever
      meets the contract of its listing is the plain one. */
  lemma SealedListing(k: Kind, s: State, names: seq<bytes>, opens: bytes -> bool, listed: seq<bytes>)
    requires Inv(k, s) && Directory(s.disk, names) && TextAliases(s.disk)
    requires forall a | Entry(a) in s.disk.names :: opens(VaultNames.EntryName(a))
    ensures forall n | n in names :: VaultNames.Regular(n) && (VaultNames.Inspected(n) ==> opens(n))
    ensures VaultNames.StrictlySorted(listed) && (forall a :: a in listed <==> VaultNames.Holds(names, a))
      ==> listed == VaultNames.Sort(VaultNames.Decoded(names))
  {
    hide Inv, VaultNames.Sort, VaultNames.Decoded, VaultNames.Listed, VaultNames.EntryName, ValidUtf8, Leftover;
    hide VaultNames.StrictlySorted, VaultNames.Stem;
    forall n | n in names ensures VaultNames.Regular(n) && (VaultNames.Inspected(n) ==> opens(n)) {
      if Leftover(n) {
        LeftoverStemless(n);
      } else {
        var a :| n == VaultNames.EntryName(a);
        VaultNames.EntryListed(a);
        EntryNotStray(a);
      }
    }
    NoStrays(s.disk, names);
    VaultNames.PlainListing(names);
    var plain := VaultNames.Sort(VaultNames.Decoded(names));
    if VaultNames.StrictlySorted(listed) && forall a :: a in listed <==> VaultNames.Holds(names, a) {
      assert VaultNames.Members(listed) == VaultNames.Members(plain);
      VaultNames.SortedUnique(listed, plain);
    }
  }

  /** With no other call running, listing a directory that any run or crash left gives exactly
      the aliases with a current value, in order; leftovers are never listed. */
  lemma ListingIsCurrent(k: Kind, s: State, names: seq<bytes>)
    requires Inv(k, s) && Directory(s.disk, names)
    ensures var listed := VaultNames.Sort(VaultNames.Decoded(names));
      && VaultNames.StrictlySorted(listed)
      && forall a :: a in listed <==> ValidUtf8(a) && Current(s.book, a).Some?
  {
    hide Aligned, Latest, Ledger, PcOk, Apart, Current, VaultNames.Sort, VaultNames.Decoded, VaultNames.Listed;
    hide VaultNames.EntryName, ValidUtf8, Leftover, VaultNames.StrictlySorted, Reads;
    NoStrays(s.disk, names);
    VaultNames.PlainListing(names);
    forall a ensures VaultNames.Holds(names, a) <==> ValidUtf8(a) && Current(s.book, a).Some? {
      assert Aligned(k, s, a);
      Visible(k, s, a);
    }
  }
}
