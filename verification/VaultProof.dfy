/** Every run of the file vaults is a run of the atomic vault. */
module VaultProof {
  import opened Bytes
  import opened VaultDisk
  import opened Sealing
  import opened VaultSpec
  import opened VaultMachine

  // ---------------------------------------------------------------------
  // The invariant
  // ---------------------------------------------------------------------

  /** A file that holds exactly the value `v`, durably; or no file and no value. */
  ghost predicate Matches(k: Kind, s: State, a: bytes, c: Option<ino>, v: Option<bytes>)
  {
    match c
    case None => v.None?
    case Some(i) => v.Some? && i in s.disk.synced && i in s.disk.data && Reads(k, s.seals, a, s.disk.data[i]) == v
  }

  /** What a crash may leave of an entry is what the history has since its floor. */
  ghost predicate Aligned(k: Kind, s: State, a: bytes)
  {
    var c, h, f := Candidates(s.disk, Entry(a)), History(s.book, a), Floor(s.book, a);
    f + |c| == |h| && forall j | 0 <= j < |c| :: Matches(k, s, a, c[j], h[f + j])
  }

  /** The value that a phase claims is in the history where the phase says. */
  predicate Recorded(b: Book, p: Phase)
  {
    p.Taken? ==>
      p.at < |History(b, p.op.alias)| &&
      match p.op
      case Put(_, v) => p.reply == Stored && History(b, p.op.alias)[p.at] == Some(v)
      case Delete(_) => p.reply == Removed && History(b, p.op.alias)[p.at] == None
      case Resolve(_) => p.reply == (match History(b, p.op.alias)[p.at] case None => Absent case Some(v) => Found(v))
  }

  /** The staged file of a put: its own, holding the first `n` bytes of a good record. */
  ghost predicate Staged(k: Kind, s: State, pc: Pc, n: nat)
    requires Staging(pc)
  {
    && Lookup(s.disk, Temp(pc.id)) == Some(pc.file)
    && pc.file in s.disk.data && n <= |pc.record| && s.disk.data[pc.file] == pc.record[..n]
    && Reads(k, s.seals, pc.alias, pc.record) == Some(pc.secret)
  }

  /** The file of an entry, once opened, goes on reading as a whole value. */
  ghost predicate Opened(k: Kind, s: State, a: bytes, file: ino)
  {
    file in s.disk.synced && file in s.disk.data && Reads(k, s.seals, a, s.disk.data[file]).Some?
  }

  ghost predicate PcOk(k: Kind, s: State, pc: Pc)
  {
    && Recorded(s.book, PhaseOf(pc))
    && (k.Keyed? && OwnsTemp(pc) ==> exists x | x in s.seals :: x.nonce == pc.id)
    && match pc
       case PutOpen(_, v) => |v| <= MAX_SECRET
       case PutCheck(a, v, file) => |v| <= MAX_SECRET && Opened(k, s, a, file)
       case DeleteCheck(a, file) => Opened(k, s, a, file)
       case PutCreate(_, v) => |v| <= MAX_SECRET
       case PutWrite(_, _, _, file, _, written) => Staged(k, s, pc, written) && file !in s.disk.synced
       case PutFsync(_, _, _, file, record) => Staged(k, s, pc, |record|) && file !in s.disk.synced
       case PutRename(_, _, _, file, record) => Staged(k, s, pc, |record|) && file in s.disk.synced
       case PutSync(_, phase) => phase.Taken? && phase.op.Put?
       case DeleteSync(phase) => phase.Taken? && phase.op.Delete?
       case ResolveRead(a, file, phase) =>
         && phase.Taken? && phase.op == Resolve(a) && phase.reply.Found?
         && Matches(k, s, a, Some(file), Some(phase.reply.secret))
       case Answer(phase, reply) => reply != Failed ==> phase.Taken? && phase.reply == reply && Durable(s.book, phase)
       case _ => true
  }

  predicate Apart(p: Pc, q: Pc)
  {
    && (OwnsTemp(p) && OwnsTemp(q) ==> p.id != q.id)
    && (Staging(p) && Staging(q) ==> p.file != q.file)
  }

  ghost predicate Inv(k: Kind, s: State)
  {
    && Latest(s.disk) && Ledger(s.seals)
    && (forall a :: Aligned(k, s, a))
    && (forall t | t in s.pcs :: PcOk(k, s, s.pcs[t]))
    && (forall t, u | t in s.pcs && u in s.pcs && t != u :: Apart(s.pcs[t], s.pcs[u]))
  }

  /** The atomic vault that a state stands for. */
  function Abs(s: State): (a: Spec) { Spec(s.book, map t | t in s.pcs :: PhaseOf(s.pcs[t])) }

  // ---------------------------------------------------------------------
  // What no step but a crash takes away
  // ---------------------------------------------------------------------

  ghost predicate Grows(s: State, s': State)
  {
    && s.seals <= s'.seals && Ledger(s'.seals)
    && (forall i | i in s.disk.synced && i in s.disk.data ::
          i in s'.disk.synced && i in s'.disk.data && s'.disk.data[i] == s.disk.data[i])
    && (forall a :: History(s.book, a) <= History(s'.book, a) && Floor(s.book, a) <= Floor(s'.book, a))
  }

  /** The staged file of `pc` is not touched. */
  ghost predicate Untouched(s: State, s': State, pc: Pc)
  {
    Staging(pc) && pc.file in s.disk.data ==>
      && Lookup(s'.disk, Temp(pc.id)) == Lookup(s.disk, Temp(pc.id))
      && pc.file in s'.disk.data && s'.disk.data[pc.file] == s.disk.data[pc.file]
      && (pc.file in s'.disk.synced <==> pc.file in s.disk.synced)
  }

  lemma ReadsMonotone(k: Kind, s: State, s': State, a: bytes, data: bytes)
    requires Grows(s, s') && Reads(k, s.seals, a, data).Some?
    ensures Reads(k, s'.seals, a, data) == Reads(k, s.seals, a, data)
  {
    if k.Keyed? {
      UnsealMonotone(s.seals, s'.seals, k.key, a, data);
    }
  }

  lemma MatchesStays(k: Kind, s: State, s': State, a: bytes, c: Option<ino>, v: Option<bytes>)
    requires Grows(s, s') && Matches(k, s, a, c, v)
    ensures Matches(k, s', a, c, v)
  {
    hide Reads, Ledger, History, Floor;
    if c.Some? {
      ReadsMonotone(k, s, s', a, s.disk.data[c.value]);
    }
  }

  /** Alignment outlives any step that leaves the entry and its history alone. */
  lemma AlignedStays(k: Kind, s: State, s': State, a: bytes)
    requires Grows(s, s') && Aligned(k, s, a)
    requires Candidates(s'.disk, Entry(a)) == Candidates(s.disk, Entry(a))
    requires History(s'.book, a) == History(s.book, a) && Floor(s'.book, a) == Floor(s.book, a)
    ensures Aligned(k, s', a)
  {
    hide Matches, Grows, Candidates, History, Floor;
    var c, h, f := Candidates(s.disk, Entry(a)), History(s.book, a), Floor(s.book, a);
    forall j | 0 <= j < |c| ensures Matches(k, s', a, c[j], h[f + j]) {
      MatchesStays(k, s, s', a, c[j], h[f + j]);
    }
  }

  lemma RecordedStays(s: State, s': State, p: Phase)
    requires Grows(s, s') && Recorded(s.book, p)
    ensures Recorded(s'.book, p)
    ensures p.Taken? && Durable(s.book, p) ==> Durable(s'.book, p)
  {
    hide Ledger, History, Floor;
    assert History(s.book, p.op.alias) <= History(s'.book, p.op.alias);
    assert Floor(s.book, p.op.alias) <= Floor(s'.book, p.op.alias);
  }

  lemma PcStays(k: Kind, s: State, s': State, pc: Pc)
    requires Grows(s, s') && Untouched(s, s', pc) && PcOk(k, s, pc)
    ensures PcOk(k, s', pc)
  {
    hide Reads, Ledger, Recorded, Durable, Lookup, History, Floor;
    RecordedStays(s, s', PhaseOf(pc));
    if Staging(pc) {
      ReadsMonotone(k, s, s', pc.alias, pc.record);
    } else if pc.ResolveRead? {
      MatchesStays(k, s, s', pc.alias, Some(pc.file), Some(pc.phase.reply.secret));
    } else if pc.PutCheck? || pc.DeleteCheck? {
      ReadsMonotone(k, s, s', pc.alias, s.disk.data[pc.file]);
    }
  }

  // ---------------------------------------------------------------------
  // Putting a step together
  // ---------------------------------------------------------------------

  /** The next pc owns nothing that the last one did not. */
  predicate Inherits(p: Pc, q: Pc)
  {
    && (OwnsTemp(q) ==> OwnsTemp(p) && q.id == p.id)
    && (Staging(q) ==> Staging(p) && q.file == p.file)
  }

  /** A step keeps the invariant and is a step of the atomic vault. */
  ghost predicate Simulated(k: Kind, s: State, n: State) { Inv(k, n) && SpecStep(Abs(s), Abs(n), Inner) }

  lemma NextInv(k: Kind, s: State, n: State, t: nat)
    requires Inv(k, s) && t in n.pcs && n.pcs == s.pcs[t := n.pcs[t]]
    requires Grows(s, n) && Latest(n.disk) && forall a :: Aligned(k, n, a)
    requires PcOk(k, n, n.pcs[t])
    requires forall u | u in s.pcs && u != t :: Untouched(s, n, s.pcs[u]) && Apart(n.pcs[t], s.pcs[u])
    ensures Inv(k, n)
  {
    hide Grows, Latest, Aligned, PcOk, Untouched, Ledger;
    assert Ledger(n.seals) by { GrowsLedger(s, n); }
    forall u | u in n.pcs ensures PcOk(k, n, n.pcs[u]) {
      if u != t { PcStays(k, s, n, s.pcs[u]); }
    }
    forall u, w | u in n.pcs && w in n.pcs && u != w ensures Apart(n.pcs[u], n.pcs[w]) {
      if u != t && w != t { assert Apart(s.pcs[u], s.pcs[w]); }
    }
  }

  lemma GrowsLedger(s: State, n: State)
    requires Grows(s, n)
    ensures Ledger(n.seals)
  {
  }

  lemma InheritsApart(k: Kind, s: State, t: nat, pc: Pc)
    requires Inv(k, s) && t in s.pcs && Inherits(s.pcs[t], pc)
    ensures forall u | u in s.pcs && u != t :: Apart(pc, s.pcs[u])
  {
    hide Latest, Aligned, PcOk, Ledger;
    forall u | u in s.pcs && u != t ensures Apart(pc, s.pcs[u]) {
      assert Apart(s.pcs[t], s.pcs[u]);
    }
  }

  lemma AbsGive(s: State, t: nat, pc: Pc)
    requires t in s.pcs
    ensures Abs(Give(s, t, pc)) == Abs(s).(phases := Abs(s).phases[t := PhaseOf(pc)])
    ensures PhaseOf(pc) == PhaseOf(s.pcs[t]) ==> Abs(Give(s, t, pc)) == Abs(s)
  {
  }

  /** A step that only moves the call on. */
  lemma QuietInv(k: Kind, s: State, t: nat, pc: Pc)
    requires Inv(k, s) && t in s.pcs && Inherits(s.pcs[t], pc) && PcOk(k, s, pc)
    ensures Inv(k, Give(s, t, pc))
  {
    hide Latest, Aligned, PcOk, Ledger, Apart, History, Floor;
    var n := Give(s, t, pc);
    assert Grows(s, n);
    forall a ensures Aligned(k, n, a) {
      assert Aligned(k, s, a);
      AlignedStays(k, s, n, a);
    }
    PcStays(k, s, n, pc);
    InheritsApart(k, s, t, pc);
    NextInv(k, s, n, t);
  }

  lemma Stutters(k: Kind, s: State, t: nat, pc: Pc)
    requires Inv(k, s) && t in s.pcs && Inherits(s.pcs[t], pc) && PcOk(k, s, pc) && PhaseOf(pc) == PhaseOf(s.pcs[t])
    ensures Simulated(k, s, Give(s, t, pc))
  {
    hide Inv, PcOk, Abs;
    QuietInv(k, s, t, pc);
    AbsGive(s, t, pc);
  }

  /** A step that makes a pending call effective. */
  lemma TakesEffect(k: Kind, s: State, n: State, t: nat, op: Op)
    requires Inv(k, n) && t in s.pcs && PhaseOf(s.pcs[t]) == Called(op)
    requires t in n.pcs && n.pcs == s.pcs[t := n.pcs[t]]
    requires (n.book, PhaseOf(n.pcs[t])) == Effect(s.book, op)
    ensures Simulated(k, s, n)
  {
    hide Inv, Effect;
    assert Abs(n).phases == Abs(s).phases[t := PhaseOf(n.pcs[t])];
    assert Abs(s).phases[t] == Called(op);
  }

  /** The visible entry is the current value. */
  lemma Visible(k: Kind, s: State, a: bytes)
    requires Latest(s.disk) && Aligned(k, s, a)
    ensures Matches(k, s, a, Lookup(s.disk, Entry(a)), Current(s.book, a))
  {
    hide Matches;
    var c, h, f := Candidates(s.disk, Entry(a)), History(s.book, a), Floor(s.book, a);
    assert c[|c| - 1] == Lookup(s.disk, Entry(a));
    assert Matches(k, s, a, c[|c| - 1], h[f + (|c| - 1)]);
  }

  /** An effect records what its phase claims, and only extends histories. */
  lemma EffectRecorded(b: Book, op: Op)
    ensures Recorded(Effect(b, op).0, Effect(b, op).1)
    ensures forall a :: History(b, a) <= History(Effect(b, op).0, a) && Floor(b, a) == Floor(Effect(b, op).0, a)
    ensures forall a | a != op.alias :: History(b, a) == History(Effect(b, op).0, a)
  {
  }

  // ---------------------------------------------------------------------
  // The steps
  // ---------------------------------------------------------------------

  lemma FailStep(k: Kind, s: State, t: nat)
    requires Inv(k, s) && t in s.pcs && !s.pcs[t].Answer?
    ensures Simulated(k, s, Give(s, t, Fail(s.pcs[t])))
  {
    hide Latest, Aligned, Ledger, Apart, Recorded, Simulated;
    assert PcOk(k, s, s.pcs[t]);
    Stutters(k, s, t, Fail(s.pcs[t]));
  }

  lemma LookStep(k: Kind, s: State, t: nat)
    requires Inv(k, s) && t in s.pcs && (s.pcs[t].PutOpen? || s.pcs[t].DeleteOpen?)
    ensures Simulated(k, s, LookTurn(s, t))
  {
    hide Latest, Aligned, Ledger, Apart, Simulated, Recorded, Effect, Matches, Opened, Current;
    var pc := s.pcs[t];
    assert PcOk(k, s, pc);
    var n := LookTurn(s, t);
    assert Aligned(k, s, pc.alias);
    Visible(k, s, pc.alias);
    if Entry(pc.alias) in s.disk.names {
      MatchOpens(k, s, pc.alias, s.disk.names[Entry(pc.alias)], Current(s.book, pc.alias));
      Stutters(k, s, t, n.pcs[t]);
    } else if pc.DeleteOpen? {
      AbsentDelete(k, s, pc.alias);
      EffectRecorded(s.book, Delete(pc.alias));
      QuietInv(k, s, t, n.pcs[t]);
      TakesEffect(k, s, n, t, Delete(pc.alias));
    } else {
      Stutters(k, s, t, n.pcs[t]);
    }
  }

  lemma MatchOpens(k: Kind, s: State, a: bytes, file: ino, v: Option<bytes>)
    requires Matches(k, s, a, Some(file), v)
    ensures Opened(k, s, a, file)
  {
    hide Reads;
  }

  lemma AbsentDelete(k: Kind, s: State, a: bytes)
    requires Matches(k, s, a, None, Current(s.book, a))
    ensures Effect(s.book, Delete(a)).0 == s.book && Effect(s.book, Delete(a)).1.op == Delete(a)
    ensures Effect(s.book, Delete(a)).1.Taken?
  {
  }

  lemma CheckStep(k: Kind, s: State, t: nat)
    requires Inv(k, s) && t in s.pcs && (s.pcs[t].PutCheck? || s.pcs[t].DeleteCheck?)
    ensures Simulated(k, s, CheckTurn(k, s, t))
  {
    hide Latest, Aligned, Ledger, Apart, Simulated, Recorded, Reads;
    assert PcOk(k, s, s.pcs[t]);
    var n := CheckTurn(k, s, t);
    Stutters(k, s, t, n.pcs[t]);
  }

  lemma StatStep(k: Kind, s: State, t: nat, fails: bool)
    requires Inv(k, s) && t in s.pcs && s.pcs[t].ResolveStat?
    requires fails ==> Entry(s.pcs[t].alias) !in s.disk.names
    ensures Simulated(k, s, StatTurn(s, t, fails))
  {
    hide Latest, Aligned, Ledger, Apart, Simulated, Recorded, Matches;
    var a := s.pcs[t].alias;
    assert PcOk(k, s, s.pcs[t]);
    var n := StatTurn(s, t, fails);
    if Entry(a) !in s.disk.names {
      AbsentResolve(k, s, t, a);
    } else {
      Stutters(k, s, t, n.pcs[t]);
    }
  }

  lemma AbsentResolve(k: Kind, s: State, t: nat, a: bytes)
    requires Inv(k, s) && t in s.pcs && PhaseOf(s.pcs[t]) == Called(Resolve(a)) && Entry(a) !in s.disk.names
    ensures Simulated(k, s, Give(s, t, Answer(Effect(s.book, Resolve(a)).1, Absent)))
  {
    hide Latest, Aligned, Ledger, Apart, Simulated, Recorded;
    var pc := Answer(Effect(s.book, Resolve(a)).1, Absent);
    assert Aligned(k, s, a);
    Visible(k, s, a);
    EffectRecorded(s.book, Resolve(a));
    assert PcOk(k, s, pc);
    QuietInv(k, s, t, pc);
    TakesEffect(k, s, Give(s, t, pc), t, Resolve(a));
  }

  lemma OpenStep(k: Kind, s: State, t: nat)
    requires Inv(k, s) && t in s.pcs && s.pcs[t].ResolveOpen?
    ensures Simulated(k, s, OpenTurn(k, s, t))
  {
    hide Latest, Aligned, Ledger, Apart, Simulated, Recorded, Reads;
    var a := s.pcs[t].alias;
    var n := OpenTurn(k, s, t);
    if Entry(a) in s.disk.names {
      assert Aligned(k, s, a);
      Visible(k, s, a);
      EffectRecorded(s.book, Resolve(a));
      assert PcOk(k, s, n.pcs[t]);
      QuietInv(k, s, t, n.pcs[t]);
      TakesEffect(k, s, n, t, Resolve(a));
    } else if k.Plain? {
      FailStep(k, s, t);
    } else {
      AbsentResolve(k, s, t, a);
    }
  }

  lemma ReadStep(k: Kind, s: State, t: nat)
    requires Inv(k, s) && t in s.pcs && s.pcs[t].ResolveRead?
    ensures Simulated(k, s, ReadTurn(k, s, t))
  {
    hide Latest, Aligned, Ledger, Apart, Simulated, Recorded, Reads;
    assert PcOk(k, s, s.pcs[t]);
    var n := ReadTurn(k, s, t);
    Stutters(k, s, t, n.pcs[t]);
  }

  /** A step on temporary files: entries, history and phases stay as they are. */
  lemma StagingStep(k: Kind, s: State, n: State, t: nat)
    requires Inv(k, s) && t in s.pcs && t in n.pcs && n.pcs == s.pcs[t := n.pcs[t]] && n.book == s.book
    requires Grows(s, n) && Latest(n.disk)
    requires forall a :: Candidates(n.disk, Entry(a)) == Candidates(s.disk, Entry(a))
    requires PcOk(k, n, n.pcs[t]) && PhaseOf(n.pcs[t]) == PhaseOf(s.pcs[t])
    requires forall u | u in s.pcs && u != t :: Untouched(s, n, s.pcs[u]) && Apart(n.pcs[t], s.pcs[u])
    ensures Simulated(k, s, n)
  {
    hide Latest, Aligned, PcOk, Ledger, Apart, Grows, Untouched, Candidates;
    forall a ensures Aligned(k, n, a) {
      assert Aligned(k, s, a);
      AlignedStays(k, s, n, a);
    }
    NextInv(k, s, n, t);
    assert Abs(n).phases == Abs(s).phases;
  }

  lemma FsyncStep(k: Kind, s: State, t: nat)
    requires Inv(k, s) && t in s.pcs && s.pcs[t].PutFsync?
    ensures Simulated(k, s, FsyncTurn(s, t))
  {
    hide Aligned, Ledger, Simulated, Recorded, Reads, History, Floor;
    var pc, n := s.pcs[t], FsyncTurn(s, t);
    assert PcOk(k, s, pc);
    assert Grows(s, n);
    RecordedStays(s, n, PhaseOf(pc));
    assert PcOk(k, n, n.pcs[t]);
    InheritsApart(k, s, t, n.pcs[t]);
    forall u | u in s.pcs && u != t ensures Untouched(s, n, s.pcs[u]) {
      assert Apart(pc, s.pcs[u]);
    }
    StagingStep(k, s, n, t);
  }

  lemma WriteStep(k: Kind, s: State, t: nat, c: Choice)
    requires Inv(k, s) && t in s.pcs && s.pcs[t].PutWrite? && s.pcs[t].written <= c.upto <= |s.pcs[t].record|
    ensures Simulated(k, s, WriteTurn(s, t, c))
  {
    hide Aligned, Ledger, Simulated, Recorded, Reads, History, Floor;
    var pc, n := s.pcs[t], WriteTurn(s, t, c);
    assert PcOk(k, s, pc);
    assert pc.record[..c.upto] == pc.record[..pc.written] + pc.record[pc.written..c.upto];
    assert n.disk.data[pc.file] == pc.record[..c.upto];
    assert Grows(s, n);
    RecordedStays(s, n, PhaseOf(pc));
    assert PcOk(k, n, n.pcs[t]);
    InheritsApart(k, s, t, n.pcs[t]);
    forall u | u in s.pcs && u != t ensures Untouched(s, n, s.pcs[u]) {
      assert Apart(pc, s.pcs[u]);
    }
    StagingStep(k, s, n, t);
  }

  lemma UndoStep(k: Kind, s: State, t: nat, fails: bool)
    requires Inv(k, s) && t in s.pcs && s.pcs[t].PutUndo?
    ensures Simulated(k, s, UndoTurn(s, t, fails))
  {
    hide Aligned, Ledger, Simulated, Recorded, Reads, History, Floor, Latest, Bind, Candidates, Lookup;
    var pc, n := s.pcs[t], UndoTurn(s, t, fails);
    if fails {
      assert PcOk(k, s, pc);
      Stutters(k, s, t, n.pcs[t]);
    } else if Temp(pc.id) in s.disk.names {
      assert PcOk(k, s, pc);
      BindLatest(s.disk, Temp(pc.id), None);
      assert Grows(s, n);
      RecordedStays(s, n, PhaseOf(pc));
      InheritsApart(k, s, t, n.pcs[t]);
      forall u | u in s.pcs && u != t ensures Untouched(s, n, s.pcs[u]) {
        assert Apart(pc, s.pcs[u]);
      }
      StagingStep(k, s, n, t);
    } else {
      assert PcOk(k, s, pc);
      Stutters(k, s, t, n.pcs[t]);
    }
  }

  /** A fresh seal keeps the ledger and makes its record readable. */
  lemma SealOne(seals: set<Seal>, x: Seal, a: bytes)
    requires Ledger(seals) && Proper(x) && (forall y | y in seals :: y.nonce != x.nonce)
    requires Aad(a) == Some(x.aad) && |x.plain| <= MAX_SECRET
    ensures Ledger(seals + {x}) && Unseal(seals + {x}, x.key, a, Record(x)) == Some(x.plain)
  {
    hide Unseal, Record, Aad;
    UnsealRecord(seals + {x}, x, a);
  }

  /** The new temporary file of a put, and the seals it was made under. */
  lemma CreatedStep(k: Kind, s: State, n: State, t: nat, pc: Pc)
    requires Inv(k, s) && t in s.pcs && s.pcs[t].PutCreate? && pc.PutWrite? && PhaseOf(pc) == PhaseOf(s.pcs[t])
    requires pc.written == 0 && pc.file !in s.disk.data && Temp(pc.id) !in s.disk.names
    requires s.seals <= n.seals && Ledger(n.seals) && Reads(k, n.seals, pc.alias, pc.record) == Some(pc.secret)
    requires k.Keyed? ==> exists x | x in n.seals :: x.nonce == pc.id
    requires FreshId(k, s, pc.id)
    requires n == Give(State(Create(s.disk, Temp(pc.id), pc.file), n.seals, s.pcs, s.book), t, pc)
    ensures Simulated(k, s, n)
  {
    hide Aligned, Ledger, Simulated, Recorded, Reads, History, Floor, Latest, Create, Candidates, Lookup;
    CreateLatest(s.disk, Temp(pc.id), pc.file);
    assert Grows(s, n);
    RecordedStays(s, n, PhaseOf(pc));
    assert PcOk(k, n, pc);
    forall u | u in s.pcs && u != t ensures Untouched(s, n, s.pcs[u]) && Apart(pc, s.pcs[u]) {
      assert PcOk(k, s, s.pcs[u]);
      assert OwnsTemp(s.pcs[u]) ==> s.pcs[u].id != pc.id;
    }
    StagingStep(k, s, n, t);
  }

  lemma CreateStep(k: Kind, s: State, t: nat, c: Choice)
    requires Inv(k, s) && t in s.pcs && s.pcs[t].PutCreate? && Allowed(k, s, t, c)
    ensures Simulated(k, s, CreateTurn(k, s, t, c))
  {
    hide Inv, Ledger, Simulated, Reads, Create, Fail, Record;
    var pc, n := s.pcs[t], CreateTurn(k, s, t, c);
    assert |pc.secret| <= MAX_SECRET && Ledger(s.seals) by { CreateFacts(k, s, t); }
    match k
    case Plain =>
      if c.fails || Temp(c.id) in s.disk.names {
        CollidedStep(k, s, t, c.id);
      } else {
        assert Reads(k, n.seals, pc.alias, pc.secret) == Some(pc.secret) by { PlainReads(k, n.seals, pc.alias, pc.secret); }
        CreatedStep(k, s, n, t, n.pcs[t]);
      }
    case Keyed(key) =>
      if Aad(pc.alias).None? {
        FailStep(k, s, t);
      } else {
        var x := Seal(key, c.id, Aad(pc.alias).value, c.cipher, c.tag, pc.secret);
        SealOne(s.seals, x, pc.alias);
        if c.fails || Temp(c.id) in s.disk.names {
          DrawnStep(k, s, t, s.seals + {x});
        } else {
          KeyedReads(k, n.seals, pc.alias, Record(x));
          assert x in n.seals && x.nonce == c.id;
          CreatedStep(k, s, n, t, n.pcs[t]);
        }
      }
  }

  lemma CreateFacts(k: Kind, s: State, t: nat)
    requires Inv(k, s) && t in s.pcs && s.pcs[t].PutCreate?
    ensures |s.pcs[t].secret| <= MAX_SECRET && Ledger(s.seals)
  {
    hide Ledger, Aligned, Latest;
    assert PcOk(k, s, s.pcs[t]);
  }

  lemma PlainReads(k: Kind, seals: set<Seal>, a: bytes, data: bytes)
    requires k.Plain?
    ensures Reads(k, seals, a, data) == Some(data)
  {
  }

  lemma KeyedReads(k: Kind, seals: set<Seal>, a: bytes, data: bytes)
    requires k.Keyed?
    ensures Reads(k, seals, a, data) == Unseal(seals, k.key, a, data)
  {
  }

  /** A plain writer whose name was taken goes on to remove it; no other live call uses that name. */
  lemma CollidedStep(k: Kind, s: State, t: nat, id: bytes)
    requires Inv(k, s) && t in s.pcs && s.pcs[t].PutCreate? && k.Plain? && FreshId(k, s, id)
    ensures Simulated(k, s, Give(s, t, PutUndo(id, PhaseOf(s.pcs[t]))))
  {
    hide Aligned, Ledger, Simulated, Recorded, History, Floor, Latest, Candidates, Lookup;
    var n := Give(s, t, PutUndo(id, PhaseOf(s.pcs[t])));
    assert PcOk(k, s, s.pcs[t]);
    StagingStep(k, s, n, t);
  }

  /** A seal that was drawn for nothing. */
  lemma DrawnStep(k: Kind, s: State, t: nat, seals: set<Seal>)
    requires Inv(k, s) && t in s.pcs && s.pcs[t].PutCreate? && s.seals <= seals && Ledger(seals)
    ensures Simulated(k, s, Give(s.(seals := seals), t, Fail(s.pcs[t])))
  {
    hide Aligned, Ledger, Simulated, Recorded, History, Floor, Latest, Candidates, Lookup;
    var n := Give(s.(seals := seals), t, Fail(s.pcs[t]));
    assert PcOk(k, s, s.pcs[t]);
    StagingStep(k, s, n, t);
  }

  // ---------------------------------------------------------------------
  // The steps that change entries
  // ---------------------------------------------------------------------

  /** A new binding of an entry goes with a new value in its history. */
  lemma AlignedExtends(k: Kind, s: State, n: State, a: bytes, c: Option<ino>, v: Option<bytes>)
    requires Grows(s, n) && Aligned(k, s, a) && Matches(k, n, a, c, v)
    requires Candidates(n.disk, Entry(a)) == Candidates(s.disk, Entry(a)) + [c]
    requires History(n.book, a) == History(s.book, a) + [v] && Floor(n.book, a) == Floor(s.book, a)
    ensures Aligned(k, n, a)
  {
    hide Matches, Grows, Candidates, History, Floor;
    var c0, h, f := Candidates(s.disk, Entry(a)), History(s.book, a), Floor(s.book, a);
    var c1, hn := Candidates(n.disk, Entry(a)), History(n.book, a);
    forall j | 0 <= j < |c1| ensures Matches(k, n, a, c1[j], hn[f + j]) {
      if j < |c0| {
        assert c1[j] == c0[j] && hn[f + j] == h[f + j];
        MatchesStays(k, s, n, a, c0[j], h[f + j]);
      }
    }
  }

  /** What binding an entry does to everybody else. */
  ghost predicate Rebound(s: State, n: State, a: bytes)
  {
    && Latest(n.disk) && n.disk.data == s.disk.data && n.disk.synced == s.disk.synced && n.seals == s.seals
    && (forall b | b != a :: Candidates(n.disk, Entry(b)) == Candidates(s.disk, Entry(b)))
    && (forall b | b != a :: History(n.book, b) == History(s.book, b))
    && (forall b :: History(s.book, b) <= History(n.book, b) && Floor(n.book, b) == Floor(s.book, b))
  }

  lemma ReboundStep(k: Kind, s: State, n: State, t: nat, op: Op)
    requires Inv(k, s) && t in s.pcs && t in n.pcs && n.pcs == s.pcs[t := n.pcs[t]]
    requires Rebound(s, n, op.alias) && Aligned(k, n, op.alias)
    requires PhaseOf(s.pcs[t]) == Called(op) && (n.book, PhaseOf(n.pcs[t])) == Effect(s.book, op)
    requires PcOk(k, n, n.pcs[t]) && Inherits(s.pcs[t], n.pcs[t])
    requires forall u | u in s.pcs && u != t && Staging(s.pcs[u]) ::
      Lookup(n.disk, Temp(s.pcs[u].id)) == Lookup(s.disk, Temp(s.pcs[u].id))
    ensures Simulated(k, s, n)
  {
    hide Aligned, Ledger, Simulated, History, Floor, Latest, Candidates, Lookup, PcOk, Effect, Apart, Inherits;
    assert Grows(s, n);
    forall b ensures Aligned(k, n, b) {
      if b != op.alias {
        assert Aligned(k, s, b);
        AlignedStays(k, s, n, b);
      }
    }
    InheritsApart(k, s, t, n.pcs[t]);
    NextInv(k, s, n, t);
    TakesEffect(k, s, n, t, op);
  }

  lemma RenameBinds(d: Disk, from: Name, a: bytes, i: ino)
    requires Latest(d) && Lookup(d, from) == Some(i) && !from.Entry?
    ensures var e := Rename(d, from, Entry(a));
      && Latest(e) && e.data == d.data && e.synced == d.synced
      && Candidates(e, Entry(a)) == Candidates(d, Entry(a)) + [Some(i)]
      && (forall b | b != a :: Candidates(e, Entry(b)) == Candidates(d, Entry(b)))
      && (forall id | Temp(id) != from :: Lookup(e, Temp(id)) == Lookup(d, Temp(id)))
  {
    hide Bind, Candidates, Latest;
    var e := Bind(d, Entry(a), Some(i));
    BindLatest(d, Entry(a), Some(i));
    BindLatest(e, from, None);
  }

  lemma RenameStep(k: Kind, s: State, t: nat)
    requires Inv(k, s) && t in s.pcs && s.pcs[t].PutRename?
    ensures Simulated(k, s, RenameTurn(s, t))
  {
    hide Aligned, Ledger, Simulated, History, Floor, Latest, Candidates, Reads, Rename, Effect, Recorded;
    var pc, n := s.pcs[t], RenameTurn(s, t);
    var op := Put(pc.alias, pc.secret);
    assert PcOk(k, s, pc);
    assert pc.record[..|pc.record|] == pc.record;
    RenameBinds(s.disk, Temp(pc.id), pc.alias, pc.file);
    PutEffect(s.book, op);
    EffectRecorded(s.book, op);
    assert Rebound(s, n, pc.alias);
    assert Aligned(k, s, pc.alias);
    AlignedExtends(k, s, n, pc.alias, Some(pc.file), Some(pc.secret));
    forall u | u in s.pcs && u != t && Staging(s.pcs[u])
      ensures Lookup(n.disk, Temp(s.pcs[u].id)) == Lookup(s.disk, Temp(s.pcs[u].id))
    {
      assert Apart(pc, s.pcs[u]);
    }
    ReboundStep(k, s, n, t, op);
  }

  lemma PutEffect(b: Book, op: Op)
    requires op.Put?
    ensures Effect(b, op).1 == Taken(op, Stored, |History(b, op.alias)|)
    ensures History(Effect(b, op).0, op.alias) == History(b, op.alias) + [Some(op.secret)]
  {
  }

  lemma DeleteEffect(b: Book, op: Op)
    requires op.Delete?
    ensures Effect(b, op).1.Taken? && Effect(b, op).1.op == op
    ensures History(Effect(b, op).0, op.alias) == History(b, op.alias) + (if Current(b, op.alias).None? then [] else [None])
  {
  }

  lemma UnlinkStep(k: Kind, s: State, t: nat)
    requires Inv(k, s) && t in s.pcs && s.pcs[t].DeleteUnlink?
    ensures Simulated(k, s, UnlinkTurn(s, t))
  {
    hide Aligned, Ledger, Simulated, History, Floor, Latest, Candidates, Reads, Effect, Recorded, Current, Bind;
    var pc, n := s.pcs[t], UnlinkTurn(s, t);
    var op := Delete(pc.alias);
    assert PcOk(k, s, pc);
    assert Aligned(k, s, pc.alias);
    Visible(k, s, pc.alias);
    DeleteEffect(s.book, op);
    EffectRecorded(s.book, op);
    if Entry(pc.alias) in s.disk.names {
      BindLatest(s.disk, Entry(pc.alias), None);
      assert Rebound(s, n, pc.alias);
      AlignedExtends(k, s, n, pc.alias, None, None);
    } else {
      assert n.disk == s.disk;
      assert History(n.book, pc.alias) == History(s.book, pc.alias) + [] == History(s.book, pc.alias);
      assert Rebound(s, n, pc.alias);
      AlignedStays(k, s, n, pc.alias);
    }
    ReboundStep(k, s, n, t, op);
  }

  /** Everything visible becomes durable. */
  lemma SettledAligned(k: Kind, s: State, n: State, a: bytes)
    requires Latest(s.disk) && Aligned(k, s, a) && Grows(s, n)
    requires n.disk == SyncDirectory(s.disk) && n.book == Settled(s.book)
    ensures Aligned(k, n, a)
  {
    hide Matches, Grows;
    Visible(k, s, a);
    MatchesStays(k, s, n, a, Lookup(s.disk, Entry(a)), Current(s.book, a));
  }

  lemma SettledFloor(k: Kind, s: State, a: bytes)
    requires Latest(s.disk) && Aligned(k, s, a)
    ensures Floor(s.book, a) <= Floor(Settled(s.book), a) == |History(s.book, a)| - 1
  {
    hide Matches;
  }

  lemma SyncStep(k: Kind, s: State, t: nat)
    requires Inv(k, s) && t in s.pcs && (s.pcs[t].PutSync? || s.pcs[t].DeleteSync?)
    ensures Simulated(k, s, SyncTurn(s, t))
  {
    hide Aligned, Ledger, History, Floor, Reads, PhaseOf, Settled, Apart;
    var pc, n := s.pcs[t], SyncTurn(s, t);
    assert PcOk(k, s, pc);
    forall a
      ensures Floor(s.book, a) <= Floor(n.book, a) == |History(s.book, a)| - 1 && History(n.book, a) == History(s.book, a)
    {
      assert Aligned(k, s, a);
      SettledFloor(k, s, a);
      SettledHistory(s.book, a);
    }
    assert Grows(s, n);
    forall a ensures Aligned(k, n, a) {
      assert Aligned(k, s, a);
      SettledAligned(k, s, n, a);
    }
    SyncAnswers(k, s, n, t);
    InheritsApart(k, s, t, n.pcs[t]);
    NextInv(k, s, n, t);
    assert Settles(s.book, n.book) by { SettledValues(s.book); }
    assert Abs(n).phases == Abs(s).phases by { SyncPhases(s, t); }
  }

  lemma SettledHistory(b: Book, a: bytes)
    ensures History(Settled(b), a) == History(b, a)
  {
  }

  lemma SettledValues(b: Book)
    ensures Settled(b).values == b.values
  {
  }

  lemma SyncPhases(s: State, t: nat)
    requires t in s.pcs && (s.pcs[t].PutSync? || s.pcs[t].DeleteSync?)
    ensures Abs(SyncTurn(s, t)).phases == Abs(s).phases
  {
  }

  lemma SyncAnswers(k: Kind, s: State, n: State, t: nat)
    requires t in s.pcs && (s.pcs[t].PutSync? || s.pcs[t].DeleteSync?) && PcOk(k, s, s.pcs[t]) && Grows(s, n)
    requires n == SyncTurn(s, t)
    requires forall a :: Floor(n.book, a) == |History(s.book, a)| - 1
    ensures PcOk(k, n, n.pcs[t])
  {
    hide Ledger, History, Floor, Settled, Grows;
    var phase := s.pcs[t].phase;
    RecordedStays(s, n, phase);
    assert Floor(n.book, phase.op.alias) == |History(s.book, phase.op.alias)| - 1;
  }

  // ---------------------------------------------------------------------
  // Every step
  // ---------------------------------------------------------------------

  lemma TurnStep(k: Kind, s: State, t: nat, c: Choice)
    requires Inv(k, s) && t in s.pcs && !s.pcs[t].Answer? && Allowed(k, s, t, c) && StatWorks(s, t, c)
    ensures Simulated(k, s, Turn(k, s, t, c))
  {
    hide Inv, Simulated, UndoTurn, StatTurn, CreateTurn, LookTurn, WriteTurn, FsyncTurn, RenameTurn, OpenTurn;
    hide ReadTurn, UnlinkTurn, SyncTurn, CheckTurn, Give, Fail;
    var pc := s.pcs[t];
    if pc.PutUndo? {
      UndoStep(k, s, t, c.fails);
    } else if pc.ResolveStat? {
      StatStep(k, s, t, c.fails);
    } else if pc.PutCreate? {
      CreateStep(k, s, t, c);
    } else if c.fails {
      FailStep(k, s, t);
    } else if pc.PutOpen? || pc.DeleteOpen? {
      LookStep(k, s, t);
    } else if pc.PutWrite? {
      WriteStep(k, s, t, c);
    } else if pc.PutFsync? {
      FsyncStep(k, s, t);
    } else if pc.PutRename? {
      RenameStep(k, s, t);
    } else if pc.ResolveOpen? {
      OpenStep(k, s, t);
    } else if pc.ResolveRead? {
      ReadStep(k, s, t);
    } else if pc.DeleteUnlink? {
      UnlinkStep(k, s, t);
    } else if pc.PutSync? || pc.DeleteSync? {
      SyncStep(k, s, t);
    } else {
      CheckStep(k, s, t);
    }
  }

  lemma CallStep(k: Kind, s: State, s': State, t: nat, op: Op)
    requires Inv(k, s) && Step(k, s, s', Call(t, op))
    ensures Inv(k, s') && SpecStep(Abs(s), Abs(s'), Call(t, op))
  {
    hide Aligned, Ledger, History, Floor, Latest, PcOk, Begin;
    assert Grows(s, s');
    forall a ensures Aligned(k, s', a) {
      assert Aligned(k, s, a);
      AlignedStays(k, s, s', a);
    }
    Begins(k, s', op);
    NextInv(k, s, s', t);
    assert Abs(s').phases == Abs(s).phases[t := Called(op)];
  }

  lemma Begins(k: Kind, s: State, op: Op)
    ensures PcOk(k, s, Begin(k, op)) && !OwnsTemp(Begin(k, op)) && PhaseOf(Begin(k, op)) == Called(op)
  {
    hide Reads, History, Floor;
  }

  lemma ReturnStep(k: Kind, s: State, s': State, t: nat, reply: Reply)
    requires Inv(k, s) && Step(k, s, s', Return(t, reply))
    ensures Inv(k, s') && SpecStep(Abs(s), Abs(s'), Return(t, reply))
  {
    hide Aligned, Ledger, History, Floor, Latest, Apart, PcOk, Durable;
    assert Grows(s, s');
    forall a ensures Aligned(k, s', a) {
      assert Aligned(k, s, a);
      AlignedStays(k, s, s', a);
    }
    forall u | u in s'.pcs ensures PcOk(k, s', s'.pcs[u]) {
      PcStays(k, s, s', s.pcs[u]);
    }
    if reply != Failed { AnswerDurable(k, s, s.pcs[t]); }
    assert Abs(s').phases == Abs(s).phases - {t};
  }

  lemma AnswerDurable(k: Kind, s: State, pc: Pc)
    requires PcOk(k, s, pc) && pc.Answer? && pc.reply != Failed
    ensures pc.phase.Taken? && pc.phase.reply == pc.reply && Durable(s.book, pc.phase) && Recorded(s.book, pc.phase)
  {
    hide Recorded, Durable, Reads;
  }

  /** A crash leaves every entry at some value it has had since its floor, whole. */
  lemma CrashAligned(k: Kind, s: State, s': State, pick: map<Name, nat>, a: bytes)
    requires Latest(s.disk) && Aligned(k, s, a) && Crashes(s.disk, s'.disk, pick)
    requires s'.seals == s.seals && s'.book == Truncated(s.book, pick)
    ensures Aligned(k, s', a)
    ensures Floor(s.book, a) <= Floor(s'.book, a) < |History(s.book, a)|
    ensures History(s'.book, a) == History(s.book, a)[..Floor(s'.book, a) + 1]
  {
    hide Reads, Crashes, Truncated, Matches;
    var c, h, f := Candidates(s.disk, Entry(a)), History(s.book, a), Floor(s.book, a);
    var j := CrashPicks(s.disk, s'.disk, pick, Entry(a));
    assert Matches(k, s, a, c[j], h[f + j]);
    CrashMatches(k, s, s', pick, a, c[j], h[f + j]);
    CrashHistory(s.book, pick, a, j);
  }

  lemma CrashPicks(d: Disk, e: Disk, pick: map<Name, nat>, n: Name) returns (j: nat)
    requires Crashes(d, e, pick) && Latest(d)
    ensures j < |Candidates(d, n)| && Candidates(e, n) == [Candidates(d, n)[j]]
    ensures j == if n in pick then pick[n] else 0
  {
    j := if n in pick then pick[n] else 0;
  }

  lemma CrashMatches(k: Kind, s: State, s': State, pick: map<Name, nat>, a: bytes, c: Option<ino>, v: Option<bytes>)
    requires Matches(k, s, a, c, v) && Crashes(s.disk, s'.disk, pick) && s'.seals == s.seals
    ensures Matches(k, s', a, c, v)
  {
    hide Reads;
  }

  lemma CrashHistory(b: Book, pick: map<Name, nat>, a: bytes, j: nat)
    requires Floor(b, a) + j < |History(b, a)| && j == if Entry(a) in pick then pick[Entry(a)] else 0
    ensures var c := Truncated(b, pick);
      Floor(c, a) == Floor(b, a) + j && History(c, a) == History(b, a)[..Floor(b, a) + j + 1]
  {
  }

  lemma CrashStep(k: Kind, s: State, s': State)
    requires Inv(k, s) && Step(k, s, s', Crash)
    ensures Inv(k, s') && SpecStep(Abs(s), Abs(s'), Crash)
  {
    hide Aligned, Ledger, PcOk, Apart, History, Floor, Truncated, Crashes;
    var pick :| Crashes(s.disk, s'.disk, pick) && s'.book == Truncated(s.book, pick);
    forall a
      ensures Aligned(k, s', a) && Floor(s.book, a) <= Floor(s'.book, a) < |History(s.book, a)|
      ensures History(s'.book, a) == History(s.book, a)[..Floor(s'.book, a) + 1]
    {
      assert Aligned(k, s, a);
      CrashAligned(k, s, s', pick, a);
    }
    assert Latest(s'.disk) by { assert s'.disk.recent == map[] by { CrashForgets(s.disk, s'.disk, pick); } }
    assert Abs(s').phases == map[];
  }

  lemma CrashForgets(d: Disk, e: Disk, pick: map<Name, nat>)
    requires Crashes(d, e, pick)
    ensures e.recent == map[]
  {
  }

  /** Every step of the files keeps the invariant and is a step of the atomic vault with the same label. */
  lemma EveryStep(k: Kind, s: State, s': State, l: Label)
    requires Inv(k, s) && Step(k, s, s', l)
    ensures Inv(k, s') && SpecStep(Abs(s), Abs(s'), l)
  {
    hide Inv, SpecStep, Abs, Turn, Allowed;
    match l
    case Call(t, op) => CallStep(k, s, s', t, op);
    case Return(t, reply) => ReturnStep(k, s, s', t, reply);
    case Inner =>
      var t, c :| t in s.pcs && !s.pcs[t].Answer? && Allowed(k, s, t, c) && StatWorks(s, t, c) && s' == Turn(k, s, t, c);
      TurnStep(k, s, t, c);
    case Crash => CrashStep(k, s, s');
  }

  // ---------------------------------------------------------------------
  // Every run
  // ---------------------------------------------------------------------

  /** Linearizability, through crashes: whatever the interleaving, the calls and replies are those
      of a run of the atomic vault. */
  lemma {:induction false} Linearizable(k: Kind, states: seq<State>, labels: seq<Label>) returns (spec: seq<Spec>)
    requires Run(k, states, labels) && Inv(k, states[0])
    ensures SpecRun(spec, labels) && |spec| == |states|
    ensures forall i | 0 <= i < |states| :: Inv(k, states[i]) && spec[i] == Abs(states[i])
    decreases |labels|
  {
    hide Inv, Step, SpecStep, Abs;
    if labels == [] {
      spec := [Abs(states[0])];
    } else {
      var last := |labels| - 1;
      assert Step(k, states[last], states[last + 1], labels[last]);
      assert forall i | 0 <= i < last :: labels[..last][i] == labels[i];
      assert Run(k, states[..last + 1], labels[..last]);
      var before := Linearizable(k, states[..last + 1], labels[..last]);
      assert Inv(k, states[..last + 1][last]) && before[last] == Abs(states[..last + 1][last]);
      EveryStep(k, states[last], states[last + 1], labels[last]);
      spec := before + [Abs(states[last + 1])];
      forall i | 0 <= i < |labels| ensures SpecStep(spec[i], spec[i + 1], labels[i]) {
        if i < last {
          assert SpecStep(before[i], before[i + 1], labels[..last][i]);
        }
      }
      forall i | 0 <= i < |states| ensures Inv(k, states[i]) && spec[i] == Abs(states[i]) {
        if i < |states| - 1 {
          assert Inv(k, states[..last + 1][i]) && before[i] == Abs(states[..last + 1][i]);
        }
      }
    }
  }
}
