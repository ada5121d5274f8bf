/** What a call of the file vaults is answered when nothing goes wrong for it, and what it
    leaves in the directory when something does, over every run. */
module VaultAnswers {
  import opened Bytes
  import opened VaultDisk
  import opened Sealing
  import opened VaultSpec
  import opened VaultMachine
  import opened VaultProof
  import opened VaultTraces
  import opened VaultRuns

  // ---------------------------------------------------------------------
  // Answers
  // ---------------------------------------------------------------------

  /** A put above the size limit: the one call that is refused out of hand. */
  predicate TooLarge(op: Op) { op.Put? && |op.secret| > 524288 }

  /** The answer of a call that meets no failure. */
  predicate Answers(op: Op, reply: Reply)
  {
    if TooLarge(op) then reply == Failed
    else
      match op
      case Put(_, _) => reply == Stored
      case Delete(_) => reply == Removed
      case Resolve(_) => reply.Found? || reply == Absent
  }

  /** The only reasons to fail that a call can have though no file operation failed: a temporary name that
      is taken, an alias too long to seal, and a plain entry that is oversized, or vanishes between its
      inspection and its opening. */
  ghost predicate Excused(k: Kind, s: State, t: nat, c: Choice)
    requires t in s.pcs
  {
    var pc := s.pcs[t];
    || (pc.PutCreate? && (Temp(c.id) in s.disk.names || (k.Keyed? && |pc.alias| >= 4294967296)))
    || (k.Plain? && pc.ResolveOpen? && Entry(pc.alias) !in s.disk.names)
    || (k.Plain? && pc.ResolveStat? && Entry(pc.alias) in s.disk.names && s.disk.names[Entry(pc.alias)] in s.disk.data
        && |s.disk.data[s.disk.names[Entry(pc.alias)]]| > 524288)
  }

  /** In this step no file operation of call `t` fails, and it has no reason to give up. */
  ghost predicate Smooth(k: Kind, s: State, s': State, l: Label, t: nat)
  {
    l.Inner? ==>
      exists u, c | u in s.pcs ::
        && !s.pcs[u].Answer? && Allowed(k, s, u, c) && s' == Turn(k, s, u, c)
        && (u == t ==> !c.fails && !Excused(k, s, t, c))
  }

  /** Where a call stands that has met no failure. */
  predicate OnCourse(k: Kind, op: Op, pc: Pc)
  {
    match pc
    case Answer(_, reply) => Answers(op, reply)
    case PutUndo(_, _) => false
    case ResolveStat(_) => op.Resolve? && k.Plain?
    case ResolveOpen(_) => op.Resolve?
    case ResolveRead(_, _, _) => op.Resolve?
    case DeleteOpen(_) => op.Delete?
    case DeleteCheck(_, _) => op.Delete?
    case DeleteUnlink(_) => op.Delete?
    case DeleteSync(_) => op.Delete?
    case _ => op.Put? && !TooLarge(op)
  }

  lemma CallOnCourse(k: Kind, s: State, s': State, t: nat, op: Op)
    requires Step(k, s, s', Call(t, op))
    ensures t in s'.pcs && OnCourse(k, op, s'.pcs[t])
  {
  }

  lemma TurnOnCourse(k: Kind, s: State, t: nat, c: Choice, op: Op)
    requires Inv(k, s) && t in s.pcs && !s.pcs[t].Answer? && Allowed(k, s, t, c) && !c.fails && !Excused(k, s, t, c)
    requires OnCourse(k, op, s.pcs[t])
    ensures t in Turn(k, s, t, c).pcs && OnCourse(k, op, Turn(k, s, t, c).pcs[t])
  {
    hide Inv, Reads, Create, Rename, Bind, Unlink, Append, Effect, Record;
    assert !HasReason(k, s, t, c);
    NoSpuriousFailure(k, s, t, c);
  }

  /** A turn of one call leaves the others where they stand. */
  lemma OthersStand(k: Kind, s: State, u: nat, c: Choice, t: nat)
    requires u in s.pcs && !s.pcs[u].Answer? && Allowed(k, s, u, c) && t in s.pcs && t != u
    ensures t in Turn(k, s, u, c).pcs && Turn(k, s, u, c).pcs[t] == s.pcs[t]
  {
    hide Reads, Create, Rename, Bind, Unlink, Append, Effect, Record;
  }

  lemma StepOnCourse(k: Kind, s: State, s': State, l: Label, t: nat, op: Op)
    requires Inv(k, s) && Step(k, s, s', l) && Smooth(k, s, s', l, t) && !Ends(l, t)
    requires t in s.pcs && OnCourse(k, op, s.pcs[t])
    ensures t in s'.pcs && OnCourse(k, op, s'.pcs[t])
  {
    hide Inv, Turn, OnCourse, Excused, Allowed, Begin;
    if l.Inner? {
      var u, c :| u in s.pcs && !s.pcs[u].Answer? && Allowed(k, s, u, c) && s' == Turn(k, s, u, c)
        && (u == t ==> !c.fails && !Excused(k, s, t, c));
      if u == t { TurnOnCourse(k, s, t, c, op); } else { OthersStand(k, s, u, c, t); }
    }
  }

  /** A call made at `h` and not answered by `m`, with no failure of its own since. */
  lemma {:induction false} StaysOnCourse(k: Kind, states: seq<State>, labels: seq<Label>, h: nat, m: nat, t: nat, op: Op)
    requires Run(k, states, labels) && Inv(k, states[0]) && h < m < |states| && labels[h] == Call(t, op)
    requires forall x | h < x < m :: !Ends(labels[x], t) && Smooth(k, states[x], states[x + 1], labels[x], t)
    ensures t in states[m].pcs && OnCourse(k, op, states[m].pcs[t])
    decreases m
  {
    hide Run, Inv, OnCourse, Step, Smooth, Ends;
    StepAt(k, states, labels, m - 1);
    if m == h + 1 {
      CallOnCourse(k, states[h], states[m], t, op);
    } else {
      StaysOnCourse(k, states, labels, h, m - 1, t, op);
      InvAt(k, states, labels, m - 1);
      assert Smooth(k, states[m - 1], states[m - 1 + 1], labels[m - 1], t);
      StepOnCourse(k, states[m - 1], states[m], labels[m - 1], t, op);
    }
  }

  lemma StepAt(k: Kind, states: seq<State>, labels: seq<Label>, i: nat)
    requires Run(k, states, labels) && i + 1 < |states|
    ensures i < |labels| && Step(k, states[i], states[i + 1], labels[i])
  {
    hide Step;
  }

  lemma InvAt(k: Kind, states: seq<State>, labels: seq<Label>, i: nat)
    requires Run(k, states, labels) && Inv(k, states[0]) && i < |states|
    ensures Inv(k, states[i])
  {
    hide Run, Inv, SpecRun;
    var spec := Linearizable(k, states, labels);
  }

  /** A call that meets no failing file operation and has none of the listed reasons to give up is
      answered as it should be: it fails if and only if it is a put of more than 524288 bytes. */
  lemma AnsweredRight(k: Kind, states: seq<State>, labels: seq<Label>, h: nat, i: nat, t: nat, op: Op, reply: Reply)
    requires Run(k, states, labels) && Inv(k, states[0]) && h < i < |labels|
    requires labels[h] == Call(t, op) && labels[i] == Return(t, reply)
    requires forall x | h < x < i :: !Ends(labels[x], t) && Smooth(k, states[x], states[x + 1], labels[x], t)
    ensures reply == Failed <==> op.Put? && |op.secret| > 524288
    ensures reply != Failed ==>
      match op
      case Put(_, _) => reply == Stored
      case Delete(_) => reply == Removed
      case Resolve(_) => reply.Found? || reply == Absent
  {
    hide Inv, Smooth, Begin, Turn;
    assert |states| == |labels| + 1;
    StaysOnCourse(k, states, labels, h, i, t, op);
    assert Step(k, states[i], states[i + 1], labels[i]);
  }

  // ---------------------------------------------------------------------
  // Nothing is left lying about
  // ---------------------------------------------------------------------

  /** Every temporary file was there before, or belongs to a call in progress; and a call that is past
      its rename has none. */
  ghost predicate Tidy(s: State, before: set<bytes>)
  {
    && (forall id | Temp(id) in s.disk.names :: id in before || exists t | t in s.pcs :: Owns(s.pcs[t], id))
    && (forall t | t in s.pcs && s.pcs[t].PutSync? :: Temp(s.pcs[t].id) !in s.disk.names)
  }

  predicate Owns(pc: Pc, id: bytes) { OwnsTemp(pc) && pc.id == id }

  /** The step is no crash, and no removal of a temporary file fails. */
  ghost predicate Removes(k: Kind, s: State, s': State, l: Label)
  {
    && !l.Crash?
    && (l.Inner? ==>
          exists u, c | u in s.pcs ::
            !s.pcs[u].Answer? && Allowed(k, s, u, c) && s' == Turn(k, s, u, c) && (s.pcs[u].PutUndo? ==> !c.fails))
  }

  /** What a turn from `s` to `n` does to temporary names: it binds one that it goes on to own, or drops its own. */
  ghost predicate Handles(s: State, n: State, t: nat, c: Choice)
    requires t in s.pcs
  {
    && t in n.pcs && n.pcs == s.pcs[t := n.pcs[t]]
    && (forall id | Temp(id) in n.disk.names ::
          Temp(id) in s.disk.names || (s.pcs[t].PutCreate? && c.id == id && Owns(n.pcs[t], id)))
    && (OwnsTemp(s.pcs[t]) && !s.pcs[t].PutSync? ==> Owns(n.pcs[t], s.pcs[t].id) || Temp(s.pcs[t].id) !in n.disk.names)
    && (n.pcs[t].PutSync? ==> Temp(n.pcs[t].id) !in n.disk.names)
  }

  lemma CreateNames(k: Kind, s: State, t: nat, c: Choice)
    requires t in s.pcs && s.pcs[t].PutCreate?
    ensures Handles(s, CreateTurn(k, s, t, c), t, c)
  {
    hide Record;
  }

  lemma EntryNames(s: State, t: nat, c: Choice)
    requires t in s.pcs
    ensures s.pcs[t].PutRename? ==> Handles(s, RenameTurn(s, t), t, c)
    ensures s.pcs[t].DeleteUnlink? ==> Handles(s, UnlinkTurn(s, t), t, c)
    ensures s.pcs[t].PutUndo? ==> Handles(s, UndoTurn(s, t, false), t, c)
  {
    hide Effect;
  }

  /** Every other turn leaves all names alone. */
  lemma OtherNames(k: Kind, s: State, t: nat, c: Choice)
    requires t in s.pcs && !s.pcs[t].Answer? && Allowed(k, s, t, c) && !s.pcs[t].PutCreate? && !s.pcs[t].PutUndo?
    requires c.fails || (!s.pcs[t].PutRename? && !s.pcs[t].DeleteUnlink?)
    ensures var n := Turn(k, s, t, c);
      && t in n.pcs && n.pcs == s.pcs[t := n.pcs[t]] && n.disk.names == s.disk.names
      && !n.pcs[t].PutSync? && (OwnsTemp(s.pcs[t]) && !s.pcs[t].PutSync? ==> Owns(n.pcs[t], s.pcs[t].id))
  {
    hide Reads, Effect, FreshId, CreateTurn, RenameTurn, UnlinkTurn, UndoTurn;
  }

  lemma TurnNames(k: Kind, s: State, t: nat, c: Choice)
    requires t in s.pcs && !s.pcs[t].Answer? && Allowed(k, s, t, c) && (s.pcs[t].PutUndo? ==> !c.fails)
    ensures Handles(s, Turn(k, s, t, c), t, c)
  {
    if s.pcs[t].PutCreate? {
      hide Handles, CreateTurn, Allowed;
      CreateNames(k, s, t, c);
    } else if s.pcs[t].PutUndo? || (!c.fails && (s.pcs[t].PutRename? || s.pcs[t].DeleteUnlink?)) {
      hide Handles, RenameTurn, UnlinkTurn, UndoTurn, Allowed;
      EntryNames(s, t, c);
    } else {
      hide Turn, Allowed;
      OtherNames(k, s, t, c);
    }
  }

  lemma TurnTidy(k: Kind, s: State, t: nat, c: Choice, before: set<bytes>)
    requires Inv(k, s) && Tidy(s, before)
    requires t in s.pcs && !s.pcs[t].Answer? && Allowed(k, s, t, c) && (s.pcs[t].PutUndo? ==> !c.fails)
    ensures Tidy(Turn(k, s, t, c), before)
  {
    hide Turn, Aligned, Latest, Ledger, Apart, Recorded, PcOk;
    TurnNames(k, s, t, c);
    var n := Turn(k, s, t, c);
    forall id | Temp(id) in n.disk.names ensures id in before || exists u | u in n.pcs :: Owns(n.pcs[u], id) {
      if Temp(id) in s.disk.names && id !in before {
        var u :| u in s.pcs && Owns(s.pcs[u], id);
        if u != t { assert Owns(n.pcs[u], id); } else { assert Owns(n.pcs[t], id); }
      } else if id !in before {
        assert Owns(n.pcs[t], id);
      }
    }
    forall u | u in n.pcs && n.pcs[u].PutSync? ensures Temp(n.pcs[u].id) !in n.disk.names {
      if u != t && s.pcs[t].PutCreate? { DrawnElsewhere(k, s, t, u, c); }
    }
  }

  /** A fresh temporary name is not that of a call in progress. */
  lemma DrawnElsewhere(k: Kind, s: State, t: nat, u: nat, c: Choice)
    requires Inv(k, s) && t in s.pcs && s.pcs[t].PutCreate? && Allowed(k, s, t, c) && u in s.pcs && OwnsTemp(s.pcs[u])
    ensures s.pcs[u].id != c.id
  {
    hide Aligned, Latest, Ledger, Apart, Recorded, Staged;
    assert PcOk(k, s, s.pcs[u]);
  }

  lemma StepTidy(k: Kind, s: State, s': State, l: Label, before: set<bytes>)
    requires Inv(k, s) && Step(k, s, s', l) && Removes(k, s, s', l) && Tidy(s, before)
    ensures Tidy(s', before)
  {
    hide Inv, Turn, Allowed;
    if l.Inner? {
      var u, c :| u in s.pcs && !s.pcs[u].Answer? && Allowed(k, s, u, c) && s' == Turn(k, s, u, c) && (s.pcs[u].PutUndo? ==> !c.fails);
      TurnTidy(k, s, u, c, before);
    } else {
      forall id | Temp(id) in s'.disk.names ensures id in before || exists t | t in s'.pcs :: Owns(s'.pcs[t], id) {
        if id !in before {
          var t :| t in s.pcs && Owns(s.pcs[t], id);
          assert Owns(s'.pcs[t], id);
        }
      }
    }
  }

  /** However calls fail, every temporary file that is there with no call in progress was there at the
      start, as long as nothing crashed and every removal of a temporary file worked. */
  lemma {:induction false} LeavesNoLitter(k: Kind, states: seq<State>, labels: seq<Label>, i: nat, before: set<bytes>)
    requires Run(k, states, labels) && Inv(k, states[0]) && i < |states| && states[0].pcs == map[]
    requires forall id | Temp(id) in states[0].disk.names :: id in before
    requires forall x | 0 <= x < i :: Removes(k, states[x], states[x + 1], labels[x])
    ensures Tidy(states[i], before)
    ensures states[i].pcs == map[] ==> forall id | Temp(id) in states[i].disk.names :: id in before
  {
    hide Run, Inv, Step, Removes;
    if i > 0 {
      LeavesNoLitter(k, states, labels, i - 1, before);
      InvAt(k, states, labels, i - 1);
      StepAt(k, states, labels, i - 1);
      assert Removes(k, states[i - 1], states[i - 1 + 1], labels[i - 1]);
      StepTidy(k, states[i - 1], states[i], labels[i - 1], before);
    }
  }
}
