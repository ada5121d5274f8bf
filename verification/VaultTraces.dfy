/** What runs of the atomic vault promise about single calls: when a call took effect, that a
    lone acknowledged writer is still there, and where answers come from. */
module VaultTraces {
  import opened Bytes
  import opened VaultSpec

  /** The value that a put or delete leaves. */
  function Left(op: Op): (v: Option<bytes>)
    requires !op.Resolve?
  {
    if op.Put? then Some(op.secret) else None
  }

  predicate Writes(op: Op, a: bytes) { !op.Resolve? && op.alias == a }

  /** The label ends call `t`. */
  predicate Ends(l: Label, t: nat) { l.Crash? || (l.Return? && l.thread == t) }

  // ---------------------------------------------------------------------
  // One call
  // ---------------------------------------------------------------------

  /** A call in progress stays as it is, or takes effect, and histories only grow. */
  lemma PhaseStep(s: Spec, s': Spec, l: Label, t: nat, a: bytes)
    requires SpecStep(s, s', l) && t in s.phases && !Ends(l, t)
    ensures t in s'.phases && History(s.book, a) <= History(s'.book, a)
    ensures s'.phases[t] == s.phases[t]
         || (s.phases[t].Called? && (s'.book, s'.phases[t]) == Effect(s.book, s.phases[t].op))
  {
  }

  /** The effect of a call falls between the call and its answer. */
  lemma {:induction false} TakenAfterCall(states: seq<Spec>, labels: seq<Label>, h: nat, m: nat, t: nat, op: Op)
    requires SpecRun(states, labels) && h < m < |states| && labels[h] == Call(t, op)
    requires forall x | h < x < m :: !Ends(labels[x], t)
    ensures t in states[m].phases && states[m].phases[t].op == op
    ensures History(states[h].book, op.alias) <= History(states[m].book, op.alias)
    ensures var p := states[m].phases[t];
      p.Taken? ==>
        |History(states[h].book, op.alias)| <= p.at + 1 && (op.Put? ==> |History(states[h].book, op.alias)| <= p.at)
    decreases m
  {
    hide SpecStep, Effect, History;
    assert SpecStep(states[m - 1], states[m - 1 + 1], labels[m - 1]);
    if m == h + 1 {
      CallStarts(states[h], states[m], t, op);
    } else {
      TakenAfterCall(states, labels, h, m - 1, t, op);
      PhaseStep(states[m - 1], states[m], labels[m - 1], t, op.alias);
      EffectAt(states[m - 1].book, op);
    }
  }

  lemma CallStarts(s: Spec, s': Spec, t: nat, op: Op)
    requires SpecStep(s, s', Call(t, op))
    ensures s'.book == s.book && s'.phases == s.phases[t := Called(op)] && t !in s.phases
  {
  }

  lemma EffectAt(b: Book, op: Op)
    ensures var (c, p) := Effect(b, op);
      && p.Taken? && p.op == op && |History(b, op.alias)| <= p.at + 1 && (op.Put? ==> |History(b, op.alias)| <= p.at)
      && (!op.Resolve? ==> p.at == |History(c, op.alias)| - 1 && History(c, op.alias)[p.at] == Left(op))
  {
  }

  // ---------------------------------------------------------------------
  // A lone writer
  // ---------------------------------------------------------------------

  /** No call but `t` is about to change the alias. */
  predicate Alone(s: Spec, t: nat, a: bytes) { forall u | u in s.phases && u != t :: !Writes(s.phases[u].op, a) }

  /** The writer is still to come, or its value is the last. */
  predicate Leads(s: Spec, t: nat, op: Op)
    requires !op.Resolve?
  {
    && t in s.phases && s.phases[t].op == op
    && (s.phases[t].Taken? ==>
          && s.phases[t].at == |History(s.book, op.alias)| - 1
          && History(s.book, op.alias)[s.phases[t].at] == Left(op))
  }

  lemma AloneStep(s: Spec, s': Spec, l: Label, t: nat, a: bytes)
    requires SpecStep(s, s', l) && Alone(s, t, a) && (l.Call? && l.thread != t ==> !Writes(l.op, a))
    ensures Alone(s', t, a)
    ensures !l.Crash? && t !in s.phases ==> History(s'.book, a) == History(s.book, a)
    ensures !l.Crash? && t in s.phases && t in s'.phases ==>
      || History(s'.book, a) == History(s.book, a)
      || (s.phases[t].Called? && (s'.book, s'.phases[t]) == Effect(s.book, s.phases[t].op))
  {
  }

  lemma LeadsStep(s: Spec, s': Spec, l: Label, t: nat, op: Op)
    requires !op.Resolve? && SpecStep(s, s', l) && Alone(s, t, op.alias) && Leads(s, t, op)
    requires !Ends(l, t) && (l.Call? ==> !Writes(l.op, op.alias))
    ensures Alone(s', t, op.alias) && Leads(s', t, op)
  {
    hide SpecStep, Effect, History;
    AloneStep(s, s', l, t, op.alias);
    PhaseStep(s, s', l, t, op.alias);
    EffectAt(s.book, op);
  }

  /** Until it is answered, a lone writer is still to come, or its value is the last. */
  lemma {:induction false} LeadsUntil(states: seq<Spec>, labels: seq<Label>, h: nat, m: nat, t: nat, op: Op)
    requires !op.Resolve? && SpecRun(states, labels) && h < m < |states| && labels[h] == Call(t, op) && Alone(states[h], t, op.alias)
    requires forall x | h < x < m :: !Ends(labels[x], t) && (labels[x].Call? ==> !Writes(labels[x].op, op.alias))
    ensures Alone(states[m], t, op.alias) && Leads(states[m], t, op)
    decreases m
  {
    hide SpecStep, History;
    assert SpecStep(states[m - 1], states[m - 1 + 1], labels[m - 1]);
    if m == h + 1 {
      CallStarts(states[h], states[m], t, op);
    } else {
      LeadsUntil(states, labels, h, m - 1, t, op);
      LeadsStep(states[m - 1], states[m], labels[m - 1], t, op);
    }
  }

  /** The last value is durable, and nobody is about to change it. */
  ghost predicate AtRest(s: Spec, a: bytes, v: Option<bytes>)
  {
    && NoWriter(s, a)
    && Floor(s.book, a) == |History(s.book, a)| - 1 && Current(s.book, a) == v
  }

  lemma RestStep(s: Spec, s': Spec, l: Label, a: bytes, v: Option<bytes>)
    requires SpecStep(s, s', l) && AtRest(s, a, v) && (l.Call? ==> !Writes(l.op, a))
    ensures AtRest(s', a, v)
  {
    StepKeepsHistory(s, s', l, a);
    if l.Crash? {
      assert History(s'.book, a) == History(s.book, a)[..Floor(s'.book, a) + 1] == History(s.book, a);
    }
  }

  lemma {:induction false} RestForever(states: seq<Spec>, labels: seq<Label>, i: nat, j: nat, a: bytes, v: Option<bytes>)
    requires SpecRun(states, labels) && i <= j < |states| && AtRest(states[i], a, v)
    requires forall x | i <= x < j && labels[x].Call? :: !Writes(labels[x].op, a)
    ensures AtRest(states[j], a, v)
    decreases j
  {
    hide SpecStep, AtRest;
    if i < j {
      RestForever(states, labels, i, j - 1, a, v);
      assert SpecStep(states[j - 1], states[j - 1 + 1], labels[j - 1]);
      RestStep(states[j - 1], states[j], labels[j - 1], a, v);
    }
  }

  /** A writer that was alone and was acknowledged has settled the alias. */
  lemma LoneReturn(s: Spec, s': Spec, t: nat, reply: Reply, op: Op)
    requires !op.Resolve? && SpecStep(s, s', Return(t, reply)) && reply != Failed
    requires Alone(s, t, op.alias) && Leads(s, t, op) && Floor(s.book, op.alias) < |History(s.book, op.alias)|
    ensures AtRest(s', op.alias, Left(op))
  {
  }

  /** Nobody is about to change the alias. */
  predicate NoWriter(s: Spec, a: bytes) { forall u | u in s.phases :: !Writes(s.phases[u].op, a) }

  lemma NoWriterStep(s: Spec, s': Spec, l: Label, a: bytes)
    requires SpecStep(s, s', l) && NoWriter(s, a) && !l.Crash? && (l.Call? ==> !Writes(l.op, a))
    ensures NoWriter(s', a) && History(s'.book, a) == History(s.book, a)
  {
  }

  /** A resolve that meets no writer answers with the value that was current when it was called. */
  lemma {:induction false} ResolveAlone(states: seq<Spec>, labels: seq<Label>, h: nat, m: nat, t: nat, a: bytes)
    requires SpecRun(states, labels) && h < m < |states| && labels[h] == Call(t, Resolve(a)) && NoWriter(states[h], a)
    requires forall x | h < x < m :: !Ends(labels[x], t) && (labels[x].Call? ==> !Writes(labels[x].op, a))
    ensures NoWriter(states[m], a) && History(states[m].book, a) == History(states[h].book, a)
    ensures t in states[m].phases && states[m].phases[t].op == Resolve(a)
    ensures states[m].phases[t].Taken? ==>
      states[m].phases[t].reply == (match Current(states[h].book, a) case None => Absent case Some(v) => Found(v))
    decreases m
  {
    hide SpecStep, History;
    assert SpecStep(states[m - 1], states[m - 1 + 1], labels[m - 1]);
    NoWriterOnward(states, labels, h, m, t, a);
    if m == h + 1 {
      CallStarts(states[h], states[m], t, Resolve(a));
    } else {
      ResolveAlone(states, labels, h, m - 1, t, a);
      PhaseStep(states[m - 1], states[m], labels[m - 1], t, a);
    }
  }

  lemma {:induction false} NoWriterOnward(states: seq<Spec>, labels: seq<Label>, h: nat, m: nat, t: nat, a: bytes)
    requires SpecRun(states, labels) && h <= m < |states| && NoWriter(states[h], a)
    requires forall x | h <= x < m :: !labels[x].Crash? && (labels[x].Call? ==> !Writes(labels[x].op, a))
    ensures NoWriter(states[m], a) && History(states[m].book, a) == History(states[h].book, a)
    decreases m
  {
    hide SpecStep, History, NoWriter;
    if h < m {
      NoWriterOnward(states, labels, h, m - 1, t, a);
      assert SpecStep(states[m - 1], states[m - 1 + 1], labels[m - 1]);
      NoWriterStep(states[m - 1], states[m], labels[m - 1], a);
    }
  }

  // ---------------------------------------------------------------------
  // Where answers come from
  // ---------------------------------------------------------------------

  /** The value was there at the start, or a put of it was called. */
  ghost predicate Sourced(first: Book, labels: seq<Label>, a: bytes, v: bytes)
  {
    Some(v) in History(first, a) || exists x | 0 <= x < |labels| :: labels[x].Call? && labels[x].op == Put(a, v)
  }

  ghost predicate CalledOp(labels: seq<Label>, op: Op) { exists x | 0 <= x < |labels| :: labels[x].Call? && labels[x].op == op }

  ghost predicate Traced(first: Book, labels: seq<Label>, s: Spec)
  {
    && (forall a, v | Some(v) in History(s.book, a) :: Sourced(first, labels, a, v))
    && (forall t | t in s.phases ::
          && CalledOp(labels, s.phases[t].op)
          && (s.phases[t].Taken? && s.phases[t].reply.Found? ==>
                s.phases[t].op.Resolve? && Sourced(first, labels, s.phases[t].op.alias, s.phases[t].reply.secret)))
  }

  lemma SourcedGrows(first: Book, labels: seq<Label>, l: Label)
    ensures forall a, v | Sourced(first, labels, a, v) :: Sourced(first, labels + [l], a, v)
    ensures forall op | CalledOp(labels, op) :: CalledOp(labels + [l], op)
    ensures l.Call? ==> CalledOp(labels + [l], l.op)
  {
    var more := labels + [l];
    assert more[|labels|] == l && forall x | 0 <= x < |labels| :: more[x] == labels[x];
    forall a, v | Sourced(first, labels, a, v) ensures Sourced(first, more, a, v) {
      if Some(v) !in History(first, a) {
        var x :| 0 <= x < |labels| && labels[x].Call? && labels[x].op == Put(a, v);
        assert more[x].Call? && more[x].op == Put(a, v);
      }
    }
    forall op | CalledOp(labels, op) ensures CalledOp(more, op) {
      var x :| 0 <= x < |labels| && labels[x].Call? && labels[x].op == op;
      assert more[x].Call? && more[x].op == op;
    }
  }

  /** The values of a history after a step: old ones, and that of a put taking effect. */
  lemma NewValues(s: Spec, s': Spec, l: Label, a: bytes, v: bytes)
    requires SpecStep(s, s', l) && Some(v) in History(s'.book, a)
    ensures Some(v) in History(s.book, a) || exists t | t in s.phases :: s.phases[t].op == Put(a, v)
  {
    if l.Crash? {
      assert History(s'.book, a) == History(s.book, a)[..Floor(s'.book, a) + 1];
    }
  }

  /** The phases after a step: old ones, a new call, or an effect. */
  lemma NewPhases(s: Spec, s': Spec, l: Label, t: nat)
    requires SpecStep(s, s', l) && t in s'.phases
    ensures (l.Call? && l.thread == t && s'.phases[t] == Called(l.op))
         || (t in s.phases && s'.phases[t] == s.phases[t])
         || (t in s.phases && s.phases[t].Called? && s'.phases[t] == Effect(s.book, s.phases[t].op).1)
  {
  }

  lemma TracedStep(first: Book, labels: seq<Label>, s: Spec, s': Spec, l: Label)
    requires Traced(first, labels, s) && SpecStep(s, s', l)
    ensures Traced(first, labels + [l], s')
  {
    hide SpecStep, Sourced, CalledOp;
    var more := labels + [l];
    SourcedGrows(first, labels, l);
    forall a, v | Some(v) in History(s'.book, a) ensures Sourced(first, more, a, v) {
      NewValues(s, s', l, a, v);
      if Some(v) !in History(s.book, a) {
        var t :| t in s.phases && s.phases[t].op == Put(a, v);
        PutSourced(first, labels, a, v);
      }
    }
    forall t | t in s'.phases
      ensures CalledOp(more, s'.phases[t].op)
      ensures s'.phases[t].Taken? && s'.phases[t].reply.Found? ==>
        s'.phases[t].op.Resolve? && Sourced(first, more, s'.phases[t].op.alias, s'.phases[t].reply.secret)
    {
      NewPhases(s, s', l, t);
    }
  }

  lemma PutSourced(first: Book, labels: seq<Label>, a: bytes, v: bytes)
    requires CalledOp(labels, Put(a, v))
    ensures Sourced(first, labels, a, v)
  {
  }

  /** Every secret that a resolve returns was put for that alias by an earlier call, or was there at the start. */
  lemma {:induction false} TracedRun(states: seq<Spec>, labels: seq<Label>, i: nat)
    requires SpecRun(states, labels) && states[0].phases == map[] && i < |states|
    ensures Traced(states[0].book, labels[..i], states[i])
  {
    hide SpecStep, Traced;
    if i == 0 {
      assert Traced(states[0].book, labels[..0], states[0]) by { TracedStart(states[0]); }
      assert labels[..0] == [];
    } else {
      TracedRun(states, labels, i - 1);
      assert SpecStep(states[i - 1], states[i - 1 + 1], labels[i - 1]);
      TracedStep(states[0].book, labels[..i - 1], states[i - 1], states[i], labels[i - 1]);
      assert labels[..i - 1] + [labels[i - 1]] == labels[..i];
    }
  }

  lemma TracedStart(s: Spec)
    requires s.phases == map[]
    ensures Traced(s.book, [], s)
  {
  }

  lemma FoundWasPut(states: seq<Spec>, labels: seq<Label>, i: nat, t: nat, v: bytes)
    requires SpecRun(states, labels) && states[0].phases == map[] && i < |labels| && labels[i] == Return(t, Found(v))
    ensures t in states[i].phases && states[i].phases[t].op.Resolve?
    ensures Sourced(states[0].book, labels[..i], states[i].phases[t].op.alias, v)
  {
    hide Sourced, CalledOp;
    TracedRun(states, labels, i);
    assert SpecStep(states[i], states[i + 1], labels[i]);
  }
}
