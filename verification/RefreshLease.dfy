/** The process-local refresh lease: a registry of weak references to atomic flags,
    under any interleaving of threads, one atomic operation at a time. */
module RefreshLease {
  import opened Bytes

  type thread = nat
  type gate = nat

  /** A shared flag and its strong reference count. */
  datatype Gate = Gate(flag: bool, strong: nat)

  /** Where a thread stands in its attempt, and the strong reference it holds. */
  datatype Pc =
    | Waiting(alias: bytes)
    | Locked(alias: bytes)
    | Fetched(alias: bytes, gate: gate)
    | Looked(alias: bytes, gate: gate)
    | Refused(alias: bytes, gate: gate)
    | Holding(alias: bytes, gate: gate)
    | Cleared(alias: bytes, gate: gate)

  predicate HasGate(p: Pc) { !p.Waiting? && !p.Locked? }

  datatype State = State(registry: map<bytes, gate>, gates: map<gate, Gate>, mutex: Option<thread>, pcs: map<thread, Pc>)

  datatype Act =
    | Begin(alias: bytes)
    | Lock
    | Fetch(spare: gate)
    | Insert
    | Exchange
    | Store
    | Drop

  predicate Enabled(s: State, t: thread, a: Act)
  {
    match a
    case Begin(_) => t !in s.pcs
    case Lock => t in s.pcs && s.pcs[t].Waiting? && s.mutex.None?
    case Fetch(spare) => t in s.pcs && s.pcs[t].Locked? && spare !in s.gates
    case Insert => t in s.pcs && s.pcs[t].Fetched?
    case Exchange => t in s.pcs && s.pcs[t].Looked? && s.pcs[t].gate in s.gates
    case Store => t in s.pcs && s.pcs[t].Holding? && s.pcs[t].gate in s.gates
    case Drop =>
      && t in s.pcs && (s.pcs[t].Refused? || s.pcs[t].Cleared?)
      && s.pcs[t].gate in s.gates && s.gates[s.pcs[t].gate].strong > 0
  }

  /** Whether the registry entry of an alias can still be upgraded to a strong reference. */
  predicate Upgrades(s: State, alias: bytes)
  {
    alias in s.registry && s.registry[alias] in s.gates && s.gates[s.registry[alias]].strong > 0
  }

  function Next(s: State, t: thread, a: Act): (n: State)
    requires Enabled(s, t, a)
  {
    match a
    case Begin(alias) => s.(pcs := s.pcs[t := Waiting(alias)])
    case Lock => s.(mutex := Some(t), pcs := s.pcs[t := Locked(s.pcs[t].alias)])
    case Fetch(spare) =>
      var alias := s.pcs[t].alias;
      if Upgrades(s, alias) then
        var g := s.registry[alias];
        s.(gates := s.gates[g := s.gates[g].(strong := s.gates[g].strong + 1)], pcs := s.pcs[t := Fetched(alias, g)])
      else
        s.(gates := s.gates[spare := Gate(false, 1)], pcs := s.pcs[t := Fetched(alias, spare)])
    case Insert =>
      var pc := s.pcs[t];
      s.(registry := s.registry[pc.alias := pc.gate], mutex := None, pcs := s.pcs[t := Looked(pc.alias, pc.gate)])
    case Exchange =>
      var pc := s.pcs[t];
      if s.gates[pc.gate].flag then s.(pcs := s.pcs[t := Refused(pc.alias, pc.gate)])
      else s.(gates := s.gates[pc.gate := s.gates[pc.gate].(flag := true)], pcs := s.pcs[t := Holding(pc.alias, pc.gate)])
    case Store =>
      var pc := s.pcs[t];
      s.(gates := s.gates[pc.gate := s.gates[pc.gate].(flag := false)], pcs := s.pcs[t := Cleared(pc.alias, pc.gate)])
    case Drop =>
      var g := s.pcs[t].gate;
      s.(gates := s.gates[g := s.gates[g].(strong := s.gates[g].strong - 1)], pcs := s.pcs - {t})
  }

  const INITIAL := State(map[], map[], None, map[])

  ghost predicate Run(states: seq<State>, steps: seq<(thread, Act)>)
  {
    && |states| == |steps| + 1 && states[0] == INITIAL
    && forall i | 0 <= i < |steps| ::
         Enabled(states[i], steps[i].0, steps[i].1) && states[i + 1] == Next(states[i], steps[i].0, steps[i].1)
  }

  // ---------------------------------------------------------------------
  // The invariant
  // ---------------------------------------------------------------------

  predicate Uses(s: State, t: thread, g: gate) { t in s.pcs && HasGate(s.pcs[t]) && s.pcs[t].gate == g }

  predicate Holds(s: State, t: thread, alias: bytes) { t in s.pcs && s.pcs[t].Holding? && s.pcs[t].alias == alias }

  function Users(s: State, g: gate): (u: set<thread>) { set t | t in s.pcs && Uses(s, t, g) }

  /** Reference counts are exact. */
  ghost predicate Counted(s: State)
  {
    && (forall g | g in s.gates :: s.gates[g].strong == |Users(s, g)|)
    && (forall t, g | Uses(s, t, g) :: g in s.gates)
    && (forall a | a in s.registry :: s.registry[a] in s.gates)
  }

  /** Gates in use and aliases determine each other, and the registry knows them. */
  ghost predicate Paired(s: State)
  {
    && (forall t, u | t in s.pcs && u in s.pcs && HasGate(s.pcs[t]) && HasGate(s.pcs[u]) ::
          s.pcs[t].gate == s.pcs[u].gate <==> s.pcs[t].alias == s.pcs[u].alias)
    && (forall t | t in s.pcs && HasGate(s.pcs[t]) && !s.pcs[t].Fetched? ::
          s.pcs[t].alias in s.registry && s.registry[s.pcs[t].alias] == s.pcs[t].gate)
    && (forall t, a | t in s.pcs && HasGate(s.pcs[t]) && a in s.registry && s.registry[a] == s.pcs[t].gate ::
          a == s.pcs[t].alias)
  }

  /** The registry mutex is held by the thread inside its critical section. */
  ghost predicate Exclusive(s: State)
  {
    forall t | t in s.pcs && (s.pcs[t].Locked? || s.pcs[t].Fetched?) :: s.mutex == Some(t)
  }

  /** A flag is up exactly while one thread holds the lease. */
  ghost predicate Flagged(s: State)
  {
    && (forall t | t in s.pcs && s.pcs[t].Holding? && s.pcs[t].gate in s.gates :: s.gates[s.pcs[t].gate].flag)
    && (forall t, u | t in s.pcs && u in s.pcs && s.pcs[t].Holding? && s.pcs[u].Holding? && s.pcs[t].gate == s.pcs[u].gate ::
          t == u)
    && (forall g | g in s.gates && s.gates[g].flag :: exists t | t in s.pcs :: s.pcs[t].Holding? && s.pcs[t].gate == g)
  }

  ghost predicate Inv(s: State) { Counted(s) && Paired(s) && Exclusive(s) && Flagged(s) }

  // ---------------------------------------------------------------------
  // Every step keeps it
  // ---------------------------------------------------------------------

  lemma UsersGain(s: State, n: State, t: thread, g: gate)
    requires (forall u | u != t :: u in n.pcs <==> u in s.pcs) && (forall u | u in s.pcs && u != t :: n.pcs[u] == s.pcs[u])
    requires !Uses(s, t, g) && Uses(n, t, g)
    ensures |Users(n, g)| == |Users(s, g)| + 1
  {
    forall u ensures u in Users(n, g) <==> u in Users(s, g) + {t} {
      assert u != t ==> (Uses(s, u, g) <==> Uses(n, u, g));
    }
    assert Users(n, g) == Users(s, g) + {t};
  }

  lemma UsersSame(s: State, n: State, t: thread, g: gate)
    requires (forall u | u != t :: u in n.pcs <==> u in s.pcs) && (forall u | u in s.pcs && u != t :: n.pcs[u] == s.pcs[u])
    requires Uses(s, t, g) <==> Uses(n, t, g)
    ensures Users(n, g) == Users(s, g)
  {
    forall u ensures u in Users(n, g) <==> u in Users(s, g) {
      assert u != t ==> (Uses(s, u, g) <==> Uses(n, u, g));
    }
  }

  lemma UsersLose(s: State, n: State, t: thread, g: gate)
    requires n.pcs == s.pcs - {t} && Uses(s, t, g)
    ensures |Users(n, g)| == |Users(s, g)| - 1
  {
    assert Users(s, g) == Users(n, g) + {t};
  }

  lemma UserCounts(s: State, t: thread, g: gate)
    requires Counted(s) && Uses(s, t, g)
    ensures g in s.gates && s.gates[g].strong > 0
  {
    assert t in Users(s, g);
  }

  lemma StepCounted(s: State, t: thread, a: Act)
    requires Counted(s) && Enabled(s, t, a)
    ensures Counted(Next(s, t, a))
  {
    hide Users;
    var n := Next(s, t, a);
    forall g | g in n.gates ensures n.gates[g].strong == |Users(n, g)| {
      if a.Drop? && g == s.pcs[t].gate {
        UsersLose(s, n, t, g);
      } else if a.Fetch? && g == n.pcs[t].gate {
        if g !in s.gates { NoUsers(s, g); }
        UsersGain(s, n, t, g);
      } else {
        UsersSame(s, n, t, g);
      }
    }
    if t in s.pcs && HasGate(s.pcs[t]) { assert Uses(s, t, s.pcs[t].gate); }
    forall u, g | Uses(n, u, g) ensures g in n.gates {
      if u != t { assert Uses(s, u, g); }
    }
  }

  lemma NoUsers(s: State, g: gate)
    requires Counted(s) && g !in s.gates
    ensures Users(s, g) == {}
  {
    forall u ensures u !in Users(s, g) {
      assert Uses(s, u, g) ==> g in s.gates;
    }
  }

  /** A gate is created only when no other thread has one for the alias. */
  lemma NoRival(s: State, t: thread, u: thread)
    requires Inv(s) && t in s.pcs && s.pcs[t].Locked? && !Upgrades(s, s.pcs[t].alias)
    requires u in s.pcs && HasGate(s.pcs[u])
    ensures s.pcs[u].alias != s.pcs[t].alias
  {
    hide Users, Flagged;
    assert Uses(s, u, s.pcs[u].gate);
    UserCounts(s, u, s.pcs[u].gate);
  }

  lemma FetchPaired(s: State, t: thread, a: Act)
    requires Inv(s) && a.Fetch? && Enabled(s, t, a)
    ensures Paired(Next(s, t, a))
  {
    hide Users, Flagged;
    var n, alias := Next(s, t, a), s.pcs[t].alias;
    forall u | u in s.pcs && HasGate(s.pcs[u])
      ensures s.pcs[u].alias == alias <==> s.pcs[u].gate == n.pcs[t].gate
    {
      assert Uses(s, u, s.pcs[u].gate);
      if !Upgrades(s, alias) { NoRival(s, t, u); }
    }
    forall b | b in s.registry && s.registry[b] == n.pcs[t].gate ensures b == alias {
      if Upgrades(s, alias) {
        var u := SomeUser(s, s.registry[alias]);
      }
    }
  }

  lemma SomeUser(s: State, g: gate) returns (u: thread)
    requires Counted(s) && g in s.gates && s.gates[g].strong > 0
    ensures Uses(s, u, g)
  {
    assert Users(s, g) != {};
    u :| u in Users(s, g);
  }

  /** Steps that leave the registry and every thread's gate alone. */
  lemma SamePaired(s: State, n: State, t: thread)
    requires Paired(s) && n.registry == s.registry
    requires forall u | u in n.pcs && u != t :: u in s.pcs && n.pcs[u] == s.pcs[u]
    requires t in n.pcs && HasGate(n.pcs[t]) ==>
      && t in s.pcs && HasGate(s.pcs[t]) && s.pcs[t].alias == n.pcs[t].alias && s.pcs[t].gate == n.pcs[t].gate
      && (s.pcs[t].Fetched? ==> n.pcs[t].Fetched?)
    ensures Paired(n)
  {
  }

  lemma InsertPaired(s: State, t: thread)
    requires Paired(s) && t in s.pcs && s.pcs[t].Fetched?
    ensures Paired(Next(s, t, Insert))
  {
  }

  lemma StepPaired(s: State, t: thread, a: Act)
    requires Inv(s) && Enabled(s, t, a)
    ensures Paired(Next(s, t, a))
  {
    hide Users, Flagged, Counted, Paired;
    if a.Fetch? {
      FetchPaired(s, t, a);
    } else if a.Insert? {
      InsertPaired(s, t);
    } else {
      SamePaired(s, Next(s, t, a), t);
    }
  }

  /** Whoever holds a flagged gate after a step. */
  lemma Holder(s: State, t: thread, a: Act, g: gate) returns (u: thread)
    requires Inv(s) && Enabled(s, t, a) && g in Next(s, t, a).gates && Next(s, t, a).gates[g].flag
    ensures var n := Next(s, t, a); u in n.pcs && n.pcs[u].Holding? && n.pcs[u].gate == g
  {
    hide Users, Paired, Exclusive, Counted;
    if a.Exchange? && !s.gates[s.pcs[t].gate].flag && g == s.pcs[t].gate {
      u := t;
    } else {
      u :| u in s.pcs && s.pcs[u].Holding? && s.pcs[u].gate == g;
    }
  }

  /** Every holder's gate is flagged after a step, and no gate has two. */
  lemma HoldersKeep(s: State, t: thread, a: Act)
    requires Inv(s) && Enabled(s, t, a)
    ensures var n := Next(s, t, a);
      && (forall u | u in n.pcs && n.pcs[u].Holding? && n.pcs[u].gate in n.gates :: n.gates[n.pcs[u].gate].flag)
      && (forall u, v | u in n.pcs && v in n.pcs && n.pcs[u].Holding? && n.pcs[v].Holding? && n.pcs[u].gate == n.pcs[v].gate ::
            u == v)
  {
    hide Users, Paired, Exclusive;
    forall u | u in s.pcs && s.pcs[u].Holding? ensures s.pcs[u].gate in s.gates {
      assert Uses(s, u, s.pcs[u].gate);
    }
  }

  lemma StepFlagged(s: State, t: thread, a: Act)
    requires Inv(s) && Enabled(s, t, a)
    ensures Flagged(Next(s, t, a))
  {
    hide Counted, Paired, Exclusive, Next;
    var n := Next(s, t, a);
    forall g | g in n.gates && n.gates[g].flag
      ensures exists u | u in n.pcs :: n.pcs[u].Holding? && n.pcs[u].gate == g
    {
      var u := Holder(s, t, a, g);
    }
    HoldersKeep(s, t, a);
  }

  lemma StepInv(s: State, t: thread, a: Act)
    requires Inv(s) && Enabled(s, t, a)
    ensures Inv(Next(s, t, a))
  {
    hide Counted, Paired, Flagged;
    StepCounted(s, t, a);
    StepPaired(s, t, a);
    StepFlagged(s, t, a);
  }

  lemma {:induction false} RunInv(states: seq<State>, steps: seq<(thread, Act)>, i: nat)
    requires Run(states, steps) && i < |states|
    ensures Inv(states[i])
  {
    if i > 0 {
      hide Inv, Next;
      RunInv(states, steps, i - 1);
      StepInv(states[i - 1], steps[i - 1].0, steps[i - 1].1);
      assert states[i - 1 + 1] == Next(states[i - 1], steps[i - 1].0, steps[i - 1].1);
    }
  }

  // ---------------------------------------------------------------------
  // What every interleaving guarantees
  // ---------------------------------------------------------------------

  /** At most one lease per alias is ever held. */
  lemma MutualExclusion(states: seq<State>, steps: seq<(thread, Act)>, i: nat, t: thread, u: thread, alias: bytes)
    requires Run(states, steps) && i < |states| && Holds(states[i], t, alias) && Holds(states[i], u, alias)
    ensures t == u
  {
    hide Run, Counted;
    assert |states| == |steps| + 1 by { RunStarts(states, steps); }
    RunInv(states, steps, i);
  }

  lemma RunStarts(states: seq<State>, steps: seq<(thread, Act)>)
    requires Run(states, steps)
    ensures |states| == |steps| + 1 && states[0] == INITIAL
  {
  }

  /** At most one gate per alias is alive, and once looked up it is the registered one. */
  lemma OneGate(states: seq<State>, steps: seq<(thread, Act)>, i: nat, t: thread, u: thread)
    requires Run(states, steps) && i < |states|
    requires t in states[i].pcs && HasGate(states[i].pcs[t]) && u in states[i].pcs && HasGate(states[i].pcs[u])
    requires states[i].pcs[t].alias == states[i].pcs[u].alias
    ensures var s := states[i];
      && s.pcs[t].gate == s.pcs[u].gate && s.pcs[t].gate in s.gates && s.gates[s.pcs[t].gate].strong > 0
      && (!s.pcs[t].Fetched? ==> s.pcs[t].alias in s.registry && s.registry[s.pcs[t].alias] == s.pcs[t].gate)
  {
    hide Run, Users, Flagged;
    RunInv(states, steps, i);
    UserCounts(states[i], t, states[i].pcs[t].gate);
  }

  /** An attempt is refused exactly while another thread holds the lease on the same alias. */
  lemma RefusedIffHeld(states: seq<State>, steps: seq<(thread, Act)>, i: nat)
    requires Run(states, steps) && i < |steps| && steps[i].1.Exchange?
    ensures var t := steps[i].0;
      states[i + 1].pcs[t].Refused? <==> exists u :: Holds(states[i], u, states[i].pcs[t].alias)
  {
    hide Run, Counted;
    RunStarts(states, steps);
    assert Enabled(states[i], steps[i].0, steps[i].1) && states[i + 1] == Next(states[i], steps[i].0, steps[i].1) by {
      RunAt(states, steps, i);
    }
    RunInv(states, steps, i);
    var s, t := states[i], steps[i].0;
    if s.gates[s.pcs[t].gate].flag {
      var u :| u in s.pcs && s.pcs[u].Holding? && s.pcs[u].gate == s.pcs[t].gate;
      assert Holds(s, u, s.pcs[t].alias);
    }
  }

  lemma RunAt(states: seq<State>, steps: seq<(thread, Act)>, i: nat)
    requires Run(states, steps) && i < |steps|
    ensures Enabled(states[i], steps[i].0, steps[i].1) && states[i + 1] == Next(states[i], steps[i].0, steps[i].1)
  {
  }
}
