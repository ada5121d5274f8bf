/** The completion receipt: one terminal publication, observed by any number of
    threads through a mutex and a condition variable. */
module CompletionReceipt {
  import opened Bytes

  type thread = nat

  datatype Status =
    | Ok | AlreadyRunning | NotInitialized | BadPaths | BadPolicy | VaultKeyInvalid | StoreRecoveryFailed
    | Internal | ShutdownTimeout | ShutdownForced | BadArgument

  /** `error` stands for the error code, which names the status one to one. */
  datatype Observation = Observation(
    version: nat, phase: string, generation: u64, readySince: Option<u64>, endpoint: Option<bytes>,
    error: Option<Status>, retryable: Option<bool>)

  function InPhase(phase: string, generation: u64): (o: Observation)
  {
    Observation(1, phase, generation, None, None, None, None)
  }

  function FailedWith(s: Status, generation: u64): (o: Observation)
  {
    InPhase("Failed", generation).(error := Some(s), retryable := Some(false))
  }

  /** What a completed run is observed as. */
  function Final(s: Status, generation: u64): (o: Observation)
  {
    if s.Ok? || s.ShutdownForced? then InPhase("Stopped", generation) else FailedWith(s, generation)
  }

  datatype Op = Get | Observe | Fail(status: Status) | Finish(status: Status) | WaitFor

  /** Where a thread stands. `Entered` to `Notifying` hold the lock; `expired` is set once the
      budget of a wait has run out. */
  datatype Pc =
    | Ready(op: Op, expired: bool)
    | Entered(op: Op, expired: bool)
    | Published(status: Status, terminal: Observation)
    | Stored(status: Status)
    | Notifying
    | Asleep
    | Done(answer: Option<Status>, view: Option<Observation>)

  predicate Inside(p: Pc) { p.Entered? || p.Published? || p.Stored? || p.Notifying? }

  /** `published` is every observation that `publish` was given. */
  datatype State = State(
    status: Option<Status>, observation: Observation, published: seq<Observation>, lock: Option<thread>, pcs: map<thread, Pc>)

  /** `Work(seen)` is the next step of the lock's holder; `seen` is what a refresh makes of the observation. */
  datatype Act = Begin(op: Op) | Lock | Work(seen: Observation) | Wake(expired: bool) | Leave

  predicate Enabled(s: State, t: thread, a: Act)
  {
    match a
    case Begin(_) => t !in s.pcs
    case Lock => t in s.pcs && s.pcs[t].Ready? && s.lock.None?
    case Work(_) => t in s.pcs && Inside(s.pcs[t])
    case Wake(_) => t in s.pcs && s.pcs[t].Asleep?
    case Leave => t in s.pcs && s.pcs[t].Done?
  }

  function Unlocked(s: State, t: thread, pc: Pc): (n: State) { s.(lock := None, pcs := s.pcs[t := pc]) }

  function Awake(p: Pc): (q: Pc) { if p.Asleep? then Ready(WaitFor, false) else p }

  /** The critical section of each operation, up to its first effect that others could be told of. */
  function EnteredWork(s: State, t: thread, seen: Observation): (n: State)
    requires t in s.pcs && s.pcs[t].Entered?
  {
    match s.pcs[t].op
    case Get => Unlocked(s, t, Done(s.status, None))
    case Observe =>
      var n := if s.status.None? && s.observation.error.None? then s.(observation := seen) else s;
      Unlocked(n, t, Done(None, Some(n.observation)))
    case Fail(x) =>
      Unlocked(if s.status.None? then s.(observation := FailedWith(x, s.observation.generation)) else s, t, Done(None, None))
    case Finish(x) =>
      if s.status.None? then
        var terminal := Final(x, s.observation.generation);
        s.(published := s.published + [terminal], pcs := s.pcs[t := Published(x, terminal)])
      else s.(pcs := s.pcs[t := Notifying])
    case WaitFor =>
      if s.status.Some? then Unlocked(s, t, Done(s.status, None))
      else if s.pcs[t].expired then
        Unlocked(s.(observation := FailedWith(ShutdownTimeout, s.observation.generation)), t, Done(None, None))
      else Unlocked(s, t, Asleep)
  }

  function Next(s: State, t: thread, a: Act): (n: State)
    requires Enabled(s, t, a)
  {
    match a
    case Begin(op) => s.(pcs := s.pcs[t := Ready(op, false)])
    case Lock => s.(lock := Some(t), pcs := s.pcs[t := Entered(s.pcs[t].op, s.pcs[t].expired)])
    case Wake(expired) => s.(pcs := s.pcs[t := Ready(WaitFor, expired)])
    case Leave => s.(pcs := s.pcs - {t})
    case Work(seen) =>
      match s.pcs[t]
      case Published(x, terminal) => s.(observation := terminal, pcs := s.pcs[t := Stored(x)])
      case Stored(x) => s.(status := Some(x), pcs := s.pcs[t := Notifying])
      case Notifying =>
        s.(lock := None, pcs := map u | u in s.pcs :: if u == t then Done(None, None) else Awake(s.pcs[u]))
      case _ => EnteredWork(s, t, seen)
  }

  ghost predicate Run(states: seq<State>, steps: seq<(thread, Act)>)
  {
    && |states| == |steps| + 1
    && states[0].status.None? && states[0].published == [] && states[0].lock.None? && states[0].pcs == map[]
    && forall i | 0 <= i < |steps| ::
         Enabled(states[i], steps[i].0, steps[i].1) && states[i + 1] == Next(states[i], steps[i].0, steps[i].1)
  }

  // ---------------------------------------------------------------------
  // The invariant
  // ---------------------------------------------------------------------

  /** The lock is held by exactly the thread inside. */
  ghost predicate Exclusive(s: State)
  {
    && (forall t | t in s.pcs && Inside(s.pcs[t]) :: s.lock == Some(t))
    && (s.lock.Some? ==> s.lock.value in s.pcs && Inside(s.pcs[s.lock.value]))
  }

  /** The publication in progress, if any. */
  predicate Finishing(s: State) { s.lock.Some? && s.lock.value in s.pcs && (s.pcs[s.lock.value].Published? || s.pcs[s.lock.value].Stored?) }

  /** Publication comes first, once, and with the observation that stays. */
  ghost predicate Terminal(s: State)
  {
    && (s.status.Some? ==>
          && !Finishing(s) && s.observation == Final(s.status.value, s.observation.generation)
          && s.published == [s.observation])
    && (s.status.None? && !Finishing(s) ==> s.published == [])
    && (s.status.None? && Finishing(s) ==>
          match s.pcs[s.lock.value]
          case Published(x, o) => o == Final(x, s.observation.generation) && s.published == [o]
          case Stored(x) => s.observation == Final(x, s.observation.generation) && s.published == [s.observation]
          case _ => true)
  }

  ghost predicate Told(s: State)
  {
    && (forall t | t in s.pcs && s.pcs[t].Done? && s.pcs[t].answer.Some? :: s.pcs[t].answer == s.status)
    && (forall t | t in s.pcs && s.pcs[t].Notifying? :: s.status.Some?)
  }

  /** No wake-up is lost: after completion a thread sleeps only while the notification is under way. */
  ghost predicate NoLostWakeup(s: State)
  {
    s.status.Some? ==> forall t | t in s.pcs && s.pcs[t].Asleep? ::
      s.lock.Some? && s.lock.value in s.pcs && s.pcs[s.lock.value].Notifying?
  }

  ghost predicate Inv(s: State) { Exclusive(s) && Terminal(s) && Told(s) && NoLostWakeup(s) }

  lemma StepExclusive(s: State, t: thread, a: Act)
    requires Exclusive(s) && Enabled(s, t, a)
    ensures Exclusive(Next(s, t, a))
  {
    hide Final, FailedWith;
  }

  lemma StepTerminal(s: State, t: thread, a: Act)
    requires Inv(s) && Enabled(s, t, a)
    ensures Terminal(Next(s, t, a))
  {
    hide FailedWith, Told, NoLostWakeup;
    FinalGeneration(s);
    StepExclusive(s, t, a);
  }

  /** Failing observations carry the generation on. */
  lemma FinalGeneration(s: State)
    ensures forall x, g :: Final(x, g).generation == g && FailedWith(x, g).generation == g
  {
  }

  lemma StepTold(s: State, t: thread, a: Act)
    requires Inv(s) && Enabled(s, t, a)
    ensures Told(Next(s, t, a)) && NoLostWakeup(Next(s, t, a))
  {
    hide Final, FailedWith;
  }

  lemma {:induction false} RunInv(states: seq<State>, steps: seq<(thread, Act)>, i: nat)
    requires Run(states, steps) && i < |states|
    ensures Inv(states[i])
  {
    if i > 0 {
      hide Next, Terminal, Told, NoLostWakeup, Exclusive;
      RunInv(states, steps, i - 1);
      var s, t, a := states[i - 1], steps[i - 1].0, steps[i - 1].1;
      assert Enabled(s, t, a) && states[i - 1 + 1] == Next(s, t, a);
      StepExclusive(s, t, a);
      StepTerminal(s, t, a);
      StepTold(s, t, a);
    }
  }

  // ---------------------------------------------------------------------
  // What every interleaving guarantees
  // ---------------------------------------------------------------------

  lemma StepFixed(s: State, t: thread, a: Act)
    requires Inv(s) && Enabled(s, t, a)
    ensures s.status.Some? ==>
      var n := Next(s, t, a); n.status == s.status && n.observation == s.observation && n.published == s.published
  {
    hide Final, FailedWith, NoLostWakeup;
  }

  /** The first completion fixes the status and the observation for good, and nothing is published again. */
  lemma {:induction false} FirstFinishStays(states: seq<State>, steps: seq<(thread, Act)>, i: nat, j: nat)
    requires Run(states, steps) && i <= j < |states| && states[i].status.Some?
    ensures states[j].status == states[i].status && states[j].observation == states[i].observation
    ensures states[j].published == states[i].published == [states[i].observation]
    ensures states[i].observation == Final(states[i].status.value, states[i].observation.generation)
    decreases j
  {
    RunInv(states, steps, i);
    if i < j {
      hide Next, Final;
      FirstFinishStays(states, steps, i, j - 1);
      RunInv(states, steps, j - 1);
      assert Enabled(states[j - 1], steps[j - 1].0, steps[j - 1].1);
      assert states[j - 1 + 1] == Next(states[j - 1], steps[j - 1].0, steps[j - 1].1);
      StepFixed(states[j - 1], steps[j - 1].0, steps[j - 1].1);
    }
  }

  /** Publication runs at most once, and has run before any thread can learn of completion. */
  lemma PublishedOnce(states: seq<State>, steps: seq<(thread, Act)>, i: nat)
    requires Run(states, steps) && i < |states|
    ensures |states[i].published| <= 1
    ensures forall t | t in states[i].pcs && states[i].pcs[t].Done? && states[i].pcs[t].answer.Some? ::
      states[i].published == [states[i].observation]
  {
    RunInv(states, steps, i);
  }

  /** Whoever observes after completion sees the one published observation. */
  lemma ObservesPublished(states: seq<State>, steps: seq<(thread, Act)>, i: nat)
    requires Run(states, steps) && i < |steps| && steps[i].1.Work?
    requires states[i].pcs[steps[i].0] == Entered(Observe, false) && states[i].status.Some?
    ensures states[i].published == [states[i].observation]
    ensures states[i + 1].pcs[steps[i].0] == Done(None, Some(states[i].observation))
  {
    RunInv(states, steps, i);
  }

  /** All answers, on any threads at any times, are the first result. */
  lemma AnswersAgree(states: seq<State>, steps: seq<(thread, Act)>, i: nat, j: nat, t: thread, u: thread)
    requires Run(states, steps) && i <= j < |states|
    requires t in states[i].pcs && states[i].pcs[t].Done? && states[i].pcs[t].answer.Some?
    requires u in states[j].pcs && states[j].pcs[u].Done? && states[j].pcs[u].answer.Some?
    ensures states[i].pcs[t].answer == states[j].pcs[u].answer
  {
    hide Run;
    RunInv(states, steps, i);
    RunInv(states, steps, j);
    FirstFinishStays(states, steps, i, j);
  }

  /** Once completion is visible and the lock is free, nobody is left asleep. */
  lemma NobodySleeps(states: seq<State>, steps: seq<(thread, Act)>, i: nat, t: thread)
    requires Run(states, steps) && i < |states| && states[i].status.Some? && states[i].lock.None? && t in states[i].pcs
    ensures !states[i].pcs[t].Asleep?
  {
    RunInv(states, steps, i);
  }

  lemma StepLatched(s: State, t: thread, a: Act)
    requires Inv(s) && Enabled(s, t, a) && (s.observation.error.Some? || s.status.Some? || Finishing(s))
    ensures var n := Next(s, t, a);
      && n.observation.generation == s.observation.generation
      && (n.observation.error.Some? || n.status.Some? || Finishing(n))
      && (t in s.pcs && s.pcs[t].Entered? && s.pcs[t].op.Observe? ==> n.observation == s.observation)
  {
    hide Told, NoLostWakeup;
    FinalGeneration(s);
  }

  /** The step is the critical section of an observe. */
  predicate Refreshes(s: State, step: (thread, Act))
  {
    step.1.Work? && step.0 in s.pcs && s.pcs[step.0].Entered? && s.pcs[step.0].op.Observe?
  }

  /** An error latched before completion suppresses every later refresh and keeps the generation
      until completion, whose observation keeps it too. */
  lemma {:induction false} LatchedGeneration(states: seq<State>, steps: seq<(thread, Act)>, i: nat, j: nat)
    requires Run(states, steps) && i <= j < |states| && states[i].observation.error.Some?
    ensures states[j].observation.generation == states[i].observation.generation
    ensures states[j].observation.error.Some? || states[j].status.Some? || Finishing(states[j])
    ensures forall m | i <= m < j && Refreshes(states[m], steps[m]) :: states[m + 1].observation == states[m].observation
    decreases j
  {
    hide Next, Inv, Finishing;
    if i < j {
      LatchedGeneration(states, steps, i, j - 1);
      RunInv(states, steps, j - 1);
      assert Enabled(states[j - 1], steps[j - 1].0, steps[j - 1].1);
      assert states[j - 1 + 1] == Next(states[j - 1], steps[j - 1].0, steps[j - 1].1);
      StepLatched(states[j - 1], steps[j - 1].0, steps[j - 1].1);
    }
  }

  // ---------------------------------------------------------------------
  // What each operation does, in any run
  // ---------------------------------------------------------------------

  /** The step is the critical section of the operation. */
  predicate Performs(s: State, step: (thread, Act), op: Op)
  {
    step.1.Work? && step.0 in s.pcs && s.pcs[step.0].Entered? && s.pcs[step.0].op == op
  }

  /** An observe before completion, with no error latched, stores and returns what the refresh made of
      the observation; any other changes nothing and returns what is there. */
  lemma Observes(states: seq<State>, steps: seq<(thread, Act)>, i: nat)
    requires Run(states, steps) && i < |steps| && Performs(states[i], steps[i], Observe)
    ensures var s, n, t := states[i], states[i + 1], steps[i].0;
      && n.observation == (if s.status.None? && s.observation.error.None? then steps[i].1.seen else s.observation)
      && n.pcs == s.pcs[t := Done(None, Some(n.observation))]
      && n.status == s.status && n.published == s.published && n.lock.None?
  {
    assert states[i + 1] == Next(states[i], steps[i].0, steps[i].1);
  }

  /** A failure before completion latches its error under the generation that was observed, and publishes
      nothing; after completion it changes nothing. */
  lemma FailLatches(states: seq<State>, steps: seq<(thread, Act)>, i: nat, x: Status)
    requires Run(states, steps) && i < |steps| && Performs(states[i], steps[i], Fail(x))
    ensures var s, n, t := states[i], states[i + 1], steps[i].0;
      && n.observation ==
           (if s.status.None? then Observation(1, "Failed", s.observation.generation, None, None, Some(x), Some(false))
            else s.observation)
      && n.pcs == s.pcs[t := Done(None, None)] && n.status == s.status && n.published == s.published && n.lock.None?
  {
    assert states[i + 1] == Next(states[i], steps[i].0, steps[i].1);
  }

  /** A wait answers the status once there is one; before, it sleeps, or latches a timeout when its budget
      has run out and answers nothing. */
  lemma WaitAnswers(states: seq<State>, steps: seq<(thread, Act)>, i: nat)
    requires Run(states, steps) && i < |steps| && Performs(states[i], steps[i], WaitFor)
    ensures var s, n, t := states[i], states[i + 1], steps[i].0;
      var late := s.status.None? && s.pcs[t].expired;
      && n.pcs == s.pcs[t := if s.status.Some? || late then Done(s.status, None) else Asleep]
      && n.observation ==
           (if late then Observation(1, "Failed", s.observation.generation, None, None, Some(ShutdownTimeout), Some(false))
            else s.observation)
      && n.status == s.status && n.published == s.published && n.lock.None?
  {
    assert states[i + 1] == Next(states[i], steps[i].0, steps[i].1);
  }

  /** Asking answers the status. */
  lemma GetAnswers(states: seq<State>, steps: seq<(thread, Act)>, i: nat)
    requires Run(states, steps) && i < |steps| && Performs(states[i], steps[i], Get)
    ensures states[i + 1] == states[i].(lock := None, pcs := states[i].pcs[steps[i].0 := Done(states[i].status, None)])
  {
    assert states[i + 1] == Next(states[i], steps[i].0, steps[i].1);
  }

  /** How a completed run is observed: stopped without an error exactly after `Ok` and a forced shutdown,
      failed with its status otherwise. */
  lemma EndsAs(states: seq<State>, steps: seq<(thread, Act)>, i: nat)
    requires Run(states, steps) && i < |states| && states[i].status.Some?
    ensures var s, o := states[i].status.value, states[i].observation;
      && (o.phase == "Stopped" <==> s == Ok || s == ShutdownForced) && (o.error.None? <==> s == Ok || s == ShutdownForced)
      && (o.error.Some? ==> o == Observation(1, "Failed", o.generation, None, None, Some(s), Some(false)))
      && (o.error.None? ==> o == Observation(1, "Stopped", o.generation, None, None, None, None))
      && states[i].published == [o]
  {
    hide Run;
    FirstFinishStays(states, steps, i, i);
  }

  /** A finish that finds no status publishes first, then stores what it published, then its status. */
  lemma {:induction false} FinishCompletes(s: State, t: thread, x: Status, a: Observation, b: Observation, c: Observation)
    requires t in s.pcs && s.pcs[t].Entered? && s.pcs[t].op == Finish(x) && s.status.None?
    ensures var s1 := Next(s, t, Work(a));
      && s1.status.None? && s1.observation == s.observation && |s1.published| == |s.published| + 1
      && var s2 := Next(s1, t, Work(b));
         && s2.status.None? && s2.observation == s1.published[|s.published|] && s2.published == s1.published
         && var s3 := Next(s2, t, Work(c));
            s3.status == Some(x) && s3.observation == s2.observation && s3.published == s1.published && s3.pcs[t].Notifying?
  {
  }
}
