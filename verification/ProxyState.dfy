/** The provider proxy's monitor: request handlers and the driver, interleaved one
    critical section at a time. */
module ProxyState {
  import opened Bytes

  type handler = nat

  datatype Shape = Single | Tool

  datatype Phase = AfterPost | BeforeHeaders | BetweenChunks

  /** A ledger entry; `payload` is what was derived from the request itself. */
  datatype Entry = Entry(caseId: nat, shape: Shape, number: nat, payload: bytes)

  /** How much of an entry's line reached the ledger file. A short write raises; a whole line may
      still raise when it is synced. */
  datatype Reach = Line(raises: bool) | Short(torn: bool)

  /** A line of the ledger file: an entry, or the torn part of one. */
  datatype Row = Whole(entry: Entry) | Torn

  /** Where a handler stands. `arrived` is the case in which it entered. */
  datatype Pc =
    | Entered(arrived: nat)
    | At(arrived: nat, number: nat, phase: Phase)
    | Blocked(arrived: nat, number: nat, phase: Phase)
    | Leaving(arrived: nat)

  /** `origins` and `reaches` are auxiliary: for each recorded request, the case in which its handler
      entered and how its ledger write went. */
  datatype State = State(
    caseId: nat, shape: Shape, requests: seq<Entry>, all: seq<Entry>, active: int,
    gate: Option<(nat, Phase)>, reached: bool, released: bool,
    ledger: seq<Row>, pcs: map<handler, Pc>, origins: seq<nat>, reaches: seq<Reach>)

  const INITIAL := State(0, Single, [], [], 0, None, false, false, [], map[], [], [])

  datatype Act =
    | BeginCase(shape: Shape, gate: Option<(nat, Phase)>)
    | ReleaseGate
    | Enter(h: handler)
    | Record(h: handler, payload: bytes, reach: Reach)
    | Gate(h: handler)
    | Check(h: handler)
    | Abandon(h: handler)
    | Leave(h: handler)

  predicate Enabled(s: State, a: Act)
  {
    match a
    case BeginCase(_, _) => true
    case ReleaseGate => true
    case Enter(h) => h !in s.pcs
    case Record(h, _, _) => h in s.pcs && s.pcs[h].Entered?
    case Gate(h) => h in s.pcs && s.pcs[h].At?
    case Check(h) => h in s.pcs && s.pcs[h].Blocked?
    case Abandon(h) => h in s.pcs && (s.pcs[h].Entered? || s.pcs[h].At?)
    case Leave(h) => h in s.pcs && s.pcs[h].Leaving?
  }

  /** The point after a gate: the handler's next gate, or its way out. */
  function Past(arrived: nat, number: nat, phase: Phase): (p: Pc)
  {
    match phase
    case AfterPost => At(arrived, number, BeforeHeaders)
    case BeforeHeaders => At(arrived, number, BetweenChunks)
    case BetweenChunks => Leaving(arrived)
  }

  function Rows(e: Entry, r: Reach): (rows: seq<Row>)
  {
    match r
    case Line(_) => [Whole(e)]
    case Short(torn) => if torn then [Torn] else []
  }

  function Recorded(s: State, h: handler, payload: bytes, reach: Reach): (n: State)
    requires h in s.pcs && s.pcs[h].Entered?
  {
    var e := Entry(s.caseId, s.shape, |s.requests| + 1, payload);
    var raises := reach.Short? || reach.raises;
    s.(requests := s.requests + [e], all := s.all + [e], ledger := s.ledger + Rows(e, reach),
       origins := s.origins + [s.pcs[h].arrived], reaches := s.reaches + [reach],
       pcs := s.pcs[h := if raises then Leaving(s.pcs[h].arrived) else At(s.pcs[h].arrived, e.number, AfterPost)])
  }

  function Next(s: State, a: Act): (n: State)
    requires Enabled(s, a)
  {
    match a
    case BeginCase(shape, gate) =>
      if s.active != 0 then s
      else s.(caseId := s.caseId + 1, shape := shape, requests := [], gate := gate, reached := false, released := false)
    case ReleaseGate => s.(released := true)
    case Enter(h) => s.(active := s.active + 1, pcs := s.pcs[h := Entered(s.caseId)])
    case Record(h, payload, reach) => Recorded(s, h, payload, reach)
    case Gate(h) =>
      var p := s.pcs[h];
      if s.gate != Some((p.number, p.phase)) then s.(pcs := s.pcs[h := Past(p.arrived, p.number, p.phase)])
      else if s.released then s.(reached := true, pcs := s.pcs[h := Past(p.arrived, p.number, p.phase)])
      else s.(reached := true, pcs := s.pcs[h := Blocked(p.arrived, p.number, p.phase)])
    case Check(h) =>
      var p := s.pcs[h];
      if s.released then s.(pcs := s.pcs[h := Past(p.arrived, p.number, p.phase)]) else s
    case Abandon(h) => s.(pcs := s.pcs[h := Leaving(s.pcs[h].arrived)])
    case Leave(h) => s.(active := s.active - 1, pcs := s.pcs - {h})
  }

  ghost predicate Run(states: seq<State>, acts: seq<Act>)
  {
    && |states| == |acts| + 1 && states[0] == INITIAL
    && forall i | 0 <= i < |acts| :: Enabled(states[i], acts[i]) && states[i + 1] == Next(states[i], acts[i])
  }

  // ---------------------------------------------------------------------
  // The invariant
  // ---------------------------------------------------------------------

  /** How many entries belong to case `c`. */
  function Count(entries: seq<Entry>, c: nat): (n: nat)
  {
    if entries == [] then 0
    else Count(entries[..|entries| - 1], c) + if entries[|entries| - 1].caseId == c then 1 else 0
  }

  lemma CountAppend(entries: seq<Entry>, e: Entry, c: nat)
    ensures Count(entries + [e], c) == Count(entries, c) + if e.caseId == c then 1 else 0
  {
    assert (entries + [e])[..|entries|] == entries;
  }

  /** Every entry's number is one more than the entries of its case before it: 1 to n without gaps. */
  ghost predicate Numbered(entries: seq<Entry>)
  {
    forall i | 0 <= i < |entries| :: entries[i].number == Count(entries[..i], entries[i].caseId) + 1
  }

  lemma NumberedAppend(entries: seq<Entry>, e: Entry)
    requires Numbered(entries) && e.number == Count(entries, e.caseId) + 1
    ensures Numbered(entries + [e])
  {
    hide Count;
    var more := entries + [e];
    forall i | 0 <= i < |more| ensures more[i].number == Count(more[..i], more[i].caseId) + 1 {
      if i < |entries| {
        assert more[..i] == entries[..i] && more[i] == entries[i];
      } else {
        assert more[..i] == entries && more[i] == e;
      }
    }
  }

  /** Handlers are counted, and belong to the current case. */
  ghost predicate Current(s: State)
  {
    s.active == |s.pcs.Keys| && forall h | h in s.pcs :: s.pcs[h].arrived == s.caseId
  }

  /** The lists agree: the current case's requests are the tail of all, numbered, under the case of
      the handler's entry. */
  ghost predicate Listed(s: State)
  {
    && |s.requests| <= |s.all| && s.requests == s.all[|s.all| - |s.requests|..]
    && (forall i | 0 <= i < |s.requests| :: s.requests[i].caseId == s.caseId)
    && Numbered(s.all) && Count(s.all, s.caseId) == |s.requests| && (forall c | c > s.caseId :: Count(s.all, c) == 0)
    && |s.origins| == |s.all| && (forall i | 0 <= i < |s.all| :: s.origins[i] == s.all[i].caseId)
  }

  /** A blocked handler is at the gate that was set, and the driver has been told. */
  ghost predicate Gated(s: State)
  {
    forall h | h in s.pcs && s.pcs[h].Blocked? :: s.gate == Some((s.pcs[h].number, s.pcs[h].phase)) && s.reached
  }

  /** The ledger file in terms of the entries and how their writes went. */
  function LedgerOf(all: seq<Entry>, reaches: seq<Reach>): (rows: seq<Row>)
    requires |all| == |reaches|
  {
    if all == [] then [] else
    var last := |all| - 1;
    LedgerOf(all[..last], reaches[..last]) + Rows(all[last], reaches[last])
  }

  ghost predicate Kept(s: State) { |s.reaches| == |s.all| && s.ledger == LedgerOf(s.all, s.reaches) }

  ghost predicate Inv(s: State) { Current(s) && Listed(s) && Gated(s) && Kept(s) }

  lemma Updated(m: map<handler, Pc>, h: handler, p: Pc)
    ensures m[h := p].Keys == m.Keys + {h} && (h in m ==> m[h := p].Keys == m.Keys)
    ensures |m.Keys + {h}| == |m.Keys| + if h in m then 0 else 1
  {
  }

  lemma Removed(m: map<handler, Pc>, h: handler)
    requires h in m
    ensures |(m - {h}).Keys| == |m.Keys| - 1
  {
    assert (m - {h}).Keys == m.Keys - {h};
  }

  lemma StepTallied(s: State, a: Act)
    requires s.active == |s.pcs.Keys| && Enabled(s, a)
    ensures Next(s, a).active == |Next(s, a).pcs.Keys|
  {
    hide Past, Rows;
    match a
    case BeginCase(_, _) =>
    case ReleaseGate =>
    case Leave(h) => Removed(s.pcs, h);
    case Enter(h) => Updated(s.pcs, h, Next(s, a).pcs[h]);
    case Record(h, _, _) => Updated(s.pcs, h, Next(s, a).pcs[h]);
    case Gate(h) => Updated(s.pcs, h, Next(s, a).pcs[h]);
    case Check(h) => Updated(s.pcs, h, Next(s, a).pcs[h]);
    case Abandon(h) => Updated(s.pcs, h, Next(s, a).pcs[h]);
  }

  lemma StepCurrent(s: State, a: Act)
    requires Current(s) && Enabled(s, a)
    ensures Current(Next(s, a))
  {
    hide Past, Rows;
    PastArrived();
    StepTallied(s, a);
    if a.BeginCase? {
      if s.active == 0 { NobodyThere(s); }
    } else {
      StepArrived(s, a);
    }
  }

  lemma NobodyThere(s: State)
    requires Current(s) && s.active == 0
    ensures s.pcs == map[]
  {
    assert s.pcs.Keys == {};
  }

  lemma StepArrived(s: State, a: Act)
    requires Enabled(s, a) && !a.BeginCase? && forall h | h in s.pcs :: s.pcs[h].arrived == s.caseId
    ensures forall h | h in Next(s, a).pcs :: Next(s, a).pcs[h].arrived == Next(s, a).caseId
  {
    hide Past, Rows;
    PastArrived();
  }

  lemma PastArrived()
    ensures forall x, y, z :: Past(x, y, z).arrived == x
  {
  }

  lemma RecordListed(s: State, h: handler, payload: bytes, reach: Reach)
    requires Current(s) && Listed(s) && h in s.pcs && s.pcs[h].Entered?
    ensures Listed(Recorded(s, h, payload, reach))
  {
    hide Numbered, Count;
    var e := Entry(s.caseId, s.shape, |s.requests| + 1, payload);
    var n := Recorded(s, h, payload, reach);
    NumberedAppend(s.all, e);
    forall c ensures Count(n.all, c) == Count(s.all, c) + if c == s.caseId then 1 else 0 {
      CountAppend(s.all, e, c);
    }
    assert n.requests == n.all[|n.all| - |n.requests|..];
    assert forall i | 0 <= i < |n.all| :: n.origins[i] == n.all[i].caseId;
  }

  lemma StepListed(s: State, a: Act)
    requires Current(s) && Listed(s) && Enabled(s, a)
    ensures Listed(Next(s, a))
  {
    hide Numbered, Count, Recorded;
    match a
    case Record(h, payload, reach) => RecordListed(s, h, payload, reach);
    case BeginCase(_, _) => assert s.all[|s.all|..] == [];
    case _ =>
  }

  lemma StepGated(s: State, a: Act)
    requires Current(s) && Gated(s) && Enabled(s, a)
    ensures Gated(Next(s, a))
  {
    if a.BeginCase? && s.active == 0 { assert s.pcs.Keys == {}; }
  }

  lemma StepKept(s: State, a: Act)
    requires Kept(s) && Enabled(s, a)
    ensures Kept(Next(s, a))
  {
    if a.Record? {
      var n := Next(s, a);
      assert n.all[..|s.all|] == s.all && n.reaches[..|s.all|] == s.reaches;
    }
  }

  lemma {:induction false} RunInv(states: seq<State>, acts: seq<Act>, i: nat)
    requires Run(states, acts) && i < |states|
    ensures Inv(states[i])
  {
    if i > 0 {
      hide Next, Current, Listed, Gated, Kept;
      RunInv(states, acts, i - 1);
      var s, a := states[i - 1], acts[i - 1];
      assert Enabled(s, a) && states[i - 1 + 1] == Next(s, a);
      StepCurrent(s, a);
      StepListed(s, a);
      StepGated(s, a);
      StepKept(s, a);
    }
  }

  // ---------------------------------------------------------------------
  // What every interleaving guarantees
  // ---------------------------------------------------------------------

  /** Each request is recorded under the case in which its handler entered, and within each case the
      numbers run from 1 without gaps. */
  lemma RecordedWhereEntered(states: seq<State>, acts: seq<Act>, i: nat)
    requires Run(states, acts) && i < |states|
    ensures var s := states[i];
      && |s.origins| == |s.all| && (forall k | 0 <= k < |s.all| :: s.all[k].caseId == s.origins[k])
      && Numbered(s.all)
      && (forall k | 0 <= k < |s.requests| :: s.requests[k].number == k + 1 && s.requests[k].caseId == s.caseId)
  {
    hide Run, Count, Current, Gated, Kept;
    RunInv(states, acts, i);
    RequestNumbers(states[i]);
  }

  lemma RequestNumbers(s: State)
    requires Listed(s)
    ensures forall k | 0 <= k < |s.requests| :: s.requests[k].number == k + 1
  {
    hide Listed;
    forall k | 0 <= k < |s.requests| ensures s.requests[k].number == k + 1 {
      RequestNumber(s, k);
    }
  }

  lemma RequestNumber(s: State, k: nat)
    requires Listed(s) && k < |s.requests|
    ensures s.requests[k].number == k + 1
  {
    hide Count;
    var base := |s.all| - |s.requests|;
    assert forall i | base + k <= i < |s.all| :: s.all[i] == s.requests[i - base];
    CountTail(s.all, s.caseId, base + k, |s.requests| - k);
    assert s.all[..base + k + (|s.requests| - k)] == s.all;
  }

  /** A stretch of entries of one case counts in full. */
  lemma {:induction false} CountTail(entries: seq<Entry>, c: nat, from: nat, n: nat)
    requires from + n <= |entries| && forall i | from <= i < from + n :: entries[i].caseId == c
    ensures Count(entries[..from + n], c) == Count(entries[..from], c) + n
    decreases n
  {
    if n > 0 {
      CountTail(entries, c, from, n - 1);
      assert entries[..from + n] == entries[..from + n - 1] + [entries[from + n - 1]];
      CountAppend(entries[..from + n - 1], entries[from + n - 1], c);
    }
  }

  /** A new case begins only when no handler is active, so none is ever blocked across it; otherwise
      the driver is refused and nothing changes. */
  lemma CaseBoundary(states: seq<State>, acts: seq<Act>, i: nat)
    requires Run(states, acts) && i < |acts| && acts[i].BeginCase?
    ensures states[i].pcs != map[] ==> states[i + 1] == states[i]
    ensures states[i].pcs == map[] ==> states[i + 1].caseId == states[i].caseId + 1 && states[i + 1].pcs == map[]
    ensures states[i].pcs == map[] ==>
      var n := states[i + 1];
      && n.shape == acts[i].shape && n.gate == acts[i].gate && n.requests == [] && !n.reached && !n.released
      && n.all == states[i].all && n.ledger == states[i].ledger
  {
    hide Listed, Gated, Kept;
    RunInv(states, acts, i);
    assert states[i].active == 0 <==> states[i].pcs == map[] by {
      if states[i].active == 0 { assert states[i].pcs.Keys == {}; }
    }
  }

  /** Recording a request appends one entry to both lists, with the case, shape, next number and payload,
      and its handler goes on to the first gate, or leaves if the ledger write raised. */
  lemma RecordsRequest(states: seq<State>, acts: seq<Act>, i: nat)
    requires Run(states, acts) && i < |acts| && acts[i].Record?
    ensures var s, n, h := states[i], states[i + 1], acts[i].h;
      var e := Entry(s.caseId, s.shape, |s.requests| + 1, acts[i].payload);
      && h in s.pcs && n.requests == s.requests + [e] && n.all == s.all + [e]
      && n.pcs == s.pcs[h := if acts[i].reach == Line(false) then At(s.pcs[h].arrived, e.number, AfterPost) else Leaving(s.pcs[h].arrived)]
      && (acts[i].reach.Line? ==> n.ledger == s.ledger + [Whole(e)])
  {
    assert Enabled(states[i], acts[i]) && states[i + 1] == Next(states[i], acts[i]);
  }

  /** Releasing the gate does that and nothing else. */
  lemma ReleaseOpens(states: seq<State>, acts: seq<Act>, i: nat)
    requires Run(states, acts) && i < |acts| && acts[i] == ReleaseGate
    ensures states[i + 1] == states[i].(released := true)
  {
    assert states[i + 1] == Next(states[i], acts[i]);
  }

  /** A handler blocks only while the gate is shut. */
  lemma BlocksOnlyWhenShut(states: seq<State>, acts: seq<Act>, i: nat, h: handler)
    requires Run(states, acts) && i < |acts|
    requires h in states[i + 1].pcs && states[i + 1].pcs[h].Blocked? && (h !in states[i].pcs || !states[i].pcs[h].Blocked?)
    ensures !states[i].released && !states[i + 1].released
  {
    assert states[i + 1] == Next(states[i], acts[i]);
  }

  /** A handler that arrives at a gate blocks there if and only if that gate is set and not released, and
      the driver is told exactly if it is set; otherwise it goes on to its next gate, or leaves after
      the last. */
  lemma GateHolds(states: seq<State>, acts: seq<Act>, i: nat, h: handler)
    requires Run(states, acts) && i < |acts| && acts[i] == Gate(h)
    ensures var s, n := states[i], states[i + 1];
      && h in s.pcs && s.pcs[h].At? && h in n.pcs
      && var p := s.pcs[h];
         var here := s.gate == Some((p.number, p.phase));
         && (n.reached <==> s.reached || here) && n.released == s.released
         && n.pcs[h] ==
              (if here && !s.released then Blocked(p.arrived, p.number, p.phase)
               else
                 match p.phase
                 case AfterPost => At(p.arrived, p.number, BeforeHeaders)
                 case BeforeHeaders => At(p.arrived, p.number, BetweenChunks)
                 case BetweenChunks => Leaving(p.arrived))
  {
    assert Enabled(states[i], acts[i]) && states[i + 1] == Next(states[i], acts[i]);
  }

  lemma StillBlocked(s: State, a: Act, h: handler)
    requires Enabled(s, a) && h in s.pcs && s.pcs[h].Blocked? && !s.released
    ensures h in Next(s, a).pcs && Next(s, a).pcs[h] == s.pcs[h]
  {
    hide Past, Rows;
  }

  /** And it stays there, whatever the others do, until the gate is released. */
  lemma {:induction false} BlockedUntilReleased(states: seq<State>, acts: seq<Act>, i: nat, j: nat, h: handler)
    requires Run(states, acts) && i <= j < |states| && h in states[i].pcs && states[i].pcs[h].Blocked?
    requires forall k | i <= k < j :: !states[k].released
    ensures h in states[j].pcs && states[j].pcs[h] == states[i].pcs[h]
    decreases j
  {
    hide Next, Enabled, Run;
    if i < j {
      BlockedUntilReleased(states, acts, i, j - 1, h);
      RunAt(states, acts, j - 1);
      StillBlocked(states[j - 1], acts[j - 1], h);
    }
  }

  /** The handler's next look at the gate lets it through. */
  predicate Passes(s: State, h: handler)
  {
    Enabled(s, Check(h)) && h in Next(s, Check(h)).pcs && !Next(s, Check(h)).pcs[h].Blocked?
  }

  /** After release, a handler that is still blocked stays free to go: its next check passes, and
      nothing the driver does can shut the gate again before that. */
  lemma {:induction false} ReleaseFrees(states: seq<State>, acts: seq<Act>, i: nat, j: nat, h: handler)
    requires Run(states, acts) && i <= j < |states| && states[i].released
    requires forall k | i <= k <= j :: h in states[k].pcs && states[k].pcs[h].Blocked?
    ensures states[j].released && Passes(states[j], h)
    decreases j
  {
    hide Next, Listed, Gated, Kept, Enabled, Run, Passes;
    if i < j {
      ReleaseFrees(states, acts, i, j - 1, h);
      RunInv(states, acts, j - 1);
      RunAt(states, acts, j - 1);
      ReleasedStays(states[j - 1], acts[j - 1], h);
    }
    ReleasedPasses(states[j], h);
  }

  lemma RunAt(states: seq<State>, acts: seq<Act>, i: nat)
    requires Run(states, acts) && i + 1 < |states|
    ensures i < |acts| && Enabled(states[i], acts[i]) && states[i + 1] == Next(states[i], acts[i])
  {
  }

  lemma ReleasedStays(s: State, a: Act, h: handler)
    requires Current(s) && Enabled(s, a) && s.released && h in s.pcs
    ensures Next(s, a).released
  {
    assert h in s.pcs.Keys;
  }

  lemma ReleasedPasses(s: State, h: handler)
    requires h in s.pcs && s.pcs[h].Blocked? && s.released
    ensures Passes(s, h)
  {
  }

  // ---------------------------------------------------------------------
  // The ledger file
  // ---------------------------------------------------------------------

  function Wholes(all: seq<Entry>): (rows: seq<Row>) { seq(|all|, i requires 0 <= i < |all| => Whole(all[i])) }

  lemma {:induction false} ShortIsFewer(all: seq<Entry>, reaches: seq<Reach>)
    requires |all| == |reaches|
    ensures |LedgerOf(all, reaches)| <= |all|
    ensures (forall k | 0 <= k < |all| :: reaches[k].Line?) ==> LedgerOf(all, reaches) == Wholes(all)
    ensures LedgerOf(all, reaches) == Wholes(all) ==> forall k | 0 <= k < |all| :: reaches[k].Line?
  {
    if all != [] {
      var last := |all| - 1;
      ShortIsFewer(all[..last], reaches[..last]);
      var rows := LedgerOf(all[..last], reaches[..last]);
      assert Wholes(all) == Wholes(all[..last]) + [Whole(all[last])];
      if LedgerOf(all, reaches) == Wholes(all) {
        var tail := Rows(all[last], reaches[last]);
        assert |rows + tail| == |all|;
        assert (rows + tail)[last] == Whole(all[last]);
        assert rows == (rows + tail)[..last] == Wholes(all[..last]);
        forall k | 0 <= k < |all| ensures reaches[k].Line? {
          if k < last { assert reaches[..last][k] == reaches[k]; }
        }
      }
    }
  }

  /** The file is the in-memory ledger exactly when no write fell short: the entry is appended to
      memory before it is written. */
  lemma LedgerExact(states: seq<State>, acts: seq<Act>, i: nat)
    requires Run(states, acts) && i < |states|
    ensures |states[i].reaches| == |states[i].all|
    ensures states[i].ledger == Wholes(states[i].all) <==> forall k | 0 <= k < |states[i].all| :: states[i].reaches[k].Line?
  {
    hide Run, Current, Listed, Gated, LedgerOf;
    RunInv(states, acts, i);
    ShortIsFewer(states[i].all, states[i].reaches);
  }

  /** One short write is enough: the entry is in memory, and not in the file. */
  lemma ShortWriteLags(payload: bytes, torn: bool) returns (states: seq<State>, acts: seq<Act>)
    ensures Run(states, acts) && |states| == 3 && |states[2].all| == 1
    ensures states[2].ledger != Wholes(states[2].all)
  {
    acts := [Enter(0), Record(0, payload, Short(torn))];
    var entered := Next(INITIAL, acts[0]);
    var recorded := Next(entered, acts[1]);
    states := [INITIAL, entered, recorded];
    assert |Wholes(recorded.all)| == 1 && Wholes(recorded.all)[0].Whole?;
  }
}
