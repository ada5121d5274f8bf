/** Choosing the credential for a provider: the active account if it is usable, else at
    most one hop through the rotation policy. */
module Resolver {
  import opened Bytes
  import opened AccountStore

  datatype Trigger = RateLimit(untilMs: u64) | AuthExpired | RefreshFailed

  datatype Decision = RotateTo(alias: bytes) | Wait | Stop

  datatype Problem =
    | NoClock
    | NoActive
    | UnknownTarget
    | ForeignTarget
    | TargetLimited(untilMs: u64)
    | Unusable(alias: bytes)
    | Declined(trigger: Trigger, retryable: bool)

  datatype Outcome = Chosen(descriptor: Descriptor) | Failed(problem: Problem)

  /** The result, and the calls made to the policy on the way. */
  datatype Resolution = Resolution(outcome: Outcome, calls: seq<(bytes, Trigger)>)

  /** Any policy: what it answers to a call. */
  type Policy = (bytes, Trigger) -> Decision

  /** A policy that only knows rate limits stops on authentication failures. */
  function LimitsOnly(onLimited: (bytes, u64) -> Decision): (p: Policy)
  {
    (alias: bytes, trigger: Trigger) => if trigger.RateLimit? then onLimited(alias, trigger.untilMs) else Stop
  }

  function ActiveOf(provider: bytes): (p: Descriptor -> bool) { (d: Descriptor) => d.provider == provider && d.active }

  /** The first active descriptor of the provider. */
  function ActiveFor(ds: seq<Descriptor>, provider: bytes): (r: Option<Descriptor>)
    ensures r.Some? ==> exists k :: ActiveAt(ds, k, provider) && ds[k] == r.value
    ensures r.None? ==> forall k :: !ActiveAt(ds, k, provider)
  {
    var i := FirstFrom(ds, ActiveOf(provider), 0);
    if i.None? then None else assert ActiveAt(ds, i.value, provider); Some(ds[i.value])
  }

  predicate UsableAt(status: Status, now: u64) { status.Ok? || (status.Limited? && now >= status.untilMs) }

  /** The second half: one call to the policy, and its answer checked. `later` is the clock read
      when the target is limited. */
  function Alternate(ds: seq<Descriptor>, policy: Policy, provider: bytes, active: bytes, trigger: Trigger,
                     later: Option<u64>): (r: Resolution)
  {
    Resolution(
      match policy(active, trigger)
      case Wait => Failed(Declined(trigger, true))
      case Stop => Failed(Declined(trigger, false))
      case RotateTo(alias) =>
        match Position(ds, alias)
        case None => Failed(UnknownTarget)
        case Some(i) =>
          if ds[i].provider != provider then Failed(ForeignTarget)
          else
            match ds[i].status
            case Ok => Chosen(ds[i])
            case Limited(until) =>
              if later.None? then Failed(NoClock)
              else if later.value >= until then Chosen(ds[i]) else Failed(TargetLimited(until))
            case _ => Failed(Unusable(alias)),
      [(active, trigger)])
  }

  function Resolve(ds: seq<Descriptor>, policy: Policy, provider: bytes, now: Option<u64>, later: Option<u64>): (r: Resolution)
  {
    if now.None? then Resolution(Failed(NoClock), []) else
    match ActiveFor(ds, provider)
    case None => Resolution(Failed(NoActive), [])
    case Some(active) =>
      match active.status
      case Ok => Resolution(Chosen(active), [])
      case Limited(until) =>
        if now.value >= until then Resolution(Chosen(active), [])
        else Alternate(ds, policy, provider, active.alias, RateLimit(until), later)
      case Expired => Alternate(ds, policy, provider, active.alias, AuthExpired, later)
      case NeedsAttention(_) => Alternate(ds, policy, provider, active.alias, AuthExpired, later)
      case Revoked => Resolution(Failed(Unusable(active.alias)), [])
  }

  /** In a valid store, a provider with accounts has one active account, and it is the one found. */
  lemma TheActive(ds: seq<Descriptor>, provider: bytes)
    requires Valid(ds)
    ensures ActiveFor(ds, provider).Some? <==> HasProvider(ds, provider)
    ensures forall k | ActiveAt(ds, k, provider) :: ActiveFor(ds, provider) == Some(ds[k])
  {
    if k :| 0 <= k < |ds| && ds[k].provider == provider {
      assert OneActive(ds, ds[k].provider);
    }
    forall k | ActiveAt(ds, k, provider) ensures ActiveFor(ds, provider) == Some(ds[k]) {
      assert OneActive(ds, ds[k].provider);
    }
  }

  /** The target of a rotation, if the policy names a usable account of the same provider. */
  ghost predicate Rotates(ds: seq<Descriptor>, d: Descriptor, policy: Policy, provider: bytes, call: (bytes, Trigger), later: Option<u64>)
  {
    && policy(call.0, call.1) == RotateTo(d.alias) && d in ds && d.provider == provider
    && (d.status.Ok? || (later.Some? && UsableAt(d.status, later.value)))
  }

  /** Exactly what can be chosen: the active account if usable now, else the one account that the
      policy's single answer names, if it belongs to the provider and is usable at the second reading.
      The policy is called at most once, and only for a live account that is not usable. */
  lemma SingleHop(ds: seq<Descriptor>, policy: Policy, provider: bytes, now: Option<u64>, later: Option<u64>, k: nat, d: Descriptor)
    requires Valid(ds) && ActiveAt(ds, k, provider) && now.Some?
    ensures var r := Resolve(ds, policy, provider, now, later);
      && (r.calls == [] <==> UsableAt(ds[k].status, now.value) || ds[k].status.Revoked?)
      && (r.calls != [] ==> |r.calls| == 1 && r.calls[0].0 == ds[k].alias && Reason(ds[k].status) == Some(r.calls[0].1))
      && (r.outcome == Chosen(d) <==>
           || (UsableAt(ds[k].status, now.value) && d == ds[k])
           || (r.calls != [] && Rotates(ds, d, policy, provider, r.calls[0], later)))
  {
    hide Valid, Position, OneActive, ActiveFor;
    TheActive(ds, provider);
    var r := Resolve(ds, policy, provider, now, later);
    if r.calls != [] {
      AlternateChooses(ds, policy, provider, r.calls[0].0, r.calls[0].1, later, d);
    }
  }

  /** Why a credential with this status is taken to the policy. */
  function Reason(status: Status): (t: Option<Trigger>)
  {
    match status
    case Limited(until) => Some(RateLimit(until))
    case Expired => Some(AuthExpired)
    case NeedsAttention(_) => Some(AuthExpired)
    case _ => None
  }

  /** The hop alone, for any trigger: nothing but a usable account of the provider is chosen. */
  lemma AlternateChooses(ds: seq<Descriptor>, policy: Policy, provider: bytes, active: bytes, trigger: Trigger,
                         later: Option<u64>, d: Descriptor)
    requires Valid(ds)
    ensures Alternate(ds, policy, provider, active, trigger, later).outcome == Chosen(d)
       <==> Rotates(ds, d, policy, provider, (active, trigger), later)
  {
    hide OneActive;
    match policy(active, trigger)
    case RotateTo(alias) =>
      if d in ds && d.alias == alias {
        var j :| 0 <= j < |ds| && ds[j] == d;
        assert HasAlias(ds, alias);
        assert Position(ds, alias) == Some(j);
      }
    case _ =>
  }

  /** Without an active account, or without a clock, the policy is not asked. */
  lemma NothingToResolve(ds: seq<Descriptor>, policy: Policy, provider: bytes, now: Option<u64>, later: Option<u64>)
    requires Valid(ds) && (now.None? || !HasProvider(ds, provider))
    ensures var r := Resolve(ds, policy, provider, now, later);
      r.calls == [] && r.outcome == Failed(if now.None? then NoClock else NoActive)
  {
    hide Valid, ActiveFor;
    TheActive(ds, provider);
  }

  /** Under a policy that only knows rate limits, an expired or unreadable active account is never
      rotated away from. */
  lemma LimitsOnlyStops(ds: seq<Descriptor>, onLimited: (bytes, u64) -> Decision, provider: bytes, now: Option<u64>,
                        later: Option<u64>, k: nat)
    requires Valid(ds) && ActiveAt(ds, k, provider) && now.Some? && (ds[k].status.Expired? || ds[k].status.NeedsAttention?)
    ensures Resolve(ds, LimitsOnly(onLimited), provider, now, later).outcome == Failed(Declined(AuthExpired, false))
  {
    hide Valid, ActiveFor, Position;
    TheActive(ds, provider);
  }

  /** What the failing outcomes are: a revoked account is unusable; a policy that waits or stops declines
      for the reason it was given, retryably if it waits; and a target that is not chosen is unknown,
      foreign, still limited, unusable, or cannot be judged without a clock. */
  lemma FailsAs(ds: seq<Descriptor>, policy: Policy, provider: bytes, now: Option<u64>, later: Option<u64>, k: nat, j: nat)
    requires Valid(ds) && ActiveAt(ds, k, provider) && now.Some? && !UsableAt(ds[k].status, now.value)
    ensures var o := Resolve(ds, policy, provider, now, later).outcome;
      if ds[k].status.Revoked? then o == Failed(Unusable(ds[k].alias))
      else
        var why := Reason(ds[k].status).value;
        match policy(ds[k].alias, why)
        case Wait => o == Failed(Declined(why, true))
        case Stop => o == Failed(Declined(why, false))
        case RotateTo(a) =>
          && (!HasAlias(ds, a) ==> o == Failed(UnknownTarget))
          && (j < |ds| && ds[j].alias == a ==>
                if ds[j].provider != provider then o == Failed(ForeignTarget)
                else if ds[j].status.Limited? then
                  if later.None? then o == Failed(NoClock)
                  else if later.value < ds[j].status.untilMs then o == Failed(TargetLimited(ds[j].status.untilMs))
                  else o == Chosen(ds[j])
                else o == if ds[j].status.Ok? then Chosen(ds[j]) else Failed(Unusable(a)))
  {
    hide OneActive, ActiveFor, Position;
    TheActive(ds, provider);
    var why := Reason(ds[k].status);
    if why.Some? && policy(ds[k].alias, why.value).RotateTo? {
      var a := policy(ds[k].alias, why.value).alias;
      if j < |ds| && ds[j].alias == a { assert HasAlias(ds, a); }
    }
  }
}
