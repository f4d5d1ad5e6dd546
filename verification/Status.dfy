/** The observable state of the Control Node link and the audit transitions it emits. */
module Status {
  import opened Wrappers

  datatype LinkState = File | Pending | Synced | Degraded
  datatype Resource = Config | Keys
  datatype Reason = NotStarted | Unauthorized | Transport | UnexpectedStatus | InvalidBody | BuildFailed
  datatype SyncFailure = SyncFailure(resource: Resource, reason: Reason, detail: string)
  datatype Identity = Identity(gatewayId: string, orgId: string, group: Option<string>, environment: string)
  datatype Transition = Quiet | Degrades(failure: SyncFailure) | Recovered

  /** A poll of one resource: a newly applied version, unchanged, or a failure. */
  type PollResult = Result<Option<string>, SyncFailure>

  const U32_MAX: nat := 0xFFFF_FFFF

  datatype Inner = Inner(
    state: LinkState, endpoint: Option<string>, configVersion: Option<string>, keysVersion: Option<string>,
    identity: Option<Identity>, lastSuccess: Option<int>, lastFailure: Option<(int, SyncFailure)>,
    consecutiveFailures: nat)

  function Initial(state: LinkState, endpoint: Option<string>): Inner {
    Inner(state, endpoint, None, None, None, None, None, 0)
  }

  /** The failure a tick surfaces: config's first. */
  function TickFailure(config: PollResult, keys: PollResult): Option<SyncFailure> {
    if config.Err? then Some(config.error) else if keys.Err? then Some(keys.error) else None
  }

  function NewVersion(was: Option<string>, r: PollResult): Option<string> {
    if r.Ok? && r.value.Some? then r.value else was
  }

  predicate SameShape(a: SyncFailure, b: SyncFailure) {
    a.resource == b.resource && a.reason == b.reason
  }

  function Saturated(n: int): nat {
    if n > U32_MAX then U32_MAX else if n < 0 then 0 else n
  }

  function RecordTick(s: Inner, config: PollResult, keys: PollResult, now: int): (Inner, Transition) {
    var s' := s.(configVersion := NewVersion(s.configVersion, config), keysVersion := NewVersion(s.keysVersion, keys));
    match TickFailure(config, keys)
    case Some(failure) =>
      var changed := s.lastFailure.None? || !SameShape(s.lastFailure.value.1, failure);
      (s'.(state := Degraded, consecutiveFailures := Saturated(s.consecutiveFailures + 1),
           lastFailure := Some((now, failure))),
       if s.state != Degraded || changed then Degrades(failure) else Quiet)
    case None =>
      (s'.(state := Synced, consecutiveFailures := 0, lastSuccess := Some(now)),
       if s.state == Degraded then Recovered else Quiet)
  }

  function Identified(s: Inner, identity: Option<Identity>): Inner {
    s.(identity := identity)
  }

  class StatusHandle {
    var state: LinkState
    var endpoint: Option<string>
    var configVersion: Option<string>
    var keysVersion: Option<string>
    var identity: Option<Identity>
    var lastSuccess: Option<int>
    var lastFailure: Option<(int, SyncFailure)>
    var consecutiveFailures: nat

    function View(): Inner
      reads this
    {
      Inner(state, endpoint, configVersion, keysVersion, identity, lastSuccess, lastFailure, consecutiveFailures)
    }

    constructor (state: LinkState, endpoint: Option<string>)
      ensures View() == Initial(state, endpoint)
    {
      this.state, this.endpoint := state, endpoint;
      configVersion, keysVersion, identity := None, None, None;
      lastSuccess, lastFailure, consecutiveFailures := None, None, 0;
    }

    method ReportNotStarted(detail: string, now: int)
      modifies this
      ensures View() == old(View()).(
                state := Degraded, lastFailure := Some((now, SyncFailure(Config, NotStarted, detail))))
    {
      state := Degraded;
      lastFailure := Some((now, SyncFailure(Config, NotStarted, detail)));
    }

    method SetIdentity(identity: Identity)
      modifies this
      ensures View() == Identified(old(View()), Some(identity))
    {
      this.identity := Some(identity);
    }

    method Record(config: PollResult, keys: PollResult, now: int) returns (t: Transition)
      modifies this
      ensures (View(), t) == RecordTick(old(View()), config, keys, now)
    {
      var was := state;
      if config.Ok? && config.value.Some? {
        configVersion := config.value;
      }
      if keys.Ok? && keys.value.Some? {
        keysVersion := keys.value;
      }
      var failure := TickFailure(config, keys);
      if failure.Some? {
        state := Degraded;
        consecutiveFailures := if consecutiveFailures < U32_MAX then consecutiveFailures + 1 else U32_MAX;
        var changed := lastFailure.None? || !SameShape(lastFailure.value.1, failure.value);
        lastFailure := Some((now, failure.value));
        t := if was != Degraded || changed then Degrades(failure.value) else Quiet;
      } else {
        state := Synced;
        consecutiveFailures := 0;
        lastSuccess := Some(now);
        t := if was == Degraded then Recovered else Quiet;
      }
    }
  }

  // ----- the audit stream over whole runs -----

  datatype Tick = Tick(config: PollResult, keys: PollResult, now: int)

  function Run(s: Inner, ticks: seq<Tick>): Inner {
    if ticks == [] then s
    else
      var last := ticks[|ticks| - 1];
      RecordTick(Run(s, ticks[..|ticks| - 1]), last.config, last.keys, last.now).0
  }

  /** The audited transitions of a run, in order. */
  function Audits(s: Inner, ticks: seq<Tick>): seq<Transition> {
    if ticks == [] then []
    else
      var before, last := ticks[..|ticks| - 1], ticks[|ticks| - 1];
      var t := RecordTick(Run(s, before), last.config, last.keys, last.now).1;
      Audits(s, before) + if t == Quiet then [] else [t]
  }

  /** The abstract link: healthy, or failing with a resource and a reason. */
  datatype Health = Healthy | Failing(resource: Resource, reason: Reason)

  function Shape(f: SyncFailure): Health {
    Failing(f.resource, f.reason)
  }

  function HealthOf(t: Tick): Health {
    match TickFailure(t.config, t.keys)
    case None => Healthy
    case Some(f) => Shape(f)
  }

  /** The abstract link after a run; it starts out healthy. */
  function LastHealth(ticks: seq<Tick>): Health {
    if ticks == [] then Healthy else HealthOf(ticks[|ticks| - 1])
  }

  /** The changes of the abstract link, each reported once. */
  function Changes(ticks: seq<Tick>): seq<Transition> {
    if ticks == [] then []
    else
      var before, last := ticks[..|ticks| - 1], ticks[|ticks| - 1];
      Changes(before) +
      if HealthOf(last) == LastHealth(before) then []
      else if HealthOf(last) == Healthy then [Recovered]
      else [Degrades(TickFailure(last.config, last.keys).value)]
  }

  /** Length of the longest failing run of ticks at the end. */
  function FailingSuffix(ticks: seq<Tick>): nat {
    if ticks == [] || HealthOf(ticks[|ticks| - 1]) == Healthy then 0
    else 1 + FailingSuffix(ticks[..|ticks| - 1])
  }

  /** From pending, the audit events are exactly the changes of the abstract link, the state
      tells whether the last tick failed, and the counter is the length of the failing suffix,
      saturating at the u32 maximum. */
  lemma {:induction false} AuditRefinesHealth(endpoint: Option<string>, ticks: seq<Tick>)
    ensures var s := Run(Initial(Pending, endpoint), ticks);
            && Audits(Initial(Pending, endpoint), ticks) == Changes(ticks)
            && s.state == (if ticks == [] then Pending else if LastHealth(ticks) == Healthy then Synced else Degraded)
            && s.consecutiveFailures == Saturated(FailingSuffix(ticks))
            && (s.state == Degraded ==> s.lastFailure.Some? && LastHealth(ticks) == Shape(s.lastFailure.value.1))
  {
    if ticks != [] {
      AuditRefinesHealth(endpoint, ticks[..|ticks| - 1]);
    }
  }

  /** The identity never influences the link, and no tick changes it. */
  lemma {:induction false} IdentityIsIndependent(s: Inner, identity: Option<Identity>, ticks: seq<Tick>)
    ensures Run(Identified(s, identity), ticks) == Identified(Run(s, ticks), identity)
    ensures Audits(Identified(s, identity), ticks) == Audits(s, ticks)
    ensures Run(s, ticks).identity == s.identity
  {
    if ticks != [] {
      IdentityIsIndependent(s, identity, ticks[..|ticks| - 1]);
    }
  }
}
