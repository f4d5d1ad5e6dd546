/** Whole runs of client ticks against an arbitrary server, and against an honest one. */
module SyncRuns {
  import opened Wrappers
  import opened ConfigMap
  import opened Runtime
  import opened KeyStore
  import opened ControlNode
  import S = Status

  function Run(local: Local, start: Node, inputs: seq<Input>): Node {
    if inputs == [] then start
    else Tick(local, Run(local, start, inputs[..|inputs| - 1]), inputs[|inputs| - 1])
  }

  /** A gateway as the client finds it: no ETag committed and no version applied yet. */
  ghost predicate Fresh(n: Node) {
    && n.configEtag == None && n.keysEtag == None && n.audits == []
    && exists endpoint :: n.status == S.Initial(S.Pending, endpoint)
  }

  /** A tick that delivered a bundle which builds. */
  predicate AppliesConfig(local: Local, i: Input) {
    i.config.Ok200? && i.config.body.Some? && Builds(local, i.env, i.config.body.value)
  }

  predicate AppliesKeys(i: Input) {
    i.keys.Ok200? && i.keys.body.Some?
  }

  /** The last tick that applied a bundle. */
  function LastConfig(local: Local, inputs: seq<Input>): (r: Option<nat>)
    ensures r.Some? ==> r.value < |inputs| && AppliesConfig(local, inputs[r.value])
    ensures forall k | (if r.Some? then r.value + 1 else 0) <= k < |inputs| :: !AppliesConfig(local, inputs[k])
  {
    if inputs == [] then None
    else if AppliesConfig(local, inputs[|inputs| - 1]) then Some(|inputs| - 1)
    else LastConfig(local, inputs[..|inputs| - 1])
  }

  function LastKeys(inputs: seq<Input>): (r: Option<nat>)
    ensures r.Some? ==> r.value < |inputs| && AppliesKeys(inputs[r.value])
    ensures forall k | (if r.Some? then r.value + 1 else 0) <= k < |inputs| :: !AppliesKeys(inputs[k])
  {
    if inputs == [] then None
    else if AppliesKeys(inputs[|inputs| - 1]) then Some(|inputs| - 1)
    else LastKeys(inputs[..|inputs| - 1])
  }

  /** The runtime, its ETag and its version are those of one and the same bundle. */
  ghost predicate ConfigIs(local: Local, n: Node, i: Input)
    requires AppliesConfig(local, i)
  {
    && n.runtime == Built(local, i.config.body.value)
    && n.configEtag == i.config.etag
    && n.status.configVersion == Some(i.config.body.value.version)
  }

  ghost predicate KeysAre(n: Node, i: Input)
    requires AppliesKeys(i)
  {
    && n.keys == ByHash(ToVirtualKeys(i.keys.body.value.keys))
    && n.keysEtag == i.keys.etag
    && n.status.keysVersion == Some(i.keys.body.value.version)
  }

  lemma TickConfig(local: Local, n: Node, i: Input)
    ensures var n' := Tick(local, n, i);
            if AppliesConfig(local, i) then ConfigIs(local, n', i)
            else
              && n'.runtime == n.runtime && n'.configEtag == n.configEtag
              && n'.status.configVersion == n.status.configVersion
  {
    hide Builds, Built, ByHash, ToVirtualKeys;
  }

  lemma TickKeys(local: Local, n: Node, i: Input)
    ensures var n' := Tick(local, n, i);
            if AppliesKeys(i) then KeysAre(n', i)
            else n'.keys == n.keys && n'.keysEtag == n.keysEtag && n'.status.keysVersion == n.status.keysVersion
  {
    hide Builds, Built, ByHash, ToVirtualKeys;
  }

  /** Agreement over whole runs, against any server: the live runtime, the committed ETag and the
      reported version all come from the last bundle that built, or are all still the initial
      ones. A failed fetch, an unparseable body and a bundle that fails to build change none. */
  lemma {:induction false} ConfigAgreement(local: Local, start: Node, inputs: seq<Input>)
    ensures var n := Run(local, start, inputs);
            match LastConfig(local, inputs)
            case Some(k) => ConfigIs(local, n, inputs[k])
            case None => n.runtime == start.runtime && n.configEtag == start.configEtag
                         && n.status.configVersion == start.status.configVersion
  {
    hide Tick, AppliesConfig;
    if inputs != [] {
      ConfigAgreement(local, start, inputs[..|inputs| - 1]);
      TickConfig(local, Run(local, start, inputs[..|inputs| - 1]), inputs[|inputs| - 1]);
    }
  }

  lemma {:induction false} KeysAgreement(local: Local, start: Node, inputs: seq<Input>)
    ensures var n := Run(local, start, inputs);
            match LastKeys(inputs)
            case Some(k) => KeysAre(n, inputs[k])
            case None => n.keys == start.keys && n.keysEtag == start.keysEtag
                         && n.status.keysVersion == start.status.keysVersion
  {
    hide Tick, AppliesKeys;
    if inputs != [] {
      KeysAgreement(local, start, inputs[..|inputs| - 1]);
      TickKeys(local, Run(local, start, inputs[..|inputs| - 1]), inputs[|inputs| - 1]);
    }
  }

  // ----- an honest server -----

  /** What the server holds at a tick. */
  datatype Content = Content(bundle: Bundle, configTag: string, keySet: KeySet, keysTag: string)

  /** A 304 only when the header sent is the current ETag, and a 200 only with the current ETag and contents (its
      body may still arrive garbled); failures are unconstrained. */
  predicate HonestAnswer<T(==)>(answer: Answer<T>, sent: Option<string>, tag: string, content: T) {
    && (answer.NotModified304? ==> sent == Some(tag))
    && (answer.Ok200? ==> answer.etag == Some(tag) && (answer.body.Some? ==> answer.body.value == content))
  }

  /** Honest answers throughout, and ETags that tell contents apart. */
  ghost predicate Honest(local: Local, start: Node, inputs: seq<Input>, contents: seq<Content>) {
    && |contents| == |inputs|
    && (forall i, j | 0 <= i < |contents| && 0 <= j < |contents| ::
          && (contents[i].configTag == contents[j].configTag ==> contents[i].bundle == contents[j].bundle)
          && (contents[i].keysTag == contents[j].keysTag ==> contents[i].keySet == contents[j].keySet))
    && forall i | 0 <= i < |inputs| ::
         var n := Run(local, start, inputs[..i]);
         && HonestAnswer(inputs[i].config, IfNoneMatch(n, S.Config), contents[i].configTag, contents[i].bundle)
         && HonestAnswer(inputs[i].keys, IfNoneMatch(n, S.Keys), contents[i].keysTag, contents[i].keySet)
  }

  /** The gateway runs what the server currently holds. */
  ghost predicate FollowsConfig(local: Local, n: Node, c: Content) {
    && (exists env :: Builds(local, env, c.bundle))
    && n.runtime == Built(local, c.bundle)
    && n.configEtag == Some(c.configTag)
    && n.status.configVersion == Some(c.bundle.version)
  }

  ghost predicate FollowsKeys(n: Node, c: Content) {
    && n.keys == ByHash(ToVirtualKeys(c.keySet.keys))
    && n.keysEtag == Some(c.keysTag)
    && n.status.keysVersion == Some(c.keySet.version)
  }

  /** No broken version is ever masked: an honest 304 means the gateway already runs the bundle
      the server holds, whatever failed before. */
  lemma NotModifiedMeansFollowing(local: Local, start: Node, inputs: seq<Input>, contents: seq<Content>, i: nat)
    requires Fresh(start) && Honest(local, start, inputs, contents) && i < |inputs|
    ensures inputs[i].config.NotModified304? ==> FollowsConfig(local, Run(local, start, inputs[..i]), contents[i])
    ensures inputs[i].keys.NotModified304? ==> FollowsKeys(Run(local, start, inputs[..i]), contents[i])
  {
    hide Built, ByHash, ToVirtualKeys, Run, Builds, LastConfig, LastKeys;
    var before := inputs[..i];
    ConfigAgreement(local, start, before);
    KeysAgreement(local, start, before);
    if inputs[i].config.NotModified304? {
      var k := LastConfig(local, before).value;
      assert before[k] == inputs[k];
      assert HonestAnswer(inputs[k].config, IfNoneMatch(Run(local, start, inputs[..k]), S.Config),
                          contents[k].configTag, contents[k].bundle);
      assert contents[k].bundle == contents[i].bundle;
    }
    if inputs[i].keys.NotModified304? {
      var k := LastKeys(before).value;
      assert before[k] == inputs[k];
      assert HonestAnswer(inputs[k].keys, IfNoneMatch(Run(local, start, inputs[..k]), S.Keys), contents[k].keysTag,
                          contents[k].keySet);
      assert contents[k].keySet == contents[i].keySet;
    }
  }

  /** An answer within the contract: unchanged, or the resource itself. */
  predicate WithinContract<T>(answer: Answer<T>) {
    answer.NotModified304? || (answer.Ok200? && answer.body.Some?)
  }

  /** Convergence: after any history, one tick that the honest server answers within the contract
      with a bundle that builds leaves the gateway running exactly what the server holds, with
      the link shown as synced. */
  lemma Convergence(local: Local, start: Node, inputs: seq<Input>, contents: seq<Content>)
    requires Fresh(start) && Honest(local, start, inputs, contents) && inputs != []
    requires var last, now := inputs[|inputs| - 1], contents[|inputs| - 1];
             WithinContract(last.config) && WithinContract(last.keys) && Builds(local, last.env, now.bundle)
    ensures var n, now := Run(local, start, inputs), contents[|inputs| - 1];
            && FollowsConfig(local, n, now) && FollowsKeys(n, now)
            && n.status.state == S.Synced && n.status.consecutiveFailures == 0
  {
    hide Built, ByHash, ToVirtualKeys, Builds;
    var i := |inputs| - 1;
    var before, last := Run(local, start, inputs[..i]), inputs[i];
    NotModifiedMeansFollowing(local, start, inputs, contents, i);
    assert HonestAnswer(last.config, IfNoneMatch(before, S.Config), contents[i].configTag, contents[i].bundle);
    assert HonestAnswer(last.keys, IfNoneMatch(before, S.Keys), contents[i].keysTag, contents[i].keySet);
    TickConfig(local, before, last);
    TickKeys(local, before, last);
    TickSynced(local, before, last);
  }

  lemma TickSynced(local: Local, n: Node, i: Input)
    requires WithinContract(i.config) && WithinContract(i.keys)
    requires i.config.Ok200? ==> Builds(local, i.env, i.config.body.value)
    ensures Tick(local, n, i).status.state == S.Synced && Tick(local, n, i).status.consecutiveFailures == 0
  {
    hide Builds, Built, ByHash, ToVirtualKeys;
  }

  // ----- what the answers mean for the link -----

  /** The resource and the reason a tick's answers blame, config first; none if both were
      delivered. */
  datatype Blame = Nobody | Blamed(resource: S.Resource, reason: S.Reason)

  function BlameOne<T>(resource: S.Resource, answer: Answer<T>): Blame {
    match answer
    case Unreachable(_) => Blamed(resource, S.Transport)
    case Ok200(_, Some(_)) => Nobody
    case Ok200(_, None) => Blamed(resource, S.InvalidBody)
    case NotModified304 => Nobody
    case Unauthorized401 => Blamed(resource, S.Unauthorized)
    case OtherStatus(_) => Blamed(resource, S.UnexpectedStatus)
  }

  function BlameOf(local: Local, i: Input): Blame {
    if BlameOne(S.Config, i.config) != Nobody then BlameOne(S.Config, i.config)
    else if i.config.Ok200? && !Builds(local, i.env, i.config.body.value) then Blamed(S.Config, S.BuildFailed)
    else BlameOne(S.Keys, i.keys)
  }

  /** Both resources were delivered or unchanged, and a delivered bundle builds. */
  predicate Delivered(local: Local, i: Input) {
    && WithinContract(i.config) && WithinContract(i.keys)
    && (i.config.Ok200? ==> Builds(local, i.env, i.config.body.value))
  }

  lemma DeliveredBlamesNobody(local: Local, i: Input)
    ensures Delivered(local, i) <==> BlameOf(local, i) == Nobody
  {
  }

  /** The number of ticks since the last one that delivered. */
  function UndeliveredSuffix(local: Local, inputs: seq<Input>): nat {
    if inputs == [] || Delivered(local, inputs[|inputs| - 1]) then 0
    else 1 + UndeliveredSuffix(local, inputs[..|inputs| - 1])
  }

  lemma TickBlames(local: Local, n: Node, i: Input)
    ensures var s := Tick(local, n, i).status;
            match BlameOf(local, i)
            case Nobody => s.state == S.Synced && s.consecutiveFailures == 0 && s.lastFailure == n.status.lastFailure
            case Blamed(resource, reason) =>
              && s.state == S.Degraded && s.lastFailure.Some?
              && s.lastFailure.value.0 == i.now
              && s.lastFailure.value.1.resource == resource && s.lastFailure.value.1.reason == reason
              && s.consecutiveFailures == if n.status.consecutiveFailures >= 0xFFFF_FFFF then 0xFFFF_FFFF
                                          else n.status.consecutiveFailures + 1
  {
    hide Builds, Built, ByHash, ToVirtualKeys;
  }

  /** After any run, the last tick's answers alone decide the link: it is synced iff both were
      delivered or unchanged and a delivered bundle builds; otherwise it is degraded and names the
      resource, config first, and the reason. The failure counter is the number of ticks since the
      last delivery, saturating. */
  lemma {:induction false} AnswersDecideLink(local: Local, start: Node, inputs: seq<Input>)
    requires Fresh(start) && inputs != []
    ensures var s, last := Run(local, start, inputs).status, inputs[|inputs| - 1];
            && (s.state == S.Synced <==> Delivered(local, last))
            && (s.state == S.Degraded <==> !Delivered(local, last))
            && (!Delivered(local, last) ==>
                  && s.lastFailure.Some? && s.lastFailure.value.0 == last.now
                  && Blamed(s.lastFailure.value.1.resource, s.lastFailure.value.1.reason) == BlameOf(local, last))
            && var n := UndeliveredSuffix(local, inputs);
               s.consecutiveFailures == if n > 0xFFFF_FFFF then 0xFFFF_FFFF else n
  {
    hide Tick, BlameOf, Delivered;
    var before, last := inputs[..|inputs| - 1], inputs[|inputs| - 1];
    DeliveredBlamesNobody(local, last);
    TickBlames(local, Run(local, start, before), last);
    if before != [] {
      AnswersDecideLink(local, start, before);
    }
  }

  // ----- the audit log of a run -----

  /** The poll outcomes of a tick, which do not depend on the gateway's state. */
  function OutcomeOf(local: Local, i: Input): S.Tick {
    var config := match Fetch(S.Config, i.config)
      case Err(failure) => Err(failure)
      case Ok(NotModified) => Ok(None)
      case Ok(Modified(b, _)) => if Builds(local, i.env, b) then Ok(Some(b.version)) else Err(BuildFailure(b.version));
    var keys := match Fetch(S.Keys, i.keys)
      case Err(failure) => Err(failure)
      case Ok(NotModified) => Ok(None)
      case Ok(Modified(body, _)) => Ok(Some(body.version));
    S.Tick(config, keys, i.now)
  }

  function Outcomes(local: Local, inputs: seq<Input>): seq<S.Tick> {
    seq(|inputs|, k requires 0 <= k < |inputs| => OutcomeOf(local, inputs[k]))
  }

  function SyncAudits(audits: seq<Audit>): seq<Audit> {
    if audits == [] then []
    else
      var before, last := audits[..|audits| - 1], audits[|audits| - 1];
      SyncAudits(before) + if last.ControlPlaneSync? then [last] else []
  }

  function AsAudits(ts: seq<S.Transition>): seq<Audit> {
    if ts == [] then [] else AsAudits(ts[..|ts| - 1]) + SyncAudit(ts[|ts| - 1])
  }

  lemma {:induction false} SyncAuditsConcat(a: seq<Audit>, b: seq<Audit>)
    ensures SyncAudits(a + b) == SyncAudits(a) + SyncAudits(b)
  {
    if b == [] {
      assert a + b == a;
    } else {
      assert (a + b)[..|a + b| - 1] == a + b[..|b| - 1];
      SyncAuditsConcat(a, b[..|b| - 1]);
    }
  }

  /** The reload events a tick logs besides. */
  function Reloads(local: Local, i: Input): seq<Audit> {
    if i.config.Ok200? && i.config.body.Some? then
      [ConfigReloaded(Builds(local, i.env, i.config.body.value), i.config.body.value.version)]
    else []
  }

  lemma TickParts(local: Local, n: Node, i: Input)
    ensures var o := OutcomeOf(local, i);
            var (status, t) := S.RecordTick(n.status, o.config, o.keys, o.now);
            && Tick(local, n, i).status == status
            && Tick(local, n, i).audits == n.audits + Reloads(local, i) + SyncAudit(t)
  {
    hide Builds, Built, ByHash, ToVirtualKeys, S.RecordTick;
    assert n.audits + [] == n.audits;
  }

  lemma TickStatus(local: Local, n: Node, i: Input)
    ensures var o := OutcomeOf(local, i);
            var (status, t) := S.RecordTick(n.status, o.config, o.keys, o.now);
            && Tick(local, n, i).status == status
            && SyncAudits(Tick(local, n, i).audits) == SyncAudits(n.audits) + SyncAudit(t)
  {
    hide Tick, OutcomeOf, S.RecordTick, Builds;
    TickParts(local, n, i);
    var o := OutcomeOf(local, i);
    var t := S.RecordTick(n.status, o.config, o.keys, o.now).1;
    SyncAuditsConcat(n.audits + Reloads(local, i), SyncAudit(t));
    SyncAuditsConcat(n.audits, Reloads(local, i));
    FewSyncAudits(local, i, t);
    assert SyncAudits(n.audits) + [] == SyncAudits(n.audits);
  }

  lemma FewSyncAudits(local: Local, i: Input, t: S.Transition)
    ensures SyncAudits(Reloads(local, i)) == [] && SyncAudits(SyncAudit(t)) == SyncAudit(t)
  {
    assert Reloads(local, i) != [] ==> Reloads(local, i)[..0] == [];
    assert SyncAudit(t) != [] ==> SyncAudit(t)[..0] == [];
  }

  /** The abstract link after a run: whom its last tick blames. */
  function LinkAfter(local: Local, inputs: seq<Input>): Blame {
    if inputs == [] then Nobody else BlameOf(local, inputs[|inputs| - 1])
  }

  /** Its changes, each reported once. */
  function LinkChanges(local: Local, inputs: seq<Input>): seq<Blame> {
    if inputs == [] then []
    else
      var before, now := inputs[..|inputs| - 1], BlameOf(local, inputs[|inputs| - 1]);
      LinkChanges(local, before) + if now == LinkAfter(local, before) then [] else [now]
  }

  /** An audit event as it is read: a recovery, or a failure with a resource and a reason. */
  function ReadAudit(a: Audit): Blame {
    if a.ControlPlaneSync? && !a.ok && a.failure.Some? then Blamed(a.failure.value.resource, a.failure.value.reason)
    else Nobody
  }

  function ReadAudits(audits: seq<Audit>): seq<Blame> {
    MapSeq(ReadAudit, audits)
  }

  function HealthBlame(h: S.Health): Blame {
    match h
    case Healthy => Nobody
    case Failing(resource, reason) => Blamed(resource, reason)
  }

  lemma OutcomeBlames(local: Local, i: Input)
    ensures HealthBlame(S.HealthOf(OutcomeOf(local, i))) == BlameOf(local, i)
  {
    hide Builds;
  }

  /** The transition to what a tick found. */
  function ChangeTo(o: S.Tick): S.Transition {
    match S.TickFailure(o.config, o.keys)
    case None => S.Recovered
    case Some(f) => S.Degrades(f)
  }

  lemma ChangesSnoc(os: seq<S.Tick>)
    requires os != []
    ensures var before, o := os[..|os| - 1], os[|os| - 1];
            S.Changes(os) == if S.HealthOf(o) == S.LastHealth(before) then S.Changes(before)
                             else S.Changes(before) + [ChangeTo(o)]
  {
  }

  lemma ChangeIsRead(o: S.Tick)
    ensures ReadAudits(SyncAudit(ChangeTo(o))) == [HealthBlame(S.HealthOf(o))]
  {
    var audits := SyncAudit(ChangeTo(o));
    assert |audits| == 1 && ReadAudit(audits[0]) == HealthBlame(S.HealthOf(o));
    assert |ReadAudits(audits)| == 1 && ReadAudits(audits)[0] == ReadAudit(audits[0]);
  }

  lemma ReadConcat(a: seq<Audit>, b: seq<Audit>)
    ensures ReadAudits(a + b) == ReadAudits(a) + ReadAudits(b)
  {
  }

  lemma HealthBlameTells(a: S.Health, b: S.Health)
    ensures HealthBlame(a) == HealthBlame(b) <==> a == b
  {
  }

  lemma {:induction false} ChangesAreLinkChanges(local: Local, inputs: seq<Input>)
    ensures ReadAudits(AsAudits(S.Changes(Outcomes(local, inputs)))) == LinkChanges(local, inputs)
    ensures HealthBlame(S.LastHealth(Outcomes(local, inputs))) == LinkAfter(local, inputs)
  {
    hide OutcomeOf, BlameOf, HealthBlame, ReadAudit, SyncAudit, ChangeTo, S.HealthOf, S.TickFailure, S.Changes;
    if inputs == [] {
      NobodyAtFirst();
      NoChanges();
    } else {
      var before, last := inputs[..|inputs| - 1], inputs[|inputs| - 1];
      var os := Outcomes(local, inputs);
      assert os[..|os| - 1] == Outcomes(local, before) && os[|os| - 1] == OutcomeOf(local, last);
      ChangesAreLinkChanges(local, before);
      OutcomeBlames(local, last);
      var o, was := OutcomeOf(local, last), S.LastHealth(Outcomes(local, before));
      HealthBlameTells(S.HealthOf(o), was);
      ChangesSnoc(os);
      if S.HealthOf(o) != was {
        var ts := S.Changes(Outcomes(local, before));
        ChangeIsRead(o);
        assert (ts + [ChangeTo(o)])[..|ts|] == ts;
        ReadConcat(AsAudits(ts), SyncAudit(ChangeTo(o)));
      } else {
        assert LinkChanges(local, before) + [] == LinkChanges(local, before);
      }
    }
  }

  lemma NoChanges()
    ensures S.Changes([]) == []
  {
  }

  lemma NobodyAtFirst()
    ensures HealthBlame(S.Healthy) == Nobody
  {
  }

  /** The client's link audit log over a whole run, read as recoveries and as failures with a
      resource and a reason, is exactly the changes of whom the answers blame. */
  lemma AuditLogIsChanges(local: Local, start: Node, inputs: seq<Input>)
    requires Fresh(start)
    ensures ReadAudits(SyncAudits(Run(local, start, inputs).audits)) == LinkChanges(local, inputs)
    ensures forall a | a in SyncAudits(Run(local, start, inputs).audits) ::
        a.ControlPlaneSync? && (a.ok <==> a.failure.None?)
  {
    hide Tick, S.RecordTick, OutcomeOf, LinkChanges, S.Changes, AsAudits, SyncAudits, ReadAudit;
    var endpoint :| start.status == S.Initial(S.Pending, endpoint);
    S.AuditRefinesHealth(endpoint, Outcomes(local, inputs));
    AuditLogIsAudits(local, start, inputs);
    ChangesAreLinkChanges(local, inputs);
    AuditsAreWellFormed(S.Changes(Outcomes(local, inputs)));
  }

  lemma {:induction false} AuditsAreWellFormed(ts: seq<S.Transition>)
    ensures forall a | a in AsAudits(ts) :: a.ControlPlaneSync? && (a.ok <==> a.failure.None?)
  {
    if ts != [] {
      AuditsAreWellFormed(ts[..|ts| - 1]);
    }
  }

  /** The other audit events: one for each delivered bundle, telling whether it was built. */
  function ReloadAudits(audits: seq<Audit>): seq<Audit> {
    if audits == [] then []
    else
      var before, last := audits[..|audits| - 1], audits[|audits| - 1];
      ReloadAudits(before) + if last.ConfigReloaded? then [last] else []
  }

  function ReloadsDue(local: Local, inputs: seq<Input>): seq<Audit> {
    if inputs == [] then []
    else
      var last := inputs[|inputs| - 1];
      ReloadsDue(local, inputs[..|inputs| - 1])
      + if last.config.Ok200? && last.config.body.Some? then
          var b := last.config.body.value;
          [ConfigReloaded(Buildable(last.env, Applied(local.base, b)), b.version)]
        else []
  }

  lemma {:induction false} ReloadAuditsConcat(a: seq<Audit>, b: seq<Audit>)
    ensures ReloadAudits(a + b) == ReloadAudits(a) + ReloadAudits(b)
  {
    if b == [] {
      assert a + b == a;
    } else {
      assert (a + b)[..|a + b| - 1] == a + b[..|b| - 1];
      ReloadAuditsConcat(a, b[..|b| - 1]);
    }
  }

  lemma FewReloads(local: Local, i: Input, t: S.Transition)
    ensures ReloadAudits(Reloads(local, i)) == Reloads(local, i) && ReloadAudits(SyncAudit(t)) == []
  {
    assert Reloads(local, i) != [] ==> Reloads(local, i)[..0] == [];
    assert SyncAudit(t) != [] ==> SyncAudit(t)[..0] == [];
  }

  /** Every delivered bundle is audited once, in order, with its version and whether it builds. */
  lemma {:induction false} ReloadLog(local: Local, start: Node, inputs: seq<Input>)
    requires Fresh(start)
    ensures ReloadAudits(Run(local, start, inputs).audits) == ReloadsDue(local, inputs)
  {
    hide Tick, S.RecordTick, OutcomeOf, SyncAudit, Buildable, Applied;
    if inputs != [] {
      var before, last := inputs[..|inputs| - 1], inputs[|inputs| - 1];
      var n := Run(local, start, before);
      ReloadLog(local, start, before);
      TickParts(local, n, last);
      var o := OutcomeOf(local, last);
      var t := S.RecordTick(n.status, o.config, o.keys, o.now).1;
      ReloadAuditsConcat(n.audits + Reloads(local, last), SyncAudit(t));
      ReloadAuditsConcat(n.audits, Reloads(local, last));
      FewReloads(local, last, t);
    }
  }

  lemma {:induction false} AuditLogIsAudits(local: Local, start: Node, inputs: seq<Input>)
    requires Fresh(start)
    ensures Run(local, start, inputs).status == S.Run(start.status, Outcomes(local, inputs))
    ensures SyncAudits(Run(local, start, inputs).audits) == AsAudits(S.Audits(start.status, Outcomes(local, inputs)))
  {
    hide Tick, S.RecordTick, OutcomeOf;
    if inputs != [] {
      var before, last := inputs[..|inputs| - 1], inputs[|inputs| - 1];
      var os := Outcomes(local, inputs);
      AuditLogIsAudits(local, start, before);
      TickStatus(local, Run(local, start, before), last);
      assert os[..|os| - 1] == Outcomes(local, before);
      var o := os[|os| - 1];
      assert o == OutcomeOf(local, last);
      var t := S.RecordTick(S.Run(start.status, Outcomes(local, before)), o.config, o.keys, o.now).1;
      var ts := S.Audits(start.status, Outcomes(local, before));
      AsAuditsSnoc(ts, t);
    }
  }

  lemma AsAuditsSnoc(ts: seq<S.Transition>, t: S.Transition)
    ensures AsAudits(ts + if t == S.Quiet then [] else [t]) == AsAudits(ts) + SyncAudit(t)
  {
    if t == S.Quiet {
      assert ts + [] == ts;
      assert AsAudits(ts) + [] == AsAudits(ts);
    } else {
      assert (ts + [t])[..|ts|] == ts;
    }
  }
}
