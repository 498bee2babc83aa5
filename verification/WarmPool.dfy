/** One reconciliation of the warm pool: evict, destroy, count what is left, and refill the difference. */
module WarmPool {
  import opened Prelude
  import opened StableSort

  type InstanceId = string

  const WARM_START_FAILURE_LIMIT: nat := 3
  const WARM_SPOT_BIND_FAILURE_LIMIT: nat := 3
  const MINUTE_IN_MS: int := 60 * 1000
  const HOUR_IN_MS: int := 60 * MINUTE_IN_MS

  datatype State = PRIMING | WARM | ACTIVE | GARBAGE

  datatype Image = Image(imageId: Option<string>, launchTemplateVersion: Option<string>)

  datatype Instance = Instance(
    id: InstanceId,
    state: State,
    launchTime: Option<int>,
    image: Image,
    spotRequestId: Option<string>,
    spotRequestBound: bool,
    spotBindFailures: nat,
    startFailures: nat)

  datatype Reason =
    | MaxAge | Drift | OverTarget | StuckPriming | StartFailed | SpotRequestUnbound | Garbage | OrphanedSpotRequest

  datatype Eviction = Eviction(instance: Instance, reason: Reason)

  datatype Policy = Policy(poolSize: int, current: Image, maxAgeHours: int, bootTimeInMinutes: int, now: int)

  predicate IsDrifted(i: Instance, current: Image) {
    || (current.imageId.Some? && i.image.imageId != current.imageId)
    || (current.launchTemplateVersion.Some? && i.image.launchTemplateVersion != current.launchTemplateVersion)
  }

  predicate Unbound(i: Instance) {
    i.spotRequestId.Some? && !i.spotRequestBound && i.spotBindFailures >= WARM_SPOT_BIND_FAILURE_LIMIT
  }

  predicate OlderThan(i: Instance, now: int, ms: int) {
    i.launchTime.Some? && now - i.launchTime.value > ms
  }

  function EvictionReason(i: Instance, p: Policy): Option<Reason> {
    match i.state
    case GARBAGE => Some(Garbage)
    case PRIMING =>
      if Unbound(i) then Some(SpotRequestUnbound)
      else if OlderThan(i, p.now, p.bootTimeInMinutes * MINUTE_IN_MS) then Some(StuckPriming) else None
    case WARM =>
      if Unbound(i) then Some(SpotRequestUnbound)
      else if i.startFailures >= WARM_START_FAILURE_LIMIT then Some(StartFailed)
      else if OlderThan(i, p.now, p.maxAgeHours * HOUR_IN_MS) then Some(MaxAge)
      else if IsDrifted(i, p.current) then Some(Drift) else None
    case ACTIVE => None
  }

  function LaunchedAt(i: Instance): int {
    i.launchTime.GetOr(0)
  }

  predicate OldestFirst(a: Instance, b: Instance) {
    LaunchedAt(a) <= LaunchedAt(b)
  }

  predicate IsKeptWarm(i: Instance, p: Policy) {
    EvictionReason(i, p).None? && i.state == WARM
  }

  function KeptWarm(instances: seq<Instance>, p: Policy): seq<Instance> {
    Filter((i: Instance) => IsKeptWarm(i, p), instances)
  }

  ghost function Faulty(instances: seq<Instance>, p: Policy): seq<Instance> {
    Filter((i: Instance) => EvictionReason(i, p).Some?, instances)
  }

  /** The kept WARM instances beyond the target, oldest first. */
  function OverTargetOf(instances: seq<Instance>, p: Policy): seq<Instance> {
    var kept := KeptWarm(instances, p);
    var excess := Min(Max(|kept| - p.poolSize, 0), |Sort(OldestFirst, kept)|);
    Sort(OldestFirst, kept)[..excess]
  }

  ghost function Evicted(instances: seq<Instance>, p: Policy): seq<Instance> {
    Faulty(instances, p) + OverTargetOf(instances, p)
  }

  ghost predicate DistinctIds(s: seq<Instance>) {
    forall i, j :: 0 <= i < j < |s| ==> s[i].id != s[j].id
  }

  function Instances(evictions: seq<Eviction>): seq<Instance> {
    seq(|evictions|, i requires 0 <= i < |evictions| => evictions[i].instance)
  }

  lemma ListsSnoc(s: seq<Instance>, i: Instance, p: Policy)
    ensures Faulty(s + [i], p) == Faulty(s, p) + (if EvictionReason(i, p).Some? then [i] else [])
    ensures KeptWarm(s + [i], p) == KeptWarm(s, p) + (if IsKeptWarm(i, p) then [i] else [])
  {
    FilterAppend((x: Instance) => EvictionReason(x, p).Some?, s, [i]);
    FilterAppend((x: Instance) => IsKeptWarm(x, p), s, [i]);
  }

  lemma OverTargetIsKeptWarm(instances: seq<Instance>, p: Policy)
    ensures forall i :: i in OverTargetOf(instances, p) ==> i in instances && IsKeptWarm(i, p) && !IsFaulty(i, p)
    ensures |Sort(OldestFirst, KeptWarm(instances, p))| == |KeptWarm(instances, p)|
  {
    var kept := KeptWarm(instances, p);
    SortIsPermutation(OldestFirst, kept);
    forall i | i in OverTargetOf(instances, p) ensures i in instances && IsKeptWarm(i, p) && !IsFaulty(i, p) {
      ReasonIsRight(i, p);
      assert i in Sort(OldestFirst, kept);
      assert i in kept;
    }
  }

  lemma InstancesAppend(a: seq<Eviction>, b: seq<Eviction>)
    ensures Instances(a + b) == Instances(a) + Instances(b)
  {
  }

  // ---------------------------------------------------------------- what the reasons mean

  /** A spot request that three attempts could not bind to an instance not yet in use. */
  ghost predicate NeverBinds(i: Instance) {
    && (i.state == PRIMING || i.state == WARM)
    && i.spotRequestId != None && !i.spotRequestBound && 3 <= i.spotBindFailures
  }

  /** Launched more than so many milliseconds ago. */
  ghost predicate LaunchedBefore(i: Instance, p: Policy, ms: int) {
    exists t :: i.launchTime == Some(t) && t + ms < p.now
  }

  /** The pool names an image or a template version, and this instance was made from another one. */
  ghost predicate FromAnother(i: Instance, p: Policy) {
    !((p.current.imageId == None || p.current.imageId == i.image.imageId)
      && (p.current.launchTemplateVersion == None || p.current.launchTemplateVersion == i.image.launchTemplateVersion))
  }

  /** Something is wrong with the instance itself. */
  ghost predicate IsFaulty(i: Instance, p: Policy) {
    || i.state == GARBAGE
    || NeverBinds(i)
    || (i.state == PRIMING && LaunchedBefore(i, p, 60000 * p.bootTimeInMinutes))
    || (i.state == WARM && (3 <= i.startFailures || LaunchedBefore(i, p, 3600000 * p.maxAgeHours) || FromAnother(i, p)))
  }

  /** The recorded reason is true of the instance, and no graver one is. */
  ghost predicate Justified(e: Eviction, p: Policy) {
    var i := e.instance;
    match e.reason
    case Garbage => i.state == GARBAGE
    case SpotRequestUnbound => NeverBinds(i)
    case StuckPriming => i.state == PRIMING && !NeverBinds(i) && LaunchedBefore(i, p, 60000 * p.bootTimeInMinutes)
    case StartFailed => i.state == WARM && !NeverBinds(i) && 3 <= i.startFailures
    case MaxAge => i.state == WARM && !NeverBinds(i) && i.startFailures < 3 && LaunchedBefore(i, p, 3600000 * p.maxAgeHours)
    case Drift =>
      && i.state == WARM && !NeverBinds(i) && i.startFailures < 3
      && !LaunchedBefore(i, p, 3600000 * p.maxAgeHours) && FromAnother(i, p)
    case OverTarget => i.state == WARM && !IsFaulty(i, p)
    case OrphanedSpotRequest => false
  }

  /** The first reason found is the right one, and it is found exactly for a faulty instance. */
  lemma ReasonIsRight(i: Instance, p: Policy)
    ensures EvictionReason(i, p).Some? <==> IsFaulty(i, p)
    ensures EvictionReason(i, p).Some? ==> Justified(Eviction(i, EvictionReason(i, p).value), p)
  {
  }

  /** In their order in the inventory: the faulty instances, and the WARM ones without a fault. */
  lemma ListsAreExact(instances: seq<Instance>, p: Policy)
    ensures forall i :: i in Faulty(instances, p) <==> i in instances && IsFaulty(i, p)
    ensures forall i :: i in KeptWarm(instances, p) <==> i in instances && i.state == WARM && !IsFaulty(i, p)
  {
    forall i ensures EvictionReason(i, p).Some? <==> IsFaulty(i, p) {
      ReasonIsRight(i, p);
    }
  }

  function OverTargetEvictions(instances: seq<Instance>, p: Policy): (r: seq<Eviction>)
    ensures Instances(r) == OverTargetOf(instances, p)
    ensures forall e :: e in r ==> Justified(e, p)
  {
    var over := OverTargetOf(instances, p);
    OverTargetIsKeptWarm(instances, p);
    assert forall i :: 0 <= i < |over| ==> over[i] in over;
    seq(|over|, i requires 0 <= i < |over| => Eviction(over[i], OverTarget))
  }

  lemma FaultyGo(instances: seq<Instance>, p: Policy)
    ensures forall i :: i in instances && IsFaulty(i, p) ==> i in Evicted(instances, p)
  {
    ListsAreExact(instances, p);
  }

  method SelectEvictions(instances: seq<Instance>, p: Policy) returns (evictions: seq<Eviction>)
    ensures Instances(evictions) == Evicted(instances, p)
    ensures forall e :: e in evictions ==> Justified(e, p)
    ensures forall i :: i in instances && IsFaulty(i, p) ==> i in Instances(evictions)
  {
    evictions := [];
    var keptWarm: seq<Instance> := [];
    var k := 0;
    while k < |instances|
      invariant k <= |instances|
      invariant Instances(evictions) == Faulty(instances[..k], p)
      invariant keptWarm == KeptWarm(instances[..k], p)
      invariant forall e :: e in evictions ==> Justified(e, p)
    {
      var i := instances[k];
      assert instances[..k + 1] == instances[..k] + [i];
      ListsSnoc(instances[..k], i, p);
      var reason := EvictionReason(i, p);
      ReasonIsRight(i, p);
      if reason.Some? {
        InstancesAppend(evictions, [Eviction(i, reason.value)]);
        evictions := evictions + [Eviction(i, reason.value)];
      } else if i.state == WARM {
        keptWarm := keptWarm + [i];
      }
      k := k + 1;
    }
    assert instances[..k] == instances;
    InstancesAppend(evictions, OverTargetEvictions(instances, p));
    evictions := evictions + OverTargetEvictions(instances, p);
    FaultyGo(instances, p);
  }

  /** No instance is evicted twice: what is over target has no reason of its own to go. */
  lemma EvictionsAreDistinct(instances: seq<Instance>, p: Policy)
    requires DistinctIds(instances)
    ensures DistinctIds(Evicted(instances, p))
    ensures Distinct(KeptWarm(instances, p)) && Distinct(OverTargetOf(instances, p))
    ensures |OverTargetOf(instances, p)| == Min(Max(|KeptWarm(instances, p)| - p.poolSize, 0), |KeptWarm(instances, p)|)
  {
    var kept, faulty := KeptWarm(instances, p), Faulty(instances, p);
    FilterKeepsDistinct((i: Instance) => IsKeptWarm(i, p), instances);
    FilterKeepsDistinct((i: Instance) => EvictionReason(i, p).Some?, instances);
    SortIsPermutation(OldestFirst, kept);
    PermutationKeepsDistinct(kept, Sort(OldestFirst, kept));
    OverTargetIsKeptWarm(instances, p);
    var all := Evicted(instances, p);
    forall i, j | 0 <= i < j < |all| ensures all[i].id != all[j].id {
      assert all[i] in instances && all[j] in instances;
      assert all[i] != all[j];
    }
  }

  /** Over target, the oldest go: none of them was launched after a WARM instance that is kept. */
  lemma OverTargetAreOldest(instances: seq<Instance>, p: Policy, gone: Instance, stays: Instance)
    requires gone in OverTargetOf(instances, p)
    requires stays in instances && stays.state == WARM && !IsFaulty(stays, p) && stays !in OverTargetOf(instances, p)
    ensures gone in instances && gone.state == WARM && !IsFaulty(gone, p)
    ensures (if gone.launchTime.Some? then gone.launchTime.value else 0)
         <= (if stays.launchTime.Some? then stays.launchTime.value else 0)
  {
    ListsAreExact(instances, p);
    OverTargetIsKeptWarm(instances, p);
    var kept := KeptWarm(instances, p);
    SortIsStable(OldestFirst, kept);
    SortIsPermutation(OldestFirst, kept);
    assert stays in Sort(OldestFirst, kept);
  }

  /** Taking a part out of a sequence without repetition shortens it by the length of that part. */
  lemma Remainder<T>(whole: seq<T>, part: seq<T>, rest: seq<T>)
    requires Distinct(whole) && Distinct(part) && Distinct(rest)
    requires forall i :: 0 <= i < |part| ==> part[i] in whole
    requires forall i :: 0 <= i < |rest| ==> rest[i] in whole && rest[i] !in part
    requires forall i :: 0 <= i < |whole| && whole[i] !in part ==> whole[i] in rest
    ensures |rest| == |whole| - |part|
  {
    DistinctCardinality(whole);
    DistinctCardinality(part);
    DistinctCardinality(rest);
    assert (set i | i in rest) == (set i | i in whole) - (set i | i in part);
    assert (set i | i in part) <= (set i | i in whole);
  }

  ghost predicate Unevicted(instances: seq<Instance>, p: Policy, remaining: seq<Instance>) {
    && Distinct(remaining)
    && forall i :: i in remaining <==> i in instances && i !in Evicted(instances, p)
  }

  lemma UnevictedHaveNoFault(instances: seq<Instance>, p: Policy, remaining: seq<Instance>)
    requires Unevicted(instances, p, remaining)
    ensures Faulty(remaining, p) == []
  {
    forall k | 0 <= k < |remaining| ensures EvictionReason(remaining[k], p).None? {
      assert remaining[k] in remaining;
      assert remaining[k] !in Faulty(instances, p);
    }
    FilterNone((i: Instance) => EvictionReason(i, p).Some?, remaining);
  }

  /** Exactly the WARM instances without a fault that fit the target stay. */
  lemma KeptWarmFitTarget(instances: seq<Instance>, p: Policy, remaining: seq<Instance>)
    requires DistinctIds(instances) && Unevicted(instances, p, remaining)
    ensures |KeptWarm(remaining, p)| == Max(Min(|KeptWarm(instances, p)|, p.poolSize), 0)
  {
    var kept, over, stay := KeptWarm(instances, p), OverTargetOf(instances, p), KeptWarm(remaining, p);
    EvictionsAreDistinct(instances, p);
    OverTargetIsKeptWarm(instances, p);
    FilterKeepsDistinct((i: Instance) => IsKeptWarm(i, p), remaining);
    forall i ensures i in kept <==> i in instances && IsKeptWarm(i, p) {}
    forall i ensures i in stay <==> i in remaining && IsKeptWarm(i, p) {}
    forall i | IsKeptWarm(i, p) ensures i in Evicted(instances, p) <==> i in over {
      assert i !in Faulty(instances, p);
    }
    Remainder(kept, over, stay);
  }

  function InState(instances: seq<Instance>, state: State): (r: seq<Instance>)
    ensures forall i :: i in r <==> i in instances && i.state == state
  {
    Filter((i: Instance) => i.state == state, instances)
  }

  /** What a launch adds: PRIMING, dated now or not yet, with no failed binding. */
  ghost predicate FreshlyLaunched(i: Instance, now: int) {
    && i.state == PRIMING
    && (i.launchTime.None? || i.launchTime == Some(now))
    && i.spotBindFailures == 0
  }

  ghost predicate AllFresh(s: seq<Instance>, now: int) {
    forall i :: i in s ==> FreshlyLaunched(i, now)
  }

  ghost function Destroyed(evictions: seq<Eviction>, gone: set<InstanceId>, reason: Reason): nat {
    |Filter((e: Eviction) => e.reason == reason && e.instance.id in gone, evictions)|
  }

  function Survivors(instances: seq<Instance>, gone: set<InstanceId>): (r: seq<Instance>)
    ensures forall i :: i in r <==> i in instances && i.id !in gone
  {
    Filter((i: Instance) => i.id !in gone, instances)
  }

  /** What the calls of one reconciliation answer. */
  datatype Calls = Calls(
    destroy: seq<InstanceId> -> set<InstanceId>,
    cancel: seq<string> -> nat,
    launch: nat -> seq<Instance>)

  /** `launch` never returns more than it is asked for, and only instances of this moment. */
  ghost predicate LaunchKeepsContract(calls: Calls, now: int) {
    forall n: nat :: |calls.launch(n)| <= n && AllFresh(calls.launch(n), now)
  }

  datatype Report = Report(ready: nat, preparing: nat, launched: nat, evictions: map<Reason, nat>)

  method CountEvictions(evictions: seq<Eviction>, gone: set<InstanceId>) returns (counts: map<Reason, nat>)
    ensures forall r :: (if r in counts then counts[r] else 0) == Destroyed(evictions, gone, r)
  {
    counts := map[];
    var k := 0;
    while k < |evictions|
      invariant k <= |evictions|
      invariant forall r :: (if r in counts then counts[r] else 0) == Destroyed(evictions[..k], gone, r)
    {
      var e := evictions[k];
      assert evictions[..k + 1] == evictions[..k] + [e];
      forall r: Reason ensures Destroyed(evictions[..k + 1], gone, r)
                               == Destroyed(evictions[..k], gone, r) + (if e.reason == r && e.instance.id in gone then 1 else 0) {
        FilterAppend((e: Eviction) => e.reason == r && e.instance.id in gone, evictions[..k], [e]);
      }
      if e.instance.id in gone {
        counts := counts[e.reason := (if e.reason in counts then counts[e.reason] else 0) + 1];
      }
      k := k + 1;
    }
    assert evictions[..k] == evictions;
  }

  lemma NoOrphanIsEvicted(evictions: seq<Eviction>, p: Policy, gone: set<InstanceId>)
    requires forall e :: e in evictions ==> Justified(e, p)
    ensures Destroyed(evictions, gone, OrphanedSpotRequest) == 0
  {
    forall i | 0 <= i < |evictions| ensures evictions[i].reason != OrphanedSpotRequest {
      assert Justified(evictions[i], p);
    }
    FilterNone((e: Eviction) => e.reason == OrphanedSpotRequest && e.instance.id in gone, evictions);
  }

  function Ids(instances: seq<Instance>): seq<InstanceId> {
    seq(|instances|, i requires 0 <= i < |instances| => instances[i].id)
  }

  /** The ids whose destruction succeeded; `destroy` is not called for nothing. */
  ghost function Gone(instances: seq<Instance>, p: Policy, calls: Calls): set<InstanceId> {
    var asked := Ids(Evicted(instances, p));
    if asked == [] then {} else set id | id in calls.destroy(asked) && id in asked
  }

  ghost predicate AllSucceed(instances: seq<Instance>, p: Policy, calls: Calls) {
    && (forall i :: i in Evicted(instances, p) ==> i.id in Gone(instances, p, calls))
    && (forall n: nat :: |calls.launch(n)| == n)
  }

  ghost function CountOf(counts: map<Reason, nat>, r: Reason): nat {
    if r in counts then counts[r] else 0
  }

  /** The evictions, with what became of them; `destroy` is not called for nothing. */
  method Evict(instances: seq<Instance>, p: Policy, calls: Calls) returns (destroyed: set<InstanceId>, counts: map<Reason, nat>)
    ensures destroyed == Gone(instances, p, calls) && CountOf(counts, OrphanedSpotRequest) == 0
    ensures exists evictions ::
              && Instances(evictions) == Evicted(instances, p)
              && forall r :: CountOf(counts, r) == Destroyed(evictions, destroyed, r)
  {
    var evictions := SelectEvictions(instances, p);
    counts, destroyed := map[], {};
    assert |Instances(evictions)| == |evictions|;
    if |evictions| > 0 {
      var asked := Ids(Instances(evictions));
      destroyed := set id | id in calls.destroy(asked) && id in asked;
      counts := CountEvictions(evictions, destroyed);
      NoOrphanIsEvicted(evictions, p, destroyed);
    }
  }

  method ReconcileWarmPool(instances: seq<Instance>, orphans: seq<string>, p: Policy, calls: Calls)
    returns (report: Report, after: seq<Instance>)
    requires LaunchKeepsContract(calls, p.now)
    ensures var survivors := Survivors(instances, Gone(instances, p, calls));
            var counted := |InState(survivors, WARM)| + |InState(survivors, PRIMING)|;
            var added := if p.poolSize > counted then calls.launch(p.poolSize - counted) else [];
            && report.ready == |InState(survivors, WARM)|
            && report.preparing == |InState(survivors, PRIMING)| + report.launched
            && after == survivors + added && AllFresh(added, p.now)
            && report.launched == |added| <= Max(p.poolSize - counted, 0)
            && (AllSucceed(instances, p, calls) ==> report.ready + report.preparing == Max(p.poolSize, counted))
    ensures exists evictions ::
              && Instances(evictions) == Evicted(instances, p)
              && forall r :: r != OrphanedSpotRequest ==>
                   CountOf(report.evictions, r) == Destroyed(evictions, Gone(instances, p, calls), r)
    ensures CountOf(report.evictions, OrphanedSpotRequest) == if orphans == [] then 0 else calls.cancel(orphans)
  {
    var destroyed, counts := Evict(instances, p, calls);
    if |orphans| > 0 {
      var cancelled := calls.cancel(orphans);
      if cancelled > 0 {
        counts := counts[OrphanedSpotRequest := cancelled];
      }
    }
    var remaining := Survivors(instances, destroyed);
    var warm, priming := |InState(remaining, WARM)|, |InState(remaining, PRIMING)|;
    var deficit := p.poolSize - (warm + priming);
    var launched: seq<Instance> := [];
    if deficit > 0 {
      launched := calls.launch(deficit);
      priming := priming + |launched|;
    }
    report := Report(warm, priming, |launched|, counts);
    after := remaining + launched;
  }

  lemma FreshHaveNoFault(survivors: seq<Instance>, added: seq<Instance>, p: Policy)
    requires AllFresh(added, p.now) && p.bootTimeInMinutes >= 0
    ensures Faulty(survivors + added, p) == Faulty(survivors, p)
    ensures KeptWarm(survivors + added, p) == KeptWarm(survivors, p)
  {
    forall k | 0 <= k < |added| ensures EvictionReason(added[k], p).None? && !IsKeptWarm(added[k], p) {
      assert FreshlyLaunched(added[k], p.now);
    }
    FilterAppend((i: Instance) => EvictionReason(i, p).Some?, survivors, added);
    FilterNone((i: Instance) => EvictionReason(i, p).Some?, added);
    FilterAppend((i: Instance) => IsKeptWarm(i, p), survivors, added);
    FilterNone((i: Instance) => IsKeptWarm(i, p), added);
  }

  lemma FreshArePriming(survivors: seq<Instance>, added: seq<Instance>, now: int)
    requires AllFresh(added, now)
    ensures InState(survivors + added, WARM) == InState(survivors, WARM)
    ensures InState(survivors + added, PRIMING) == InState(survivors, PRIMING) + added
  {
    assert forall k :: 0 <= k < |added| ==> FreshlyLaunched(added[k], now);
    FilterAppend((i: Instance) => i.state == WARM, survivors, added);
    FilterNone((i: Instance) => i.state == WARM, added);
    FilterAppend((i: Instance) => i.state == PRIMING, survivors, added);
    FilterAll((i: Instance) => i.state == PRIMING, added);
  }

  /**
   A pool that got all it asked for is at rest: looked at again at the same instant, nothing is
   evicted and nothing is missing.
   */
  lemma SecondRunIsQuiet(instances: seq<Instance>, p: Policy, calls: Calls, added: seq<Instance>)
    requires DistinctIds(instances) && p.bootTimeInMinutes >= 0
    requires AllSucceed(instances, p, calls) && AllFresh(added, p.now)
    requires var survivors := Survivors(instances, Gone(instances, p, calls));
             |added| == Max(p.poolSize - (|InState(survivors, WARM)| + |InState(survivors, PRIMING)|), 0)
    ensures var after := Survivors(instances, Gone(instances, p, calls)) + added;
            Evicted(after, p) == [] && |InState(after, WARM)| + |InState(after, PRIMING)| >= p.poolSize
  {
    var survivors := Survivors(instances, Gone(instances, p, calls));
    SurvivorsAreNotEvicted(instances, p, calls);
    UnevictedHaveNoFault(instances, p, survivors);
    KeptWarmFitTarget(instances, p, survivors);
    FreshHaveNoFault(survivors, added, p);
    FreshArePriming(survivors, added, p.now);
  }

  lemma SurvivorsAreNotEvicted(instances: seq<Instance>, p: Policy, calls: Calls)
    requires DistinctIds(instances) && AllSucceed(instances, p, calls)
    ensures Unevicted(instances, p, Survivors(instances, Gone(instances, p, calls)))
  {
    var gone, evicted := Gone(instances, p, calls), Evicted(instances, p);
    OverTargetIsKeptWarm(instances, p);
    assert forall id :: id in gone ==> id in Ids(evicted);
    forall i | i in instances ensures i.id in gone <==> i in evicted {
      if i.id in gone {
        var k :| 0 <= k < |evicted| && evicted[k].id == i.id;
        assert evicted[k] in instances;
      }
    }
    FilterKeepsDistinct((i: Instance) => i.id !in gone, instances);
  }
}
