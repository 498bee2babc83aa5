/**
 One scale-up invocation activating warm instances: claim, tag, start, register, record, or roll back.
 The answers of the index, EC2 and GitHub are arbitrary, given by the number of the call that asks.
 */
module WarmActivation {
  import opened Prelude
  import opened StableSort
  import opened WarmIndex

  const WARM_ACTIVATION_GRACE_MS: int := 10 * 60 * 1000

  datatype StandbyInstance = StandbyInstance(
    instanceId: InstanceId,
    launchTime: Option<int>,
    expiresAt: Option<int>,
    instanceType: Option<string>,
    availabilityZone: Option<string>,
    spotInstanceRequestId: Option<string>)

  /** Warm, bound, unleased, off cooldown, and not expiring while it is being activated; times in milliseconds. */
  predicate IsCandidate(item: Item, now: int) {
    && item.state == WARM
    && (item.spotInstanceRequestId.None? || item.spotRequestBound)
    && (item.claimUntil.None? || item.claimUntil.value * 1000 < now)
    && (item.cooldownUntil.None? || item.cooldownUntil.value * 1000 <= now)
    && (item.expiresAt.None? || item.expiresAt.value > now + WARM_ACTIVATION_GRACE_MS)
  }

  function LaunchedAt(row: Row): int {
    row.1.launchTime.GetOr(0)
  }

  predicate NewestFirst(a: Row, b: Row) {
    LaunchedAt(b) <= LaunchedAt(a)
  }

  function ToStandby(row: Row): StandbyInstance {
    StandbyInstance(row.0, row.1.launchTime, row.1.expiresAt, row.1.instanceType, row.1.availabilityZone,
                    row.1.spotInstanceRequestId)
  }

  function Map<A, B>(f: A -> B, s: seq<A>): (r: seq<B>)
    ensures |r| == |s| && forall i :: 0 <= i < |s| ==> r[i] == f(s[i])
  {
    seq(|s|, i requires 0 <= i < |s| => f(s[i]))
  }

  function CandidateRows(rows: seq<Row>, now: int): seq<Row> {
    Sort(NewestFirst, Filter((row: Row) => IsCandidate(row.1, now), rows))
  }

  function WarmCandidates(rows: seq<Row>, now: int): seq<StandbyInstance> {
    Map(ToStandby, CandidateRows(rows, now))
  }

  ghost predicate DistinctIds(s: seq<StandbyInstance>) {
    forall i, j :: 0 <= i < j < |s| ==> s[i].instanceId != s[j].instanceId
  }

  /** Ready and nobody's: by its request, its lease, its cooldown (in seconds) and its expiry (in milliseconds). */
  ghost predicate IsClaimable(item: Item, now: int) {
    && item.state == WARM && (item.spotInstanceRequestId != None ==> item.spotRequestBound)
    && (forall s :: item.claimUntil == Some(s) ==> 1000 * s < now)
    && (forall s :: item.cooldownUntil == Some(s) ==> 1000 * s <= now)
    && (forall ms :: item.expiresAt == Some(ms) ==> now + 600000 < ms)
  }

  /** Exactly the claimable entries, newest first, those launched at the same time in index order. */
  lemma CandidatesAreNewestFirst(rows: seq<Row>, now: int)
    ensures forall row :: row in CandidateRows(rows, now) <==> row in rows && IsClaimable(row.1, now)
    ensures var r := CandidateRows(rows, now);
            forall i, j :: 0 <= i < j < |r| ==>
              (if r[j].1.launchTime.Some? then r[j].1.launchTime.value else 0)
              <= (if r[i].1.launchTime.Some? then r[i].1.launchTime.value else 0)
    ensures KeepsTies(NewestFirst, Filter((row: Row) => IsCandidate(row.1, now), rows), CandidateRows(rows, now))
    ensures var r, w := CandidateRows(rows, now), WarmCandidates(rows, now);
            && |w| == |r|
            && forall k :: 0 <= k < |w| ==>
                 && w[k].instanceId == r[k].0 && w[k].launchTime == r[k].1.launchTime && w[k].expiresAt == r[k].1.expiresAt
                 && w[k].instanceType == r[k].1.instanceType && w[k].availabilityZone == r[k].1.availabilityZone
                 && w[k].spotInstanceRequestId == r[k].1.spotInstanceRequestId
  {
    var eligible := Filter((row: Row) => IsCandidate(row.1, now), rows);
    SortIsStable(NewestFirst, eligible);
    SortIsPermutation(NewestFirst, eligible);
    forall row: Row ensures row in CandidateRows(rows, now) <==> row in rows && IsClaimable(row.1, now) {
      assert row in CandidateRows(rows, now) <==> row in eligible;
    }
  }

  /** An instance whose start failed is not offered again before ten minutes are over, whatever is written meanwhile. */
  lemma CoolingDownIsNotOffered(t: Table, run: seq<Event>, i: nat, j: nat, id: InstanceId, rows: seq<Row>, now: int)
    requires Timed(run) && i < j <= |run| && run[i].op == ReleaseWithCooldown(id)
    requires ClaimedBy(Before(t, run, i), id, run[i].caller) && !DeletedBetween(t, run, i + 1, j, id)
    requires forall row :: row in rows && row.0 == id ==> id in Before(t, run, j) && row.1 == Before(t, run, j)[id]
    requires now < 1000 * (run[i].now + 600)
    ensures forall c :: c in WarmCandidates(rows, now) ==> c.instanceId != id
  {
    FailedStartLeavesMark(t, run, i, j, id);
    CandidatesAreNewestFirst(rows, now);
    var sorted := CandidateRows(rows, now);
    forall k | 0 <= k < |sorted| ensures sorted[k].0 != id {
      assert sorted[k] in sorted;
    }
  }

  /** The index has one row per instance, so an instance is a candidate once. */
  lemma CandidatesAreDistinct(rows: seq<Row>, now: int)
    requires forall i, j :: 0 <= i < j < |rows| ==> rows[i].0 != rows[j].0
    ensures DistinctIds(WarmCandidates(rows, now))
  {
    var p := (row: Row) => IsCandidate(row.1, now);
    FilterKeepsKeys(p, rows);
    var eligible, sorted := Filter(p, rows), CandidateRows(rows, now);
    SortIsPermutation(NewestFirst, eligible);
    PermutationKeepsDistinct(eligible, sorted);
    forall i, j | 0 <= i < j < |sorted| ensures sorted[i].0 != sorted[j].0 {
      assert sorted[i] in eligible && sorted[j] in eligible;
    }
  }

  lemma {:induction false} FilterKeepsKeys(p: Row -> bool, rows: seq<Row>)
    requires forall i, j :: 0 <= i < j < |rows| ==> rows[i].0 != rows[j].0
    ensures forall i, j :: 0 <= i < j < |Filter(p, rows)| ==> Filter(p, rows)[i].0 != Filter(p, rows)[j].0
  {
    if rows != [] {
      FilterKeepsKeys(p, rows[1..]);
      forall row | row in Filter(p, rows[1..]) ensures row.0 != rows[0].0 {
        assert row in rows[1..];
      }
    }
  }

  // ---------------------------------------------------------------- what the invocation is answered

  datatype ClaimAnswer = Won | Lost | Unavailable

  /** The start request: done, or failed as stale, for lack of capacity, or for any other reason. */
  datatype StartAnswer = Running | Stale | NoCapacity | Refused

  datatype Registration = FailedFor(ids: set<InstanceId>) | Threw

  /** `bestEffort` answers the calls whose failure is only logged. */
  datatype Environment = Environment(
    claim: nat -> ClaimAnswer,
    tag: nat -> bool,
    start: nat -> StartAnswer,
    bestEffort: nat -> bool,
    register: nat -> Registration,
    clock: nat -> int)

  datatype Rollback = ToRelease | ToCooldown | ToUnusable

  function StartFailureOutcome(answer: StartAnswer): Rollback {
    if answer == Stale then ToUnusable else if answer == NoCapacity then ToCooldown else ToRelease
  }

  /** Stale entries become unusable, capacity failures cool down, anything else is released. */
  ghost function RollbackOp(id: InstanceId, outcome: Rollback): Op {
    match outcome
    case ToUnusable => MarkUnusable(id)
    case ToCooldown => ReleaseWithCooldown(id)
    case ToRelease => Release(id)
  }

  function CapacityKey(c: StandbyInstance): Option<string> {
    if c.instanceType.GetOr("") != "" && c.availabilityZone.GetOr("") != ""
    then Some(c.instanceType.value + "/" + c.availabilityZone.value) else None
  }

  predicate Exhausted(exhausted: set<string>, c: StandbyInstance) {
    CapacityKey(c).Some? && CapacityKey(c).value in exhausted
  }

  // ---------------------------------------------------------------- what the answers come to

  /** The candidates whose claims, made one after the other from that call on, are won. */
  ghost function WonOf(env: Environment, candidates: seq<StandbyInstance>, from: nat): seq<StandbyInstance> {
    if candidates == [] then []
    else
      var k := |candidates| - 1;
      WonOf(env, candidates[..k], from) + (if env.claim(from + k) == Won then [candidates[k]] else [])
  }

  /** One of `n` claims made from that call on is answered so. */
  ghost predicate SomeClaim(env: Environment, from: nat, n: nat, answer: ClaimAnswer) {
    n > 0 && (SomeClaim(env, from, n - 1, answer) || env.claim(from + n - 1) == answer)
  }

  /** What the answers make of starting an instance from that call on: passed over, not tagged, or asked to start. */
  ghost function OutcomeOf(env: Environment, exhausted: set<string>, c: StandbyInstance, call: nat): StartAnswer {
    if Exhausted(exhausted, c) || !env.tag(call) then Refused else env.start(call + 1)
  }

  /** After starting some instances: those that run, how many are left to a cold launch or were stale, the exhausted pairs. */
  datatype Started = Started(running: seq<StandbyInstance>, cold: nat, stale: nat, exhausted: set<string>)

  /** One instance more. */
  ghost function StartedNext(env: Environment, s: Started, c: StandbyInstance, call: nat): Started {
    match OutcomeOf(env, s.exhausted, c, call)
    case Running => s.(running := s.running + [c])
    case Stale => s.(stale := s.stale + 1)
    case NoCapacity =>
      s.(cold := s.cold + 1, exhausted := if CapacityKey(c).Some? then s.exhausted + {CapacityKey(c).value} else s.exhausted)
    case Refused => s.(cold := s.cold + 1)
  }

  /** Starting the instances in turn, each from its call on. */
  ghost function StartedBy(env: Environment, exhausted: set<string>, claimed: seq<StandbyInstance>, calls: seq<nat>): Started
    requires |calls| == |claimed|
  {
    if claimed == [] then Started([], 0, 0, exhausted)
    else
      var k := |claimed| - 1;
      StartedNext(env, StartedBy(env, exhausted, claimed[..k], calls[..k]), claimed[k], calls[k])
  }

  lemma OneMoreStarted(env: Environment, exhausted: set<string>, claimed: seq<StandbyInstance>, calls: seq<nat>,
                       c: StandbyInstance, call: nat)
    requires |calls| == |claimed|
    ensures StartedBy(env, exhausted, claimed + [c], calls + [call])
            == StartedNext(env, StartedBy(env, exhausted, claimed, calls), c, call)
  {
    assert (claimed + [c])[..|claimed|] == claimed && (calls + [call])[..|calls|] == calls;
  }

  /** A registration that throws has failed for everyone. */
  predicate FailsFor(answer: Registration, id: InstanceId) {
    answer.FailedFor? ==> id in answer.ids
  }

  /** Those for whom the registration of that call worked, and those for whom it failed. */
  ghost function Kept(env: Environment, call: nat, ids: seq<InstanceId>): seq<InstanceId> {
    if ids == [] then []
    else Kept(env, call, ids[..|ids| - 1]) + (if FailsFor(env.register(call), ids[|ids| - 1]) then [] else [ids[|ids| - 1]])
  }

  ghost function Failed(env: Environment, call: nat, ids: seq<InstanceId>): seq<InstanceId> {
    if ids == [] then []
    else Failed(env, call, ids[..|ids| - 1]) + (if FailsFor(env.register(call), ids[|ids| - 1]) then [ids[|ids| - 1]] else [])
  }

  /** What a registration makes of those it was for: it throws, and all have failed; or it names the failed ones. */
  ghost predicate SplitBy(answer: Registration, ids: seq<InstanceId>, started: seq<InstanceId>, unregistered: seq<InstanceId>) {
    match answer
    case Threw => started == [] && unregistered == ids
    case FailedFor(failed) =>
      started == Filter(id => id !in failed, ids) && unregistered == Filter(id => id in failed, ids)
  }

  lemma {:induction false} KeptAndFailedAreSplit(env: Environment, call: nat, ids: seq<InstanceId>)
    ensures SplitBy(env.register(call), ids, Kept(env, call, ids), Failed(env, call, ids))
  {
    if ids != [] {
      var k := |ids| - 1;
      KeptAndFailedAreSplit(env, call, ids[..k]);
      assert ids == ids[..k] + [ids[k]];
      if env.register(call).FailedFor? {
        var failed := env.register(call).ids;
        FilterAppend(id => id !in failed, ids[..k], [ids[k]]);
        FilterAppend(id => id in failed, ids[..k], [ids[k]]);
      }
    }
  }

  lemma KeptSnoc(env: Environment, call: nat, ids: seq<InstanceId>, id: InstanceId)
    ensures Kept(env, call, ids + [id]) == Kept(env, call, ids) + (if FailsFor(env.register(call), id) then [] else [id])
    ensures Failed(env, call, ids + [id]) == Failed(env, call, ids) + (if FailsFor(env.register(call), id) then [id] else [])
  {
    assert (ids + [id])[..|ids|] == ids;
  }

  lemma {:induction false} KeptAndFailed(env: Environment, call: nat, ids: seq<InstanceId>)
    ensures |Kept(env, call, ids)| + |Failed(env, call, ids)| == |ids|
    ensures Members(Kept(env, call, ids)) + Members(Failed(env, call, ids)) == Members(ids)
  {
    if ids != [] {
      var k := |ids| - 1;
      KeptAndFailed(env, call, ids[..k]);
      assert ids == ids[..k] + [ids[k]];
      MembersSnoc(ids[..k], ids[k]);
      MembersSnoc(Kept(env, call, ids[..k]), ids[k]);
      MembersSnoc(Failed(env, call, ids[..k]), ids[k]);
    }
  }

  /** What a batch comes to: starting from those calls on, and registering what runs in that call. */
  ghost function BatchOf(env: Environment, exhausted: set<string>, claimed: seq<StandbyInstance>, calls: seq<nat>, registration: nat)
    : BatchOutcome
    requires |calls| == |claimed|
  {
    var s := StartedBy(env, exhausted, claimed, calls);
    var ids := Ids(s.running);
    BatchOutcome(Kept(env, registration, ids), |Failed(env, registration, ids)|, s.cold, s.stale)
  }

  ghost function Ids(s: seq<StandbyInstance>): seq<InstanceId> {
    Map((c: StandbyInstance) => c.instanceId, s)
  }

  ghost function IdSet(s: seq<StandbyInstance>): set<InstanceId> {
    set i | 0 <= i < |s| :: s[i].instanceId
  }

  ghost function Members<T>(s: seq<T>): set<T> {
    set x | x in s
  }

  lemma IdSetSnoc(s: seq<StandbyInstance>, c: StandbyInstance)
    ensures IdSet(s + [c]) == IdSet(s) + {c.instanceId}
  {
    forall id | id in IdSet(s) + {c.instanceId} ensures id in IdSet(s + [c]) {
      assert (s + [c])[|s|] == c;
      if id in IdSet(s) {
        var i :| 0 <= i < |s| && s[i].instanceId == id;
        assert (s + [c])[i] == s[i];
      }
    }
  }

  lemma MembersSnoc<T>(s: seq<T>, x: T)
    ensures Members(s + [x]) == Members(s) + {x}
  {
  }

  lemma TriedStayDistinct(candidates: seq<StandbyInstance>, n: nat, tried: seq<InstanceId>)
    requires DistinctIds(candidates) && Distinct(tried) && IdSet(candidates) !! Members(tried)
    requires n <= |candidates|
    ensures Distinct(tried + Ids(candidates[..n]))
    ensures DistinctIds(candidates[n..]) && IdSet(candidates[n..]) !! Members(tried + Ids(candidates[..n]))
  {
    var more := Ids(candidates[..n]);
    forall i | 0 <= i < |candidates| ensures candidates[i].instanceId !in tried {
      assert candidates[i].instanceId in IdSet(candidates);
    }
    forall id | id in IdSet(candidates[n..]) ensures id !in tried + more {
      var i :| 0 <= i < |candidates| - n && candidates[n..][i].instanceId == id;
      assert candidates[n + i].instanceId == id;
    }
  }

  lemma ClaimedAreFresh(
      candidates: seq<StandbyInstance>, n: nat, claimed: seq<StandbyInstance>, tried: seq<InstanceId>)
    requires n <= |candidates| && IdSet(candidates) !! Members(tried)
    requires forall c :: c in claimed ==> c in candidates[..n]
    ensures IdSet(claimed) !! Members(tried)
    ensures IdSet(claimed) <= Members(tried + Ids(candidates[..n]))
  {
    forall id | id in IdSet(claimed) ensures id !in tried && id in Ids(candidates[..n]) {
      var i :| 0 <= i < |claimed| && claimed[i].instanceId == id;
      assert claimed[i] in candidates[..n];
      var k :| 0 <= k < n && candidates[k] == claimed[i];
      assert candidates[k].instanceId in IdSet(candidates);
      assert Ids(candidates[..n])[k] == id;
    }
  }

  lemma {:induction false} FilterKeepsIds(p: StandbyInstance -> bool, s: seq<StandbyInstance>)
    requires DistinctIds(s)
    ensures DistinctIds(Filter(p, s)) && IdSet(Filter(p, s)) <= IdSet(s)
  {
    if s != [] {
      FilterKeepsIds(p, s[1..]);
      forall c | c in Filter(p, s[1..]) ensures c.instanceId != s[0].instanceId {
        assert c in s[1..];
      }
    }
    forall id | id in IdSet(Filter(p, s)) ensures id in IdSet(s) {
      var i :| 0 <= i < |Filter(p, s)| && Filter(p, s)[i].instanceId == id;
      assert Filter(p, s)[i] in s;
    }
  }

  lemma MembersConcat<T>(a: seq<T>, b: seq<T>)
    ensures Members(a + b) == Members(a) + Members(b)
  {
  }

  lemma ClaimIsHeld(calls: seq<Call>, id: InstanceId, won: bool)
    ensures Holding(calls + [Call(Op.Claim(id), won)]) == (if won then Holding(calls) + {id} else Holding(calls))
  {
    HoldingSnoc(calls, Call(Op.Claim(id), won));
  }

  lemma IdsAreMembers(s: seq<StandbyInstance>)
    ensures Members(Ids(s)) == IdSet(s)
  {
    forall id | id in IdSet(s) ensures id in Ids(s) {
      var i :| 0 <= i < |s| && s[i].instanceId == id;
      assert Ids(s)[i] == id;
    }
  }

  /** After `n` claims, none of them without an answer: which were won, and whether one was lost. */
  ghost predicate ClaimedSoFar(env: Environment, candidates: seq<StandbyInstance>, from: nat, n: nat,
                               claimed: seq<StandbyInstance>, lost: bool) {
    && n <= |candidates| && claimed == WonOf(env, candidates[..n], from)
    && (lost <==> SomeClaim(env, from, n, Lost)) && !SomeClaim(env, from, n, Unavailable)
  }

  /**
   The first `n` candidates were tried: until enough were won, all were tried, or the index did not answer. In that case
   nothing counts as claimed.
   */
  ghost predicate ClaimedAs(env: Environment, candidates: seq<StandbyInstance>, count: nat, from: nat, n: nat, r: Claims) {
    && n <= |candidates| && |r.claimed| <= count
    && (r.lost <==> SomeClaim(env, from, n, Lost)) && (r.unavailable <==> SomeClaim(env, from, n, Unavailable))
    && if r.unavailable then r.claimed == [] && r.remaining == []
       else
         && r.claimed == WonOf(env, candidates[..n], from) && r.remaining == candidates[n..]
         && (|r.claimed| == count || n == |candidates|)
  }

  lemma OneMoreClaim(env: Environment, candidates: seq<StandbyInstance>, count: nat, from: nat, n: nat,
                     claimed: seq<StandbyInstance>, lost: bool)
    requires ClaimedSoFar(env, candidates, from, n, claimed, lost) && n < |candidates|
    ensures match env.claim(from + n)
            case Won => ClaimedSoFar(env, candidates, from, n + 1, claimed + [candidates[n]], lost)
            case Lost => ClaimedSoFar(env, candidates, from, n + 1, claimed, true)
            case Unavailable => ClaimedAs(env, candidates, count, from, n + 1, Claims([], [], lost, true))
    ensures Ids(candidates[..n + 1]) == Ids(candidates[..n]) + [candidates[n].instanceId]
    ensures IdSet(claimed + [candidates[n]]) == IdSet(claimed) + {candidates[n].instanceId}
    ensures DistinctIds(candidates) ==> IdSet(claimed) <= IdSet(candidates)
  {
    IdSetSnoc(claimed, candidates[n]);
    if DistinctIds(candidates) {
      WonAreCandidates(env, candidates, from, n);
    }
    assert candidates[..n + 1][..n] == candidates[..n];
    assert from + (n + 1) - 1 == from + n;
  }

  /** What is won are candidates, each once. */
  lemma {:induction false} WonAreCandidates(env: Environment, candidates: seq<StandbyInstance>, from: nat, n: nat)
    requires n <= |candidates| && DistinctIds(candidates)
    ensures var won := WonOf(env, candidates[..n], from);
            && |won| <= n && DistinctIds(won) && (forall c :: c in won ==> c in candidates[..n]) && IdSet(won) <= IdSet(candidates)
  {
    if n > 0 {
      assert candidates[..n][..n - 1] == candidates[..n - 1];
      WonAreCandidates(env, candidates, from, n - 1);
      var won := WonOf(env, candidates[..n - 1], from);
      assert candidates[n - 1].instanceId in IdSet(candidates);
      IdSetSnoc(won, candidates[n - 1]);
      forall c | c in won ensures c in candidates[..n] && c.instanceId != candidates[n - 1].instanceId {
        assert c in candidates[..n - 1];
      }
    }
  }

  /** After a round of claims: nobody is tried twice, and what is claimed had not been tried before. */
  lemma ClaimsAreFresh(env: Environment, candidates: seq<StandbyInstance>, count: nat, from: nat, n: nat, c: Claims,
                       before: seq<InstanceId>)
    requires ClaimedAs(env, candidates, count, from, n, c)
    requires DistinctIds(candidates) && Distinct(before) && IdSet(candidates) !! Members(before)
    ensures var tried := before + Ids(candidates[..n]);
            && Distinct(tried) && Members(before) <= Members(tried) && IdSet(c.claimed) <= Members(tried)
            && DistinctIds(c.remaining) && IdSet(c.remaining) !! Members(tried)
    ensures DistinctIds(c.claimed) && IdSet(c.claimed) !! Members(before)
  {
    WonAreCandidates(env, candidates, from, n);
    TriedStayDistinct(candidates, n, before);
    ClaimedAreFresh(candidates, n, c.claimed, before);
  }

  lemma TagsAddUp(instances: seq<InstanceId>, started: seq<InstanceId>, before: seq<InstanceId>, unregistered: seq<InstanceId>)
    ensures Members(instances + started) + Members(before + unregistered)
            == Members(instances) + Members(before) + Members(started) + Members(unregistered)
  {
  }

  /**
   A batch: what the answers to starting and registering make of the claimed instances, and who is destroyed. By the answer
   of the registration all that run have failed, or those that it names.
   */
  ghost predicate IsBatch(env: Environment, exhausted: set<string>, claimed: seq<StandbyInstance>, starts: seq<nat>,
                          registration: nat, o: BatchOutcome, unregistered: seq<InstanceId>, after: set<string>) {
    && |starts| == |claimed| && o == BatchOf(env, exhausted, claimed, starts, registration)
    && var s := StartedBy(env, exhausted, claimed, starts);
    && after == s.exhausted && unregistered == Failed(env, registration, Ids(s.running))
    && SplitBy(env.register(registration), Ids(s.running), o.started, unregistered)
    && o.retryableErrorCount == |unregistered|
    && |o.started| + o.retryableErrorCount + o.coldFallbacks + o.staleCount == |claimed|
  }

  lemma BatchAddsUp(env: Environment, exhausted: set<string>, claimed: seq<StandbyInstance>, starts: seq<nat>, registration: nat)
    requires |starts| == |claimed|
    ensures var s := StartedBy(env, exhausted, claimed, starts);
            var o, failed := BatchOf(env, exhausted, claimed, starts, registration), Failed(env, registration, Ids(s.running));
            && IsBatch(env, exhausted, claimed, starts, registration, o, failed, s.exhausted)
            && Members(o.started) + Members(failed) == IdSet(s.running) && IdSet(s.running) <= IdSet(claimed)
  {
    var running := StartedBy(env, exhausted, claimed, starts).running;
    RunningAreClaimed(env, exhausted, claimed, starts);
    KeptAndFailed(env, registration, Ids(running));
    KeptAndFailedAreSplit(env, registration, Ids(running));
    IdsAreMembers(running);
  }

  lemma NoBatch(env: Environment, exhausted: set<string>, registration: nat)
    ensures IsBatch(env, exhausted, [], [], registration, BatchOutcome([], 0, 0, 0), [], exhausted)
  {
    BatchAddsUp(env, exhausted, [], [], registration);
  }

  /** What runs was claimed, and everything claimed is counted. */
  lemma {:induction false} RunningAreClaimed(env: Environment, exhausted: set<string>, claimed: seq<StandbyInstance>, calls: seq<nat>)
    requires |calls| == |claimed|
    ensures var s := StartedBy(env, exhausted, claimed, calls);
            IdSet(s.running) <= IdSet(claimed) && |s.running| + s.cold + s.stale == |claimed|
  {
    if claimed != [] {
      var k := |claimed| - 1;
      RunningAreClaimed(env, exhausted, claimed[..k], calls[..k]);
      IdSetSnoc(claimed[..k], claimed[k]);
      IdSetSnoc(StartedBy(env, exhausted, claimed[..k], calls[..k]).running, claimed[k]);
      assert claimed == claimed[..k] + [claimed[k]];
    }
  }

  lemma OneMoreRegistered(env: Environment, call: nat, running: seq<StandbyInstance>, k: nat)
    requires k < |running|
    ensures var (before, now, id) := (Ids(running[..k]), Ids(running[..k + 1]), running[k].instanceId);
            && Kept(env, call, now) == Kept(env, call, before) + (if FailsFor(env.register(call), id) then [] else [id])
            && Failed(env, call, now) == Failed(env, call, before) + (if FailsFor(env.register(call), id) then [id] else [])
    ensures IdSet(running[..k + 1]) == IdSet(running[..k]) + {running[k].instanceId}
  {
    assert running[..k + 1] == running[..k] + [running[k]];
    assert Ids(running[..k + 1]) == Ids(running[..k]) + [running[k].instanceId];
    IdSetSnoc(running[..k], running[k]);
    KeptSnoc(env, call, Ids(running[..k]), running[k].instanceId);
  }

  lemma StartStep(env: Environment, exhausted: set<string>, claimed: seq<StandbyInstance>, k: nat, calls: seq<nat>, call: nat)
    requires k == |calls| < |claimed| && DistinctIds(claimed)
    ensures var (s, c) := (StartedBy(env, exhausted, claimed[..k], calls), claimed[k]);
            && StartedBy(env, exhausted, claimed[..k + 1], calls + [call]) == StartedNext(env, s, c, call)
            && IdSet(claimed[..k + 1]) == IdSet(claimed[..k]) + {c.instanceId}
            && IdSet(s.running + [c]) == IdSet(s.running) + {c.instanceId}
            && IdSet(s.running) <= IdSet(claimed[..k])
            && c.instanceId in IdSet(claimed) && c.instanceId !in IdSet(claimed[..k])
  {
    assert claimed[..k + 1] == claimed[..k] + [claimed[k]];
    IdSetSnoc(claimed[..k], claimed[k]);
    IdSetSnoc(StartedBy(env, exhausted, claimed[..k], calls).running, claimed[k]);
    RunningAreClaimed(env, exhausted, claimed[..k], calls);
    OneMoreStarted(env, exhausted, claimed[..k], calls, claimed[k], call);
  }

  datatype Claims = Claims(claimed: seq<StandbyInstance>, remaining: seq<StandbyInstance>, lost: bool, unavailable: bool)

  datatype BatchOutcome = BatchOutcome(
    started: seq<InstanceId>, retryableErrorCount: nat, coldFallbacks: nat, staleCount: nat)

  /** Counters per fallback reason. */
  datatype Fallbacks = Fallbacks(noWarmInstance: int, claimLost: int, indexUnavailable: int, startFailed: int) {
    ghost function Total(): int {
      noWarmInstance + claimLost + indexUnavailable + startFailed
    }
  }

  datatype WarmActivationResult = WarmActivationResult(
    instances: seq<InstanceId>, retryableErrorCount: int, coldRunnerCount: int) {
    ghost function Total(): int {
      |instances| + retryableErrorCount + coldRunnerCount
    }
  }

  // ---------------------------------------------------------------- the turns of an activation

  /** A turn: the candidates, how many are needed, the pairs exhausted before, and all that came of it. */
  datatype Turn = Turn(
    candidates: seq<StandbyInstance>, needed: nat, exhausted: set<string>, from: nat, n: nat, c: Claims,
    starts: seq<nat>, registration: nat, o: BatchOutcome, unregistered: seq<InstanceId>, after: set<string>)

  ghost predicate IsTurn(env: Environment, t: Turn) {
    && t.needed > 0 && t.candidates != [] && ClaimedAs(env, t.candidates, t.needed, t.from, t.n, t.c)
    && IsBatch(env, t.exhausted, t.c.claimed, t.starts, t.registration, t.o, t.unregistered, t.after)
  }

  /** The candidates that are left: those not tried, without those of an exhausted pair. */
  ghost function Remaining(t: Turn): seq<StandbyInstance> {
    var gone := t.after;
    Filter((x: StandbyInstance) => !Exhausted(gone, x), t.c.remaining)
  }

  ghost function Needed(t: Turn): int {
    t.needed - (|t.o.started| + t.o.retryableErrorCount + t.o.coldFallbacks)
  }

  /** Where the loop stands after these turns. */
  ghost predicate Stands(all: seq<StandbyInstance>, n: nat, turns: seq<Turn>, candidates: seq<StandbyInstance>, needed: int,
                   exhausted: set<string>) {
    if turns == [] then candidates == all && needed == n && exhausted == {}
    else
      var last := turns[|turns| - 1];
      candidates == Remaining(last) && needed == Needed(last) && exhausted == last.after
  }

  /** A turn begins where the ones before have led, and only if some of them is still to be made. */
  ghost predicate TurnAt(env: Environment, all: seq<StandbyInstance>, n: nat, turns: seq<Turn>, i: nat) {
    && i < |turns| && IsTurn(env, turns[i])
    && Stands(all, n, turns[..i], turns[i].candidates, turns[i].needed, turns[i].exhausted)
    && (i > 0 ==> !turns[i - 1].c.unavailable && turns[i - 1].c.claimed != [])
  }

  ghost predicate AreTurns(env: Environment, all: seq<StandbyInstance>, n: nat, turns: seq<Turn>) {
    forall i :: 0 <= i < |turns| ==> TurnAt(env, all, n, turns, i)
  }

  ghost function StartedIn(turns: seq<Turn>): seq<InstanceId> {
    if turns == [] then [] else StartedIn(turns[..|turns| - 1]) + turns[|turns| - 1].o.started
  }

  ghost function UnregisteredIn(turns: seq<Turn>): seq<InstanceId> {
    if turns == [] then [] else UnregisteredIn(turns[..|turns| - 1]) + turns[|turns| - 1].unregistered
  }

  lemma OneMoreTurn(turns: seq<Turn>, t: Turn)
    ensures UnregisteredIn(turns + [t]) == UnregisteredIn(turns) + t.unregistered
  {
    assert (turns + [t])[..|turns|] == turns;
  }

  lemma {:induction false} RetryableAreUnregistered(env: Environment, all: seq<StandbyInstance>, n: nat, turns: seq<Turn>)
    requires AreTurns(env, all, n, turns)
    ensures Counted(turns).0 == |UnregisteredIn(turns)|
  {
    if turns != [] {
      var k := |turns| - 1;
      var init := turns[..k];
      assert TurnAt(env, all, n, turns, k);
      forall i: nat | i < k ensures TurnAt(env, all, n, init, i) {
        assert TurnAt(env, all, n, turns, i) && init[..i] == turns[..i];
      }
      RetryableAreUnregistered(env, all, n, init);
    }
  }

  /** The counters added up: retryable, cold and stale ones. */
  ghost function Counted(turns: seq<Turn>): (nat, nat, nat) {
    if turns == [] then (0, 0, 0)
    else
      var (before, o) := (Counted(turns[..|turns| - 1]), turns[|turns| - 1].o);
      (before.0 + o.retryableErrorCount, before.1 + o.coldFallbacks, before.2 + o.staleCount)
  }

  ghost predicate SomeLost(turns: seq<Turn>) {
    exists i :: 0 <= i < |turns| && turns[i].c.lost
  }

  /** What the invocation keeps count of. */
  datatype Progress = Progress(candidates: seq<StandbyInstance>, needed: nat, instances: seq<InstanceId>, retryable: nat,
                               cold: nat, stale: nat, lost: bool) {
    ghost function exhausted(turns: seq<Turn>): set<string> {
      if turns == [] then {} else turns[|turns| - 1].after
    }
  }

  ghost predicate Books(env: Environment, all: seq<StandbyInstance>, n: nat, turns: seq<Turn>, p: Progress) {
    AreTurns(env, all, n, turns) && Tallies(all, n, turns, p)
  }

  ghost predicate Tallies(all: seq<StandbyInstance>, n: nat, turns: seq<Turn>, p: Progress) {
    && Stands(all, n, turns, p.candidates, p.needed, p.exhausted(turns))
    && p.instances == StartedIn(turns) && (p.retryable, p.cold, p.stale) == Counted(turns) && (p.lost <==> SomeLost(turns))
    && |p.instances| + p.retryable + p.cold + p.needed == n
  }

  lemma TurnAdds(env: Environment, all: seq<StandbyInstance>, n: nat, turns: seq<Turn>, t: Turn, p: Progress)
    requires Books(env, all, n, turns, p) && IsTurn(env, t) && GoesOn(turns)
    requires t.candidates == p.candidates && t.needed == p.needed && t.exhausted == p.exhausted(turns)
    ensures Needed(t) >= 0
    ensures Books(env, all, n, turns + [t],
                  Progress(Remaining(t), Needed(t), p.instances + t.o.started, p.retryable + t.o.retryableErrorCount,
                           p.cold + t.o.coldFallbacks, p.stale + t.o.staleCount, p.lost || t.c.lost))
  {
    RoundShrinks(env, t);
    TurnsGrow(env, all, n, turns, t);
    TalliesGrow(all, n, turns, t, p);
  }

  lemma TalliesGrow(all: seq<StandbyInstance>, n: nat, turns: seq<Turn>, t: Turn, p: Progress)
    requires Tallies(all, n, turns, p) && t.needed == p.needed && Needed(t) >= 0
    ensures Tallies(all, n, turns + [t],
                    Progress(Remaining(t), Needed(t), p.instances + t.o.started, p.retryable + t.o.retryableErrorCount,
                             p.cold + t.o.coldFallbacks, p.stale + t.o.staleCount, p.lost || t.c.lost))
  {
    CountsGrow(turns, t);
  }

  lemma TurnsGrow(env: Environment, all: seq<StandbyInstance>, n: nat, turns: seq<Turn>, t: Turn)
    requires AreTurns(env, all, n, turns) && IsTurn(env, t) && GoesOn(turns)
    requires Stands(all, n, turns, t.candidates, t.needed, t.exhausted)
    ensures AreTurns(env, all, n, turns + [t])
  {
    var more := turns + [t];
    assert more[..|turns|] == turns;
    forall i: nat | i < |more| ensures TurnAt(env, all, n, more, i) {
      if i < |turns| {
        assert TurnAt(env, all, n, turns, i) && more[..i] == turns[..i];
      }
    }
  }

  lemma CountsGrow(turns: seq<Turn>, t: Turn)
    ensures StartedIn(turns + [t]) == StartedIn(turns) + t.o.started
    ensures var (before, now) := (Counted(turns), Counted(turns + [t]));
            now == (before.0 + t.o.retryableErrorCount, before.1 + t.o.coldFallbacks, before.2 + t.o.staleCount)
    ensures SomeLost(turns + [t]) <==> SomeLost(turns) || t.c.lost
  {
    var more := turns + [t];
    assert more[..|turns|] == turns && more[|turns|] == t;
    assert forall i :: 0 <= i < |turns| ==> more[i] == turns[i];
  }

  /** The loop goes on after a turn that has claimed somebody. */
  ghost predicate GoesOn(turns: seq<Turn>) {
    turns != [] ==> !turns[|turns| - 1].c.unavailable && turns[|turns| - 1].c.claimed != []
  }

  /** A turn that claims leaves fewer candidates, and one that does not counts nothing. */
  lemma RoundShrinks(env: Environment, t: Turn)
    requires IsTurn(env, t)
    ensures t.c.claimed != [] ==> |Remaining(t)| < |t.candidates|
    ensures t.c.claimed == [] ==> t.o == BatchOutcome([], 0, 0, 0)
    ensures |t.c.claimed| <= t.needed && Needed(t) >= 0
  {
  }

  /** A turn without an answer of the index, or without a claim, is the last. */
  lemma TurnEnds(env: Environment, all: seq<StandbyInstance>, n: nat, turns: seq<Turn>, t: Turn)
    requires IsTurn(env, t)
    ensures IndexFailed(turns + [t]) <==> t.c.unavailable
    ensures if t.c.unavailable || t.c.claimed == [] then IsOver(all, n, turns + [t])
            else GoesOn(turns + [t]) && |Remaining(t)| < |t.candidates|
  {
    RoundShrinks(env, t);
  }

  /** The candidates of an invocation, if it has a table and the index answers. */
  ghost function CandidatesIn(env: Environment, tableConfigured: bool, query: Option<seq<Row>>, at: nat): Option<seq<StandbyInstance>> {
    if tableConfigured && query.Some? then Some(WarmCandidates(query.value, env.clock(at))) else None
  }

  ghost predicate IndexFailed(turns: seq<Turn>) {
    turns != [] && turns[|turns| - 1].c.unavailable
  }

  /** Nothing more can be done: nothing is needed, nobody is left, or a turn has claimed nobody. */
  ghost predicate IsOver(all: seq<StandbyInstance>, n: nat, turns: seq<Turn>) {
    IndexFailed(turns) || (turns != [] && turns[|turns| - 1].c.claimed == [])
    || (if turns == [] then n == 0 || all == [] else Needed(turns[|turns| - 1]) == 0 || Remaining(turns[|turns| - 1]) == [])
  }

  /** What an activation comes to, and why slots are left to a cold launch. */
  ghost predicate IsResult(env: Environment, candidates: Option<seq<StandbyInstance>>, n: nat, turns: seq<Turn>,
                           r: WarmActivationResult, f: Fallbacks) {
    match candidates
    case None => turns == [] && r == WarmActivationResult([], 0, n) && f == Fallbacks(0, 0, n, 0)
    case Some(all) =>
      var (retryable, cold, stale) := Counted(turns);
      var needed := n - |StartedIn(turns)| - retryable - cold;
      && AreTurns(env, all, n, turns) && IsOver(all, n, turns)
      && r.instances == StartedIn(turns) && r.retryableErrorCount == retryable
      && if IndexFailed(turns) then f == Fallbacks(0, 0, needed, cold)
         else
           var rest := needed - Min(needed, stale);
           f == if SomeLost(turns) then Fallbacks(0, rest, 0, cold + Min(needed, stale))
                else Fallbacks(rest, 0, 0, cold + Min(needed, stale))
  }

  // ---------------------------------------------------------------- what every activation keeps

  lemma {:induction false} ExhaustedGrows(env: Environment, exhausted: set<string>, claimed: seq<StandbyInstance>, calls: seq<nat>, i: nat)
    requires |calls| == |claimed| && i <= |claimed|
    ensures StartedBy(env, exhausted, claimed[..i], calls[..i]).exhausted <= StartedBy(env, exhausted, claimed, calls).exhausted
  {
    if i < |claimed| {
      var k := |claimed| - 1;
      ExhaustedGrows(env, exhausted, claimed[..k], calls[..k], i);
      assert claimed[..k][..i] == claimed[..i] && calls[..k][..i] == calls[..i];
    } else {
      assert claimed[..i] == claimed && calls[..i] == calls;
    }
  }

  /** Both tell type and zone, and these read the same. */
  ghost predicate SamePair(a: StandbyInstance, b: StandbyInstance) {
    && a.instanceType.GetOr("") != "" && a.availabilityZone.GetOr("") != ""
    && b.instanceType.GetOr("") != "" && b.availabilityZone.GetOr("") != ""
    && a.instanceType.value + "/" + a.availabilityZone.value == b.instanceType.value + "/" + b.availabilityZone.value
  }

  /** The instance was tagged and asked to start, and EC2 had no capacity. */
  ghost predicate FoundNoCapacity(env: Environment, exhausted: set<string>, claimed: seq<StandbyInstance>, calls: seq<nat>, i: nat)
    requires |calls| == |claimed| && i < |claimed|
  {
    OutcomeOf(env, StartedBy(env, exhausted, claimed[..i], calls[..i]).exhausted, claimed[i], calls[i]) == NoCapacity
  }

  /** Within a batch no pair of type and zone is asked to start again after a start found it without capacity. */
  lemma NoPairIsStartedAgain(env: Environment, exhausted: set<string>, claimed: seq<StandbyInstance>, calls: seq<nat>, i: nat, j: nat)
    requires |calls| == |claimed| && i < j < |claimed|
    requires FoundNoCapacity(env, exhausted, claimed, calls, i) && SamePair(claimed[i], claimed[j])
    ensures Exhausted(StartedBy(env, exhausted, claimed[..j], calls[..j]).exhausted, claimed[j])
    ensures OutcomeOf(env, StartedBy(env, exhausted, claimed[..j], calls[..j]).exhausted, claimed[j], calls[j]) == Refused
  {
    ExhaustedGrows(env, exhausted, claimed[..j], calls[..j], i + 1);
    assert claimed[..j][..i + 1] == claimed[..i + 1] && calls[..j][..i + 1] == calls[..i + 1];
    assert claimed[..i + 1][..i] == claimed[..i] && calls[..i + 1][..i] == calls[..i];
  }

  /** And none is passed over for any other reason. */
  lemma {:induction false} OnlyFoundPairsAreExhausted(env: Environment, claimed: seq<StandbyInstance>, calls: seq<nat>, j: nat,
                                                      c: StandbyInstance)
    requires |calls| == |claimed| && j <= |claimed|
    requires Exhausted(StartedBy(env, {}, claimed[..j], calls[..j]).exhausted, c)
    ensures exists i: nat :: i < j && FoundNoCapacity(env, {}, claimed, calls, i) && SamePair(claimed[i], c)
  {
    if j > 0 {
      var k := j - 1;
      assert claimed[..j][..k] == claimed[..k] && calls[..j][..k] == calls[..k];
      if Exhausted(StartedBy(env, {}, claimed[..k], calls[..k]).exhausted, c) {
        OnlyFoundPairsAreExhausted(env, claimed, calls, k, c);
      } else {
        assert FoundNoCapacity(env, {}, claimed, calls, k) && SamePair(claimed[k], c);
      }
    }
  }

  /** And what one batch found exhausted is exhausted for all later ones. */
  lemma {:induction false} ExhaustedStays(env: Environment, all: seq<StandbyInstance>, n: nat, turns: seq<Turn>, i: nat, j: nat)
    requires AreTurns(env, all, n, turns) && i < j < |turns|
    ensures turns[i].after <= turns[j].exhausted
  {
    if i < j - 1 {
      ExhaustedStays(env, all, n, turns, i, j - 1);
    }
    TurnKeepsExhausted(env, all, n, turns, j);
  }

  lemma TurnKeepsExhausted(env: Environment, all: seq<StandbyInstance>, n: nat, turns: seq<Turn>, j: nat)
    requires AreTurns(env, all, n, turns) && 0 < j < |turns|
    ensures turns[j].exhausted == turns[j - 1].after && turns[j - 1].exhausted <= turns[j - 1].after
  {
    TurnGoesOn(env, all, n, turns, j);
    TurnExhausts(env, turns[j - 1]);
  }

  lemma TurnExhausts(env: Environment, t: Turn)
    requires IsTurn(env, t)
    ensures t.exhausted <= t.after
  {
    ExhaustedGrows(env, t.exhausted, t.c.claimed, t.starts, 0);
  }

  /** In one of these turns the candidate was tried. */
  ghost predicate WasTried(turns: seq<Turn>, c: StandbyInstance) {
    exists i :: 0 <= i < |turns| && turns[i].n <= |turns[i].candidates| && c in turns[i].candidates[..turns[i].n]
  }

  /** After a turn that reached the index, whoever is no longer among the candidates was tried or is of an exhausted pair. */
  lemma TurnLosesNobody(env: Environment, t: Turn, c: StandbyInstance)
    requires IsTurn(env, t) && !t.c.unavailable && c in t.candidates
    ensures c in t.candidates[..t.n] || Exhausted(t.after, c) || c in Remaining(t)
  {
    assert t.candidates == t.candidates[..t.n] + t.candidates[t.n..];
  }

  /** A turn begins with what the one before has left. */
  lemma TurnGoesOn(env: Environment, all: seq<StandbyInstance>, n: nat, turns: seq<Turn>, j: nat)
    requires AreTurns(env, all, n, turns) && 0 < j < |turns|
    ensures var (before, t) := (turns[j - 1], turns[j]);
            && IsTurn(env, before) && IsTurn(env, t) && !before.c.unavailable
            && t.candidates == Remaining(before) && t.exhausted == before.after
  {
    assert TurnAt(env, all, n, turns, j) && TurnAt(env, all, n, turns, j - 1);
    assert turns[..j][j - 1] == turns[j - 1];
  }

  lemma {:induction false} NobodyIsForgotten(env: Environment, all: seq<StandbyInstance>, n: nat, turns: seq<Turn>, j: nat,
                                             c: StandbyInstance)
    requires AreTurns(env, all, n, turns) && j < |turns| && c in all
    ensures c in turns[j].candidates || WasTried(turns, c) || Exhausted(turns[j].exhausted, c)
  {
    if j == 0 {
      assert TurnAt(env, all, n, turns, 0);
    } else {
      var before := turns[j - 1];
      NobodyIsForgotten(env, all, n, turns, j - 1, c);
      TurnGoesOn(env, all, n, turns, j);
      TurnExhausts(env, before);
      if c in before.candidates {
        TurnLosesNobody(env, before, c);
      }
    }
  }

  /**
   A slot is left to a cold launch for want of a warm instance only when the index answered throughout and every candidate
   was tried, or belongs to a pair without capacity.
   */
  lemma NobodyIsLeftOut(env: Environment, all: seq<StandbyInstance>, n: nat, turns: seq<Turn>, r: WarmActivationResult,
                        f: Fallbacks, c: StandbyInstance)
    requires IsResult(env, Some(all), n, turns, r, f) && f.noWarmInstance + f.claimLost > 0 && c in all
    requires r.Total() == n && f.Total() == r.coldRunnerCount
    ensures !IndexFailed(turns) && turns != []
    ensures WasTried(turns, c) || Exhausted(turns[|turns| - 1].after, c)
  {
    if turns != [] {
      var j := |turns| - 1;
      var last := turns[j];
      assert TurnAt(env, all, n, turns, j);
      StillNeeded(env, all, n, turns);
      NobodyIsForgotten(env, all, n, turns, j, c);
      TurnExhausts(env, last);
      if c in last.candidates && !last.c.unavailable {
        TurnLosesNobody(env, last, c);
        assert c in last.candidates[..last.n] ==> WasTried(turns, c);
        assert last.c.claimed == [] ==> last.candidates[..last.n] == last.candidates;
      }
    }
  }

  /** The count of what is still needed is what the counters leave. */
  lemma {:induction false} StillNeeded(env: Environment, all: seq<StandbyInstance>, n: nat, turns: seq<Turn>)
    requires AreTurns(env, all, n, turns)
    ensures var (retryable, cold, stale) := Counted(turns);
            (if turns == [] then n else Needed(turns[|turns| - 1])) == n - |StartedIn(turns)| - retryable - cold
  {
    if turns != [] {
      var j := |turns| - 1;
      var init := turns[..j];
      assert TurnAt(env, all, n, turns, j);
      forall i: nat | i < j ensures TurnAt(env, all, n, init, i) {
        assert TurnAt(env, all, n, turns, i) && init[..i] == turns[..i];
      }
      StillNeeded(env, all, n, init);
    }
  }

  class Activation {
    const env: Environment
    var step: nat
    var calls: seq<Call>                 // index calls of this invocation that took effect, with their answers
    var tried: seq<InstanceId>           // instances it tried to claim
    var tagged: set<InstanceId>          // instances carrying its activation tag
    var destroyed: seq<InstanceId>
    var lostWrites: nat                  // best-effort index writes that failed
    var lostUntags: nat
    var exhaustedCapacity: set<string>

    constructor (env: Environment)
      ensures this.env == env && IsNew()
    {
      this.env := env;
      step, calls, tried, tagged, destroyed := 0, [], [], {}, [];
      lostWrites, lostUntags, exhaustedCapacity := 0, 0, {};
    }

    ghost predicate IsNew()
      reads this
    {
      && calls == [] && tried == [] && tagged == {} && destroyed == []
      && lostWrites == 0 && lostUntags == 0 && exhaustedCapacity == {}
    }

    /** A best-effort index write that ends a claim. */
    method EndClaim(op: Op)
      requires op.Release? || op.ReleaseWithCooldown? || op.MarkUnusable? || op.MarkActivated?
      modifies this`step, this`calls, this`lostWrites
      ensures step == old(step) + 1
      ensures lostWrites == old(lostWrites) + (if env.bestEffort(old(step)) then 0 else 1)
      ensures lostWrites == old(lostWrites) ==>
                Holding(calls) == old(Holding(calls)) - {op.id} && calls == old(calls) + [Call(op, true)]
    {
      if env.bestEffort(step) {
        HoldingSnoc(calls, Call(op, true));
        calls := calls + [Call(op, true)];
      } else {
        lostWrites := lostWrites + 1;
      }
      step := step + 1;
    }

    method ReleaseAll(claimed: seq<StandbyInstance>)
      modifies this`step, this`calls, this`lostWrites
      ensures lostWrites >= old(lostWrites)
      ensures lostWrites == old(lostWrites) ==> Holding(calls) == old(Holding(calls)) - IdSet(claimed)
    {
      var k := 0;
      while k < |claimed|
        invariant k <= |claimed| && lostWrites >= old(lostWrites)
        invariant lostWrites == old(lostWrites) ==> Holding(calls) == old(Holding(calls)) - IdSet(claimed[..k])
      {
        assert claimed[..k + 1] == claimed[..k] + [claimed[k]];
        IdSetSnoc(claimed[..k], claimed[k]);
        EndClaim(Release(claimed[k].instanceId));
        k := k + 1;
      }
      assert claimed[..k] == claimed;
    }

    /** One conditional claim; it is held exactly when it is won. */
    method TryClaim(id: InstanceId) returns (answer: ClaimAnswer)
      modifies this`step, this`calls, this`tried
      ensures tried == old(tried) + [id] && step == old(step) + 1 && answer == env.claim(old(step))
      ensures Holding(calls) == if answer == Won then old(Holding(calls)) + {id} else old(Holding(calls))
    {
      answer := env.claim(step);
      step := step + 1;
      tried := tried + [id];
      if answer != Unavailable {
        ClaimIsHeld(calls, id, answer == Won);
        calls := calls + [Call(Op.Claim(id), answer == Won)];
      }
    }

    /** In the midst of claiming: what the answers make of the first `n` candidates, and exactly the won ones are held. */
    ghost predicate Claiming(candidates: seq<StandbyInstance>, from: nat, n: nat, claimed: seq<StandbyInstance>, lost: bool,
                             held: set<InstanceId>, before: seq<InstanceId>)
      reads this
    {
      && ClaimedSoFar(env, candidates, from, n, claimed, lost) && step == from + n
      && tried == before + Ids(candidates[..n]) && Holding(calls) == held + IdSet(claimed)
    }

    /** The claim of the next candidate. */
    method ClaimNext(candidates: seq<StandbyInstance>, count: nat, n: nat, claimed: seq<StandbyInstance>, lost: bool,
                     ghost from: nat, ghost held: set<InstanceId>, ghost before: seq<InstanceId>)
      returns (answer: ClaimAnswer)
      requires DistinctIds(candidates) && n < |candidates| && Claiming(candidates, from, n, claimed, lost, held, before)
      modifies this`step, this`calls, this`tried
      ensures tried == before + Ids(candidates[..n + 1])
      ensures match answer
              case Won => Claiming(candidates, from, n + 1, claimed + [candidates[n]], lost, held, before)
              case Lost => Claiming(candidates, from, n + 1, claimed, true, held, before)
              case Unavailable =>
                && ClaimedAs(env, candidates, count, from, n + 1, Claims([], [], lost, true))
                && Holding(calls) == held + IdSet(claimed) && IdSet(claimed) <= IdSet(candidates)
    {
      OneMoreClaim(env, candidates, count, from, n, claimed, lost);
      answer := TryClaim(candidates[n].instanceId);
    }

    method ClaimWarmInstances(candidates: seq<StandbyInstance>, count: nat) returns (r: Claims, n: nat)
      requires DistinctIds(candidates)
      modifies this`step, this`calls, this`lostWrites, this`tried
      ensures ClaimedAs(env, candidates, count, old(step), n, r)
      ensures lostWrites >= old(lostWrites) && tried == old(tried) + Ids(candidates[..n])
      ensures lostWrites == old(lostWrites) && IdSet(candidates) !! old(Holding(calls)) ==>
                Holding(calls) == old(Holding(calls)) + IdSet(r.claimed)
    {
      ghost var from, held, before := step, Holding(calls), tried;
      var claimed: seq<StandbyInstance>, lost := [], false;
      n := 0;
      while n < |candidates| && |claimed| != count
        invariant n <= |candidates| && |claimed| <= count && lostWrites == old(lostWrites)
        invariant Claiming(candidates, from, n, claimed, lost, held, before)
      {
        var answer := ClaimNext(candidates, count, n, claimed, lost, from, held, before);
        n := n + 1;
        if answer == Won {
          claimed := claimed + [candidates[n - 1]];
        } else if answer == Lost {
          lost := true;
        } else {
          ReleaseAll(claimed);
          return Claims([], [], lost, true), n;
        }
      }
      return Claims(claimed, candidates[n..], lost, false), n;
    }

    method RollbackActivation(id: InstanceId, outcome: Rollback)
      modifies this`step, this`calls, this`lostWrites, this`tagged, this`lostUntags
      ensures lostWrites >= old(lostWrites) && lostUntags >= old(lostUntags)
      ensures lostWrites == old(lostWrites) ==>
                Holding(calls) == old(Holding(calls)) - {id} && calls == old(calls) + [Call(RollbackOp(id, outcome), true)]
      ensures lostUntags == old(lostUntags) + (if env.bestEffort(old(step)) then 0 else 1)
      ensures lostUntags == old(lostUntags) ==> tagged == old(tagged) - {id}
      ensures old(tagged) - {id} <= tagged <= old(tagged)
    {
      if env.bestEffort(step) {
        tagged := tagged - {id};
      } else {
        lostUntags := lostUntags + 1;
      }
      step := step + 2; // untag, then restore the pool tags
      if outcome == ToUnusable {
        EndClaim(MarkUnusable(id));
      } else if outcome == ToCooldown {
        EndClaim(ReleaseWithCooldown(id));
      } else {
        EndClaim(Release(id));
      }
    }

    /** One claimed instance: skip it, or tag and start it; anything short of a running instance is rolled back. */
    method StartOne(c: StandbyInstance) returns (answer: StartAnswer)
      modifies this`step, this`calls, this`lostWrites, this`tagged, this`lostUntags, this`exhaustedCapacity
      ensures answer == OutcomeOf(env, old(exhaustedCapacity), c, old(step))
      ensures exhaustedCapacity == if answer == NoCapacity && CapacityKey(c).Some?
                                   then old(exhaustedCapacity) + {CapacityKey(c).value} else old(exhaustedCapacity)
      ensures lostWrites >= old(lostWrites) && lostUntags >= old(lostUntags)
      ensures answer == Running ==> Holding(calls) == old(Holding(calls)) && tagged == old(tagged) + {c.instanceId}
      ensures answer != Running && lostWrites == old(lostWrites) ==>
                && Holding(calls) == old(Holding(calls)) - {c.instanceId}
                && calls == old(calls) + [Call(if answer == Stale then MarkUnusable(c.instanceId)
                                               else if answer == NoCapacity then ReleaseWithCooldown(c.instanceId)
                                               else Release(c.instanceId), true)]
      ensures answer != Running && lostUntags == old(lostUntags) && c.instanceId !in old(tagged) ==> tagged == old(tagged)
      ensures tagged <= old(tagged) + {c.instanceId}
    {
      if Exhausted(exhaustedCapacity, c) {
        EndClaim(Release(c.instanceId));
        return Refused;
      }
      var tagOk := env.tag(step);
      step := step + 1;
      if !tagOk {
        RollbackActivation(c.instanceId, ToRelease);
        return Refused;
      }
      tagged := tagged + {c.instanceId};
      answer := env.start(step);
      step := step + 1;
      if answer != Running {
        RollbackActivation(c.instanceId, StartFailureOutcome(answer));
        if answer == NoCapacity && CapacityKey(c).Some? {
          exhaustedCapacity := exhaustedCapacity + {CapacityKey(c).value};
        }
      }
    }

    method DestroyUnregistered(id: InstanceId)
      modifies this`step, this`calls, this`lostWrites, this`destroyed
      ensures destroyed == old(destroyed) + [id] && lostWrites >= old(lostWrites)
      ensures lostWrites == old(lostWrites) ==> Holding(calls) == old(Holding(calls)) - {id}
    {
      step := step + 1;
      destroyed := destroyed + [id];
      EndClaim(MarkUnusable(id));
    }

    method RecordActivation(id: InstanceId, activatedAt: int)
      modifies this`step, this`calls, this`lostWrites
      ensures lostWrites >= old(lostWrites)
      ensures lostWrites == old(lostWrites) ==> Holding(calls) == old(Holding(calls)) - {id}
    {
      EndClaim(MarkActivated(id, activatedAt));
    }

    /** Registers the running instances, destroys those GitHub did not accept, and records the rest as activated. */
    method Register(running: seq<StandbyInstance>, activatedAt: int)
      returns (started: seq<InstanceId>, unregistered: seq<InstanceId>)
      modifies this`step, this`calls, this`lostWrites, this`destroyed
      ensures lostWrites >= old(lostWrites)
      ensures started == Kept(env, old(step), Ids(running)) && unregistered == Failed(env, old(step), Ids(running))
      ensures lostWrites == old(lostWrites) ==> Holding(calls) == old(Holding(calls)) - IdSet(running)
      ensures destroyed == old(destroyed) + unregistered
    {
      ghost var call := step;
      var answer := FailedFor({});
      if running != [] {
        answer := env.register(step);
        step := step + 1;
      }
      started, unregistered := [], [];
      var k := 0;
      while k < |running|
        invariant k <= |running| && lostWrites >= old(lostWrites)
        invariant lostWrites == old(lostWrites) ==> Holding(calls) == old(Holding(calls)) - IdSet(running[..k])
        invariant started == Kept(env, call, Ids(running[..k])) && unregistered == Failed(env, call, Ids(running[..k]))
        invariant destroyed == old(destroyed) + unregistered
      {
        var id := running[k].instanceId;
        OneMoreRegistered(env, call, running, k);
        if FailsFor(answer, id) {
          unregistered := unregistered + [id];
          DestroyUnregistered(id);
        } else {
          started := started + [id];
          RecordActivation(id, activatedAt);
        }
        k := k + 1;
      }
      assert running[..k] == running;
    }

    /** In the midst of starting: what the answers make of the first `k` instances; what does not run is rolled back. */
    ghost predicate Starting(claimed: seq<StandbyInstance>, k: nat, s: Started, starts: seq<nat>, exhausted: set<string>,
                             held: set<InstanceId>, lost: nat, tags: set<InstanceId>, untags: nat)
      reads this
    {
      && k == |starts| <= |claimed| && s == StartedBy(env, exhausted, claimed[..k], starts) && s.exhausted == exhaustedCapacity
      && lostWrites >= lost && lostUntags >= untags && tagged <= tags + IdSet(claimed[..k])
      && (lostWrites == lost ==> Holding(calls) == held - (IdSet(claimed[..k]) - IdSet(s.running)))
      && (lostUntags == untags && IdSet(claimed) !! tags ==> tagged == tags + IdSet(s.running))
    }

    /** One instance more, with the counters. */
    method StartNext(claimed: seq<StandbyInstance>, k: nat, s: Started, ghost starts: seq<nat>, ghost exhausted: set<string>,
                     ghost held: set<InstanceId>, ghost lost: nat, ghost tags: set<InstanceId>, ghost untags: nat)
      returns (next: Started)
      requires DistinctIds(claimed) && k < |claimed| && Starting(claimed, k, s, starts, exhausted, held, lost, tags, untags)
      modifies this`step, this`calls, this`lostWrites, this`tagged, this`lostUntags, this`exhaustedCapacity
      ensures Starting(claimed, k + 1, next, starts + [old(step)], exhausted, held, lost, tags, untags)
    {
      StartStep(env, exhausted, claimed, k, starts, step);
      var c := claimed[k];
      var answer := StartOne(c);
      next := if answer == Running then s.(running := s.running + [c])
              else if answer == Stale then s.(stale := s.stale + 1) else s.(cold := s.cold + 1);
      next := next.(exhausted := exhaustedCapacity);
    }

    /** Starts what was claimed; what does not run is rolled back and counted. */
    method StartAll(claimed: seq<StandbyInstance>) returns (s: Started, ghost starts: seq<nat>)
      requires DistinctIds(claimed)
      modifies this`step, this`calls, this`lostWrites, this`tagged, this`lostUntags, this`exhaustedCapacity
      ensures |starts| == |claimed| && s == StartedBy(env, old(exhaustedCapacity), claimed, starts)
      ensures exhaustedCapacity == s.exhausted
      ensures lostWrites >= old(lostWrites) && lostUntags >= old(lostUntags)
      ensures tagged <= old(tagged) + IdSet(claimed)
      ensures lostWrites == old(lostWrites) ==> Holding(calls) == old(Holding(calls)) - (IdSet(claimed) - IdSet(s.running))
      ensures lostUntags == old(lostUntags) && IdSet(claimed) !! old(tagged) ==> tagged == old(tagged) + IdSet(s.running)
    {
      ghost var exhausted, held, lost, tags, untags := exhaustedCapacity, Holding(calls), lostWrites, tagged, lostUntags;
      s, starts := Started([], 0, 0, exhaustedCapacity), [];
      var k := 0;
      while k < |claimed|
        invariant k <= |claimed| && Starting(claimed, k, s, starts, exhausted, held, lost, tags, untags)
      {
        ghost var call := step;
        s := StartNext(claimed, k, s, starts, exhausted, held, lost, tags, untags);
        starts := starts + [call];
        k := k + 1;
      }
      assert claimed[..k] == claimed;
    }

    method ActivateBatch(claimed: seq<StandbyInstance>)
      returns (o: BatchOutcome, ghost starts: seq<nat>, ghost registration: nat, ghost unregistered: seq<InstanceId>)
      requires DistinctIds(claimed)
      modifies this`step, this`calls, this`lostWrites, this`tagged, this`lostUntags, this`exhaustedCapacity, this`destroyed
      ensures IsBatch(env, old(exhaustedCapacity), claimed, starts, registration, o, unregistered, exhaustedCapacity)
      ensures destroyed == old(destroyed) + unregistered
      ensures lostWrites >= old(lostWrites) && lostUntags >= old(lostUntags)
      ensures Members(o.started) <= IdSet(claimed) && tagged <= old(tagged) + IdSet(claimed)
      ensures lostWrites == old(lostWrites) ==> Holding(calls) == old(Holding(calls)) - IdSet(claimed)
      ensures lostUntags == old(lostUntags) && IdSet(claimed) !! old(tagged) ==>
                tagged == old(tagged) + Members(o.started) + Members(unregistered)
    {
      var activatedAt := env.clock(step);
      ghost var exhausted := exhaustedCapacity;
      var s;
      s, starts := StartAll(claimed);
      registration := step;
      var started, failed := Register(s.running, activatedAt);
      unregistered := failed;
      BatchAddsUp(env, exhausted, claimed, starts, registration);
      o := BatchOutcome(started, |failed|, s.cold, s.stale);
    }

    /** Between rounds: candidates still untried, nothing left claimed. */
    ghost predicate Settled(candidates: seq<StandbyInstance>, instances: seq<InstanceId>, gone: seq<InstanceId>)
      reads this
    {
      && DistinctIds(candidates) && Distinct(tried) && IdSet(candidates) !! Members(tried) && gone == destroyed
      && (lostUntags == 0 ==> tagged == Members(instances) + Members(destroyed))
      && (lostWrites == 0 ==> Holding(calls) == {})
      && tagged <= Members(tried)
    }

    /** One turn of the loop: claim up to `needed` candidates and activate what was claimed. */
    method Round(candidates: seq<StandbyInstance>, needed: nat, ghost instances: seq<InstanceId>, ghost gone: seq<InstanceId>)
      returns (c: Claims, o: BatchOutcome, ghost t: Turn)
      requires Settled(candidates, instances, gone) && needed > 0 && candidates != []
      modifies this
      ensures Settled(c.remaining, instances + o.started, gone + t.unregistered)
      ensures IsTurn(env, t) && t.candidates == candidates && t.needed == needed
      ensures t.exhausted == old(exhaustedCapacity) && t.after == exhaustedCapacity
      ensures t.o == o && c == t.c.(remaining := Remaining(t))
    {
      ghost var before, exhausted, from, were := tried, exhaustedCapacity, step, destroyed;
      var n;
      c, n := ClaimWarmInstances(candidates, needed);
      ClaimsAreFresh(env, candidates, needed, from, n, c, before);
      ghost var starts, registration, unregistered := [], 0, [];
      NoBatch(env, exhausted, registration);
      o := BatchOutcome([], 0, 0, 0);
      if c.claimed != [] {
        o, starts, registration, unregistered := ActivateBatch(c.claimed);
      }
      TagsAddUp(instances, o.started, were, unregistered);
      t := Turn(candidates, needed, exhausted, from, n, c, starts, registration, o, unregistered, exhaustedCapacity);
      var gone := exhaustedCapacity;
      FilterKeepsIds((x: StandbyInstance) => !Exhausted(gone, x), c.remaining);
      c := c.(remaining := Filter((x: StandbyInstance) => !Exhausted(gone, x), c.remaining));
    }

    /** Between rounds: the books agree with the turns, the loop stands where they have led, and nothing is left claimed. */
    ghost predicate Between(all: seq<StandbyInstance>, n: nat, turns: seq<Turn>, p: Progress)
      reads this
    {
      Books(env, all, n, turns, p) && Settled(p.candidates, p.instances, UnregisteredIn(turns))
    }

    /** The loop: round after round, until enough is started, nobody is left, or the index does not answer. */
    method ActivateInRounds(all: seq<StandbyInstance>, n: nat) returns (p: Progress, failed: bool, ghost turns: seq<Turn>)
      requires DistinctIds(all) && IsNew()
      modifies this
      ensures Between(all, n, turns, p) && IsOver(all, n, turns)
      ensures failed <==> IndexFailed(turns)
    {
      p, failed, turns := Progress(all, n, [], 0, 0, 0, false), false, [];
      var over := false;
      while !over && p.needed > 0 && p.candidates != []
        invariant Between(all, n, turns, p) && (over || (GoesOn(turns) && p.exhausted(turns) == exhaustedCapacity))
        invariant over ==> IsOver(all, n, turns)
        invariant failed <==> IndexFailed(turns)
        decreases !over, |p.candidates|
      {
        p, over, failed, turns := Advance(all, n, p, turns);
      }
    }

    /** One turn of the loop. */
    method Advance(all: seq<StandbyInstance>, n: nat, p: Progress, ghost turns: seq<Turn>)
      returns (next: Progress, over: bool, failed: bool, ghost more: seq<Turn>)
      requires Between(all, n, turns, p) && GoesOn(turns) && p.exhausted(turns) == exhaustedCapacity
      requires p.needed > 0 && p.candidates != []
      modifies this
      ensures Between(all, n, more, next) && (over || (GoesOn(more) && next.exhausted(more) == exhaustedCapacity))
      ensures over ==> IsOver(all, n, more)
      ensures failed <==> IndexFailed(more)
      ensures !over ==> |next.candidates| < |p.candidates|
    {
      ghost var t;
      next, over, failed, t := TakeTurn(all, n, p, turns);
      TurnEnds(env, all, n, turns, t);
      more := turns + [t];
    }

    /** Claims and activates, and adds what came of it to the books. */
    method TakeTurn(all: seq<StandbyInstance>, n: nat, p: Progress, ghost turns: seq<Turn>)
      returns (next: Progress, over: bool, failed: bool, ghost t: Turn)
      requires Between(all, n, turns, p) && GoesOn(turns) && p.exhausted(turns) == exhaustedCapacity
      requires p.needed > 0 && p.candidates != []
      modifies this
      ensures Between(all, n, turns + [t], next) && IsTurn(env, t)
      ensures t.candidates == p.candidates && next.candidates == Remaining(t) && t.after == exhaustedCapacity
      ensures failed == t.c.unavailable && (over <==> failed || t.c.claimed == [])
    {
      var claims, o;
      claims, o, t := Round(p.candidates, p.needed, p.instances, UnregisteredIn(turns));
      TurnAdds(env, all, n, turns, t, p);
      OneMoreTurn(turns, t);
      failed := claims.unavailable;
      over := failed || claims.claimed == [];
      next := Progress(claims.remaining, p.needed - (|o.started| + o.retryableErrorCount + o.coldFallbacks),
                       p.instances + o.started, p.retryable + o.retryableErrorCount, p.cold + o.coldFallbacks,
                       p.stale + o.staleCount, p.lost || claims.lost);
    }

    /**
     The whole activation. Result, reasons and turns are what the answers make of the candidates. On every exit path the
     slots it leaves to a cold launch are counted, never negative and explained reason by reason; no candidate is tried
     twice; and if no best-effort index write was lost, no entry is left claimed.
     */
    method ActivateWarmRunners(tableConfigured: bool, query: Option<seq<Row>>, numberOfRunners: nat)
      returns (r: WarmActivationResult, f: Fallbacks, ghost turns: seq<Turn>)
      requires query.Some? ==> forall i, j :: 0 <= i < j < |query.value| ==> query.value[i].0 != query.value[j].0
      requires IsNew()
      modifies this
      ensures IsResult(env, CandidatesIn(env, tableConfigured, query, old(step)), numberOfRunners, turns, r, f)
      ensures r.Total() == numberOfRunners && r.coldRunnerCount >= 0 && f.Total() == r.coldRunnerCount
      ensures f.noWarmInstance >= 0 && f.claimLost >= 0 && f.indexUnavailable >= 0 && f.startFailed >= 0
      ensures destroyed == UnregisteredIn(turns) && r.retryableErrorCount == |destroyed|
      ensures Distinct(tried)
      ensures lostWrites == 0 ==> Holding(calls) == {}
      ensures lostUntags == 0 ==> tagged == Members(r.instances) + Members(destroyed)
    {
      f, turns := Fallbacks(0, 0, 0, 0), [];
      if !tableConfigured || query.None? {
        return WarmActivationResult([], 0, numberOfRunners), f.(indexUnavailable := numberOfRunners), [];
      }
      var candidates := WarmCandidates(query.value, env.clock(step));
      CandidatesAreDistinct(query.value, env.clock(step));
      var p, failed;
      p, failed, turns := ActivateInRounds(candidates, numberOfRunners);
      RetryableAreUnregistered(env, candidates, numberOfRunners, turns);
      r := WarmActivationResult(p.instances, p.retryable, numberOfRunners - |p.instances| - p.retryable);
      if failed {
        f := f.(startFailed := p.cold, indexUnavailable := p.needed);
      } else {
        var staleFallbacks := Min(p.needed, p.stale);
        f := f.(startFailed := p.cold + staleFallbacks);
        if p.lost {
          f := f.(claimLost := p.needed - staleFallbacks);
        } else {
          f := f.(noWarmInstance := p.needed - staleFallbacks);
        }
      }
    }
  }

  /** The same index calls in the same order, and the same claims won: what an invocation learns of its own calls. */
  ghost predicate SameCalls(own: seq<Call>, calls: seq<Call>) {
    && |own| == |calls|
    && forall i :: 0 <= i < |own| ==> own[i].op == calls[i].op && (own[i].op.Claim? ==> own[i].ok == calls[i].ok)
  }

  lemma {:induction false} SameCallsHoldTheSame(own: seq<Call>, calls: seq<Call>)
    requires SameCalls(own, calls)
    ensures Holding(own) == Holding(calls)
  {
    if own != [] {
      SameCallsHoldTheSame(own[..|own| - 1], calls[..|calls| - 1]);
    }
  }

  /**
   Seen from the shared table: in every history of everybody's writes in which this owner's are the calls that an
   invocation recorded and that leave nothing held, as `ActivateWarmRunners` ensures, no entry carries its claim.
   */
  lemma NothingLeftClaimed(t: Table, run: seq<Event>, owner: Owner, calls: seq<Call>)
    requires forall id :: id in t ==> t[id].claimOwner != Some(owner)
    requires SameCalls(OwnCalls(t, run, owner), calls) && Holding(calls) == {}
    ensures forall id :: id in After(t, run) ==> After(t, run)[id].claimOwner != Some(owner)
  {
    SameCallsHoldTheSame(OwnCalls(t, run, owner), calls);
    ClaimsAreOwnDoing(t, run, owner);
    forall id | id in After(t, run) ensures After(t, run)[id].claimOwner != Some(owner) {
      assert !ClaimedBy(After(t, run), id, owner);
    }
  }
}
