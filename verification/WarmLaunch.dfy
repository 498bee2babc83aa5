/**
 Launching a refill: the shares of each round go to the ranked pairs that still have capacity; a pair that falls
 short is dropped, and what it did not deliver is dealt again. EC2's answers are arbitrary, by call number.
 */
module WarmLaunch {
  import opened Prelude
  import opened WarmPlacement

  type InstanceId = string

  datatype LaunchAnswer = Launched(ids: seq<InstanceId>) | CapacityError | OtherError

  datatype Environment = Environment(amiKnown: bool, launch: nat -> LaunchAnswer)

  /** EC2 launches at most `MaxCount` instances per request. */
  function Granted(answer: LaunchAnswer, maxCount: nat): (ids: seq<InstanceId>)
    ensures ids != [] ==> answer.Launched? && ids <= answer.ids && |ids| <= maxCount
    ensures answer.Launched? && ids != answer.ids ==> |ids| == maxCount
  {
    if answer.Launched? then answer.ids[..Min(|answer.ids|, maxCount)] else []
  }

  /** A request for one pair, by its position in the plan. */
  datatype Request = Request(pair: nat, requested: nat, answer: LaunchAnswer) {
    function Ids(): seq<InstanceId> {
      Granted(answer, requested)
    }

    /** EC2 did not bring all that was asked for. */
    ghost predicate FellShort() {
      requested > 0 && (answer.Launched? ==> |answer.ids| < requested)
    }
  }

  /** What the first `n` requests brought. */
  ghost function LaunchedBy(requests: seq<Request>, n: nat): seq<InstanceId>
    requires n <= |requests|
  {
    if n == 0 then [] else LaunchedBy(requests, n - 1) + requests[n - 1].Ids()
  }

  /** The pairs of the first `n` requests that fell short. */
  ghost function Exhausted(requests: seq<Request>, n: nat): set<nat>
    requires n <= |requests|
  {
    if n == 0 then {} else Exhausted(requests, n - 1) + (if requests[n - 1].FellShort() then {requests[n - 1].pair} else {})
  }

  lemma {:induction false} ExhaustedFellShort(requests: seq<Request>, n: nat, p: nat)
    requires n <= |requests|
    ensures p in Exhausted(requests, n) <==> exists i :: 0 <= i < n && requests[i].FellShort() && requests[i].pair == p
  {
    if n > 0 {
      ExhaustedFellShort(requests, n - 1, p);
    }
  }

  lemma {:induction false} PrefixIsKept(requests: seq<Request>, longer: seq<Request>, n: nat)
    requires n <= |requests| && requests <= longer
    ensures LaunchedBy(longer, n) == LaunchedBy(requests, n)
    ensures Exhausted(longer, n) == Exhausted(requests, n)
  {
    if n > 0 {
      PrefixIsKept(requests, longer, n - 1);
    }
  }

  /** A pair that fell short is never asked again. */
  ghost predicate DropsExhausted(requests: seq<Request>) {
    forall i, j :: 0 <= i < j < |requests| && requests[i].FellShort() ==> requests[j].pair != requests[i].pair
  }

  datatype WarmLaunchResult = WarmLaunchResult(instances: seq<InstanceId>, failedInstanceCount: nat, aborted: bool)

  lemma RequestsSnoc(requests: seq<Request>, r: Request)
    ensures LaunchedBy(requests + [r], |requests| + 1) == LaunchedBy(requests, |requests|) + r.Ids()
    ensures Exhausted(requests + [r], |requests| + 1)
         == Exhausted(requests, |requests|) + (if r.FellShort() then {r.pair} else {})
  {
    var n, all := |requests|, requests + [r];
    PrefixIsKept(requests, all, n);
    LaunchedNext(all, n);
    assert all[n] == r;
  }

  lemma LaunchedNext(requests: seq<Request>, n: nat)
    requires n < |requests|
    ensures LaunchedBy(requests, n + 1) == LaunchedBy(requests, n) + requests[n].Ids()
    ensures Exhausted(requests, n + 1) == Exhausted(requests, n) + (if requests[n].FellShort() then {requests[n].pair} else {})
  {
  }

  /** The same for the first `n` requests, one by one. */
  ghost predicate AsksOnlyLeft(requests: seq<Request>, n: nat)
    requires n <= |requests|
  {
    n == 0 || (AsksOnlyLeft(requests, n - 1) && requests[n - 1].pair !in Exhausted(requests, n - 1))
  }

  lemma DropsSnoc(requests: seq<Request>, r: Request)
    requires AsksOnlyLeft(requests, |requests|) && r.pair !in Exhausted(requests, |requests|)
    ensures AsksOnlyLeft(requests + [r], |requests| + 1)
  {
    OnlyLeftIsKept(requests, r, |requests|);
    PrefixIsKept(requests, requests + [r], |requests|);
  }

  lemma {:induction false} OnlyLeftIsKept(requests: seq<Request>, r: Request, n: nat)
    requires n <= |requests| && AsksOnlyLeft(requests, n)
    ensures AsksOnlyLeft(requests + [r], n)
  {
    if n > 0 {
      OnlyLeftIsKept(requests, r, n - 1);
      PrefixIsKept(requests, requests + [r], n - 1);
    }
  }

  lemma {:induction false} OnlyLeftDrops(requests: seq<Request>, n: nat)
    requires n <= |requests| && AsksOnlyLeft(requests, n)
    ensures DropsExhausted(requests[..n])
  {
    if n > 0 {
      OnlyLeftDrops(requests, n - 1);
      ExhaustedFellShort(requests, n - 1, requests[n - 1].pair);
      forall i, j | 0 <= i < j < n && requests[..n][i].FellShort() ensures requests[j].pair != requests[i].pair {
        assert requests[..n - 1][i] == requests[i] && (j < n - 1 ==> requests[..n - 1][j] == requests[j]);
      }
    }
  }

  lemma AllOnlyLeftDrop(requests: seq<Request>)
    requires AsksOnlyLeft(requests, |requests|)
    ensures DropsExhausted(requests)
  {
    OnlyLeftDrops(requests, |requests|);
    assert requests[..|requests|] == requests;
  }

  /** Every request was answered as the launch of that number is answered. */
  ghost predicate TrueRequests(env: Environment, requests: seq<Request>) {
    forall k :: 0 <= k < |requests| ==> requests[k].answer == env.launch(k)
  }

  /** One pass over the pairs left: the first `asked` of them got a request, beginning with the one numbered `first`. */
  datatype RoundLog = RoundLog(first: nat, candidates: seq<nat>, shares: seq<int>, asked: nat)

  /** All of `missing` is dealt: as evenly as possible with the better pairs ahead, or to the best pair alone. */
  ghost predicate IsDeal(shares: seq<int>, missing: int, spread: bool) {
    && Sum(shares) == missing
    && (forall i :: 0 <= i < |shares| ==> shares[i] >= 0)
    && (spread ==> forall i, j :: 0 <= i < j < |shares| ==> shares[j] <= shares[i] <= shares[j] + 1)
    && (!spread && shares != [] ==> shares[0] == missing)
  }

  /** The pairs that did not fall short in the first `n` requests, in the order of the plan. */
  ghost predicate AreLeft(plan: Plan, requests: seq<Request>, n: nat, candidates: seq<nat>)
    requires n <= |requests|
  {
    && Ascending(candidates)
    && forall p: nat :: p in candidates <==> p < |plan.pairs| && p !in Exhausted(requests, n)
  }

  /** The requests of a round follow the plan, over the pairs that have not fallen short before it. */
  ghost predicate IsRound(plan: Plan, wanted: nat, requests: seq<Request>, r: RoundLog) {
    && r.first + r.asked <= |requests| && r.asked <= |r.candidates| == |r.shares|
    && AreLeft(plan, requests, r.first, r.candidates)
    && |LaunchedBy(requests, r.first)| < wanted
    && IsDeal(r.shares, wanted - |LaunchedBy(requests, r.first)|, plan.spread)
    && (forall i :: 0 <= i < r.asked ==>
          requests[r.first + i].pair == r.candidates[i] && requests[r.first + i].requested == r.shares[i] > 0)
    && (|| (forall i :: r.asked <= i < |r.shares| ==> r.shares[i] == 0)
        || (r.asked > 0 && requests[r.first + r.asked - 1].answer.OtherError?))
  }

  /** The requests are those of the rounds, one after the other. */
  ghost predicate AreRounds(plan: Plan, wanted: nat, requests: seq<Request>, rounds: seq<RoundLog>) {
    && (forall k :: 0 <= k < |rounds| ==> IsRound(plan, wanted, requests, rounds[k]))
    && (forall k :: 0 < k < |rounds| ==> rounds[k].first == rounds[k - 1].first + rounds[k - 1].asked)
    && (if rounds == [] then requests == []
        else rounds[0].first == 0 && rounds[|rounds| - 1].first + rounds[|rounds| - 1].asked == |requests|)
  }

  lemma RoundGrows(plan: Plan, wanted: nat, requests: seq<Request>, longer: seq<Request>, r: RoundLog)
    requires IsRound(plan, wanted, requests, r) && requests <= longer
    ensures IsRound(plan, wanted, longer, r)
  {
    PrefixIsKept(requests, longer, r.first);
  }

  lemma RoundsGrow(plan: Plan, wanted: nat, requests: seq<Request>, rounds: seq<RoundLog>, longer: seq<Request>, r: RoundLog)
    requires AreRounds(plan, wanted, requests, rounds) && requests <= longer
    requires r.first == |requests| && r.first + r.asked == |longer| && IsRound(plan, wanted, longer, r)
    ensures AreRounds(plan, wanted, longer, rounds + [r])
  {
    forall k | 0 <= k < |rounds| ensures IsRound(plan, wanted, longer, rounds[k]) {
      RoundGrows(plan, wanted, requests, longer, rounds[k]);
    }
  }

  /** The pairs of `shares` with anything to bring stand first. */
  ghost predicate FirstAreServed(shares: seq<int>, served: nat) {
    && served <= |shares|
    && forall i :: 0 <= i < |shares| ==> (if i < served then shares[i] > 0 else shares[i] == 0)
  }

  ghost function SumUpTo(s: seq<int>, k: nat): int
    requires k <= |s|
  {
    if k == 0 then 0 else SumUpTo(s, k - 1) + s[k - 1]
  }

  lemma {:induction false} SumUpToIsSum(s: seq<int>, k: nat)
    requires k <= |s|
    ensures SumUpTo(s, k) == Sum(s[..k])
  {
    if k > 0 {
      SumUpToIsSum(s, k - 1);
      assert s[..k] == s[..k - 1] + [s[k - 1]];
      SumAppend(s[..k - 1], [s[k - 1]]);
    }
  }

  /** A round that begins after `first` requests, with the pairs that had fallen short by then. */
  datatype Pass = Pass(first: nat, gone: set<nat>, candidates: seq<nat>, shares: seq<int>, served: nat) {
    ghost predicate Valid() {
      && Distinct(candidates) && |candidates| == |shares| && FirstAreServed(shares, served)
      && forall i :: 0 <= i < |candidates| ==> candidates[i] !in gone
    }

    /** The requests made since, in order, are those of the candidates for their shares. */
    ghost predicate IsFollowed(requests: seq<Request>) {
      && first <= |requests| <= first + served && served <= |candidates| == |shares|
      && forall i :: 0 <= i < |requests| - first ==>
           requests[first + i].pair == candidates[i] && requests[first + i].requested == shares[i]
    }

    /** The first `position` candidates have had their turn, and of them exactly these fell short. */
    ghost predicate Midway(requests: seq<Request>, exhausted: set<nat>, position: nat) {
      && position <= |candidates| && IsFollowed(requests)
      && |requests| == first + (if position < served then position else served)
      && Exhausted(requests, first) == gone && exhausted !! gone
      && Exhausted(requests, |requests|) == gone + exhausted
    }

    lemma Begins(requests: seq<Request>)
      requires Valid() && |requests| == first && Exhausted(requests, first) == gone
      ensures Midway(requests, {}, 0)
    {
    }

    lemma Step(requests: seq<Request>, exhausted: set<nat>, position: nat, q: Request)
      requires Valid() && Midway(requests, exhausted, position) && position < served
      requires q.pair == candidates[position] && q.requested == shares[position]
      ensures Midway(requests + [q], exhausted + (if q.FellShort() then {q.pair} else {}), position + 1)
    {
      RequestsSnoc(requests, q);
      PrefixIsKept(requests, requests + [q], first);
    }

    lemma {:induction false} OnlyCandidatesFallShort(requests: seq<Request>, n: nat, p: nat)
      requires first <= n <= |requests| && IsFollowed(requests)
      requires p in Exhausted(requests, n) && p !in Exhausted(requests, first)
      ensures p in candidates[..n - first]
    {
      if p in Exhausted(requests, n - 1) {
        OnlyCandidatesFallShort(requests, n - 1, p);
      } else {
        var i := n - 1 - first;
        assert requests[first + i].pair == p && candidates[..n - first][i] == candidates[i];
      }
    }

    /** The next candidate has not fallen short yet. */
    lemma NextIsLeft(requests: seq<Request>, exhausted: set<nat>, position: nat)
      requires Valid() && Midway(requests, exhausted, position) && position < |candidates|
      ensures position < served ==> candidates[position] !in Exhausted(requests, |requests|)
      ensures if position < served then shares[position] > 0 else shares[position] == 0
    {
      if position < served && candidates[position] in Exhausted(requests, |requests|) {
        OnlyCandidatesFallShort(requests, |requests|, candidates[position]);
        assert false;
      }
    }

    /** Every request brings what it asked for, or its pair falls short. */
    lemma {:induction false} BringsShares(requests: seq<Request>, n: nat)
      requires IsFollowed(requests) && first <= n <= |requests| && forall i :: 0 <= i < |shares| ==> shares[i] >= 0
      ensures var brought := |LaunchedBy(requests, n)| - |LaunchedBy(requests, first)|;
              && 0 <= brought <= SumUpTo(shares, n - first)
              && (Exhausted(requests, n) <= Exhausted(requests, first) && Exhausted(requests, first) !! (set p | p in candidates)
                  ==> brought == SumUpTo(shares, n - first))
    {
      if first < n {
        BringsShares(requests, n - 1);
        var i := n - 1 - first;
        var q := requests[first + i];
        assert q == requests[n - 1] && q.requested == shares[i] && q.pair == candidates[i];
        assert q.pair in candidates;
      }
    }

    lemma Ends(requests: seq<Request>, exhausted: set<nat>, position: nat)
      requires Valid() && Midway(requests, exhausted, position)
      ensures exhausted <= set p | p in candidates
      ensures |LaunchedBy(requests, first)| <= |LaunchedBy(requests, |requests|)| <= |LaunchedBy(requests, first)| + Sum(shares)
      ensures position == |candidates| ==> |requests| == first + served
      ensures position == |candidates| && exhausted == {} ==>
                |LaunchedBy(requests, |requests|)| == |LaunchedBy(requests, first)| + Sum(shares)
    {
      forall p | p in exhausted ensures p in candidates {
        OnlyCandidatesFallShort(requests, |requests|, p);
      }
      BringsShares(requests, |requests|);
      var n := |requests| - first;
      SumUpToIsSum(shares, n);
      SharesMonotone(shares, n);
      if position == |candidates| {
        SumOfZeros(shares[n..]);
        SumAppend(shares[..n], shares[n..]);
        assert shares == shares[..n] + shares[n..];
      }
    }
  }

  lemma RoundIsOne(plan: Plan, wanted: nat, requests: seq<Request>, s: Pass, r: RoundLog)
    requires s.Valid() && s.IsFollowed(requests)
    requires r == RoundLog(s.first, s.candidates, s.shares, |requests| - s.first)
    requires |requests| == s.first + s.served || (|requests| > s.first && requests[|requests| - 1].answer.OtherError?)
    requires AreLeft(plan, requests, s.first, s.candidates)
    requires |LaunchedBy(requests, s.first)| < wanted
    requires IsDeal(s.shares, wanted - |LaunchedBy(requests, s.first)|, plan.spread)
    ensures IsRound(plan, wanted, requests, r)
  {
  }

  class Refill {
    const env: Environment
    var requests: seq<Request>
    var instances: seq<InstanceId>

    constructor (env: Environment)
      ensures this.env == env && requests == [] && instances == []
    {
      this.env := env;
      requests, instances := [], [];
    }

    ghost predicate Valid()
      reads this
    {
      instances == LaunchedBy(requests, |requests|) && AsksOnlyLeft(requests, |requests|) && TrueRequests(env, requests)
    }

    /** One request; an error that is not about capacity aborts the whole launch. */
    method Ask(pair: nat, requested: nat) returns (short: bool, abort: bool, ghost q: Request)
      requires Valid() && pair !in Exhausted(requests, |requests|)
      modifies this
      ensures Valid() && requests == old(requests) + [q] && |instances| == |old(instances)| + |q.Ids()|
      ensures q == Request(pair, requested, env.launch(|old(requests)|))
      ensures abort <==> q.answer.OtherError?
      ensures short <==> q.FellShort()
    {
      var answer := env.launch(|requests|);
      var r := Request(pair, requested, answer);
      RequestsSnoc(requests, r);
      DropsSnoc(requests, r);
      requests := requests + [r];
      instances := instances + r.Ids();
      short, abort, q := |r.Ids()| < requested, answer.OtherError?, r;
    }

    /** Every remaining pair is asked for its share, if it has one, unless another error than capacity ends the round. */
    method AskAll(candidates: seq<nat>, shares: seq<int>, ghost s: Pass)
      returns (exhausted: set<nat>, abort: bool, ghost position: nat)
      requires Valid() && s.Valid() && s.candidates == candidates && s.shares == shares
      requires s.first == |requests| && s.gone == Exhausted(requests, |requests|)
      modifies this
      ensures Valid() && old(requests) <= requests && s.Midway(requests, exhausted, position)
      ensures if abort then |requests| > s.first && requests[|requests| - 1].answer.OtherError? else position == |candidates|
    {
      exhausted, abort := {}, false;
      var next := 0;
      s.Begins(requests);
      while next < |candidates|
        invariant Valid() && old(requests) <= requests && s.Midway(requests, exhausted, next)
      {
        s.NextIsLeft(requests, exhausted, next);
        if shares[next] > 0 {
          ghost var before := requests;
          var short; ghost var q;
          short, abort, q := Ask(candidates[next], shares[next]);
          s.Step(before, exhausted, next, q);
          exhausted := exhausted + (if short then {candidates[next]} else {});
          if abort {
            return exhausted, abort, next + 1;
          }
        }
        next := next + 1;
      }
      position := next;
    }

    /** One round: what is missing is dealt to the pairs left, and those that fall short are dropped. */
    method Round(plan: Plan, wanted: nat, candidates: seq<nat>)
      returns (left: seq<nat>, abort: bool, ghost round: RoundLog)
      requires Valid() && |instances| < wanted && candidates != []
      requires AreLeft(plan, requests, |requests|, candidates)
      modifies this
      ensures Valid() && old(requests) <= requests && IsRound(plan, wanted, requests, round)
      ensures round.first == |old(requests)| && round.first + round.asked == |requests|
      ensures |old(instances)| <= |instances| <= wanted
      ensures abort ==> exists q :: q in requests && q.answer.OtherError?
      ensures !abort ==>
                && AreLeft(plan, requests, |requests|, left)
                && |left| <= |candidates| && (|left| < |candidates| || |instances| == wanted)
    {
      var shares := DealWarmShares(wanted - |instances|, |candidates|, plan.spread);
      ghost var s := PassOver(plan, requests, candidates, wanted - |instances|);
      var exhausted;
      ghost var position;
      exhausted, abort, position := AskAll(candidates, shares, s);
      round := RoundEnds(plan, wanted, old(requests), requests, s, exhausted, position, abort);
      assert abort ==> requests[|requests| - 1] in requests;
      left := Filter((p: nat) => p !in exhausted, candidates);
    }

    /**
     Never more than requested; fewer only when a request failed for another reason than capacity, or when every
     planned pair was asked and fell short. The loop ends because a round either delivers everything or drops a pair.
     */
    method LaunchWarmInstances(plan: Plan, numberOfRunners: nat) returns (r: WarmLaunchResult, ghost rounds: seq<RoundLog>)
      requires requests == [] && instances == []
      modifies this
      ensures r.instances == LaunchedBy(requests, |requests|) && DropsExhausted(requests) && TrueRequests(env, requests)
      ensures |r.instances| <= numberOfRunners
      ensures |r.instances| + r.failedInstanceCount == numberOfRunners
      ensures r.failedInstanceCount > 0 ==>
                || !env.amiKnown
                || (exists q :: q in requests && q.answer.OtherError?)
                || (forall p :: 0 <= p < |plan.pairs| ==> p in Exhausted(requests, |requests|))
      ensures !env.amiKnown ==> requests == []
      ensures AreRounds(plan, numberOfRunners, requests, rounds)
      ensures env.amiKnown && plan.pairs != [] && numberOfRunners > 0 ==> rounds != []
    {
      rounds := [];
      if !env.amiKnown {
        return WarmLaunchResult([], numberOfRunners, true), rounds;
      }
      var candidates: seq<nat> := seq(|plan.pairs|, i => i);
      AllAreLeft(plan, candidates);
      while |instances| < numberOfRunners && |candidates| > 0
        invariant Valid() && |instances| <= numberOfRunners
        invariant AreLeft(plan, requests, |requests|, candidates)
        invariant AreRounds(plan, numberOfRunners, requests, rounds)
        invariant rounds == [] ==> |candidates| == |plan.pairs| && instances == []
        decreases numberOfRunners - |instances| + |candidates|
      {
        ghost var before := requests;
        var left, abort, round := Round(plan, numberOfRunners, candidates);
        RoundsGrow(plan, numberOfRunners, before, rounds, requests, round);
        rounds := rounds + [round];
        if abort {
          AllOnlyLeftDrop(requests);
          return WarmLaunchResult(instances, numberOfRunners - |instances|, true), rounds;
        }
        candidates := left;
      }
      AllOnlyLeftDrop(requests);
      return WarmLaunchResult(instances, numberOfRunners - |instances|, false), rounds;
    }
  }

  /** The pairs with a share come first. */
  ghost function Served(shares: seq<int>, missing: int, spread: bool): (n: nat)
    requires IsDeal(shares, missing, spread)
    ensures FirstAreServed(shares, n)
  {
    if shares == [] || shares[0] == 0 then NoneIsServed(shares, missing, spread); 0
    else if !spread then OnlyFirstIsServed(shares, missing); 1
    else 1 + Served(shares[1..], missing - shares[0], spread)
  }

  ghost function ServedByDeal(missing: int, slots: int, spread: bool): (n: nat)
    requires missing > 0 && slots > 0
    ensures var shares := DealWarmShares(missing, slots, spread);
            |shares| == slots && IsDeal(shares, missing, spread) && FirstAreServed(shares, n)
  {
    SharesAddUp(missing, slots, spread);
    Served(DealWarmShares(missing, slots, spread), missing, spread)
  }

  lemma NoneIsServed(shares: seq<int>, missing: int, spread: bool)
    requires IsDeal(shares, missing, spread) && (shares != [] ==> shares[0] == 0)
    ensures forall i :: 0 <= i < |shares| ==> shares[i] == 0
  {
    if !spread && shares != [] {
      OnlyFirstIsServed(shares, missing);
    }
  }

  lemma OnlyFirstIsServed(shares: seq<int>, missing: int)
    requires shares != [] && IsDeal(shares, missing, false)
    ensures forall i :: 1 <= i < |shares| ==> shares[i] == 0
  {
    forall i | 1 <= i < |shares| ensures shares[i] == 0 {
      assert Sum(shares) == shares[0] + Sum(shares[1..]);
      PartOfSum(shares[1..], i - 1);
    }
  }

  lemma {:induction false} PartOfSum(s: seq<int>, i: nat)
    requires i < |s| && forall j :: 0 <= j < |s| ==> s[j] >= 0
    ensures 0 <= s[i] <= Sum(s)
  {
    SharesMonotone(s, 0);
    SharesMonotone(s[1..], 0);
    if i > 0 {
      PartOfSum(s[1..], i - 1);
    }
  }

  ghost predicate Ascending(s: seq<nat>) {
    forall i, j :: 0 <= i < j < |s| ==> s[i] < s[j]
  }

  lemma {:induction false} FilterKeepsOrder(keep: nat -> bool, s: seq<nat>)
    requires Ascending(s)
    ensures Ascending(Filter(keep, s))
  {
    if s != [] {
      FilterKeepsOrder(keep, s[1..]);
      var rest := Filter(keep, s[1..]);
      forall j | 0 <= j < |rest| ensures s[0] < rest[j] {
        assert rest[j] in s[1..];
      }
      assert Ascending([s[0]] + rest);
    }
  }

  lemma {:induction false} SharesMonotone(shares: seq<int>, n: nat)
    requires n <= |shares| && forall i :: 0 <= i < |shares| ==> shares[i] >= 0
    ensures 0 <= Sum(shares[..n]) <= Sum(shares)
  {
    if n > 0 {
      SharesMonotone(shares[1..], n - 1);
      assert shares[..n][1..] == shares[1..][..n - 1];
    } else if shares != [] {
      SharesMonotone(shares[1..], 0);
    }
  }

  lemma AllAreLeft(plan: Plan, candidates: seq<nat>)
    requires |candidates| == |plan.pairs| && forall p: nat :: p < |candidates| ==> candidates[p] == p
    ensures AreLeft(plan, [], 0, candidates)
  {
    forall p: nat ensures p in candidates <==> p < |plan.pairs| {
      if p < |candidates| {
        assert candidates[p] == p;
      }
    }
  }

  ghost function PassOver(plan: Plan, requests: seq<Request>, candidates: seq<nat>, missing: int): (s: Pass)
    requires AreLeft(plan, requests, |requests|, candidates) && candidates != [] && missing > 0
    ensures s.Valid() && s.first == |requests| && s.gone == Exhausted(requests, |requests|)
    ensures s.candidates == candidates && s.shares == DealWarmShares(missing, |candidates|, plan.spread)
    ensures IsDeal(s.shares, missing, plan.spread)
  {
    assert forall i :: 0 <= i < |candidates| ==> candidates[i] in candidates;
    Pass(|requests|, Exhausted(requests, |requests|), candidates, DealWarmShares(missing, |candidates|, plan.spread),
         ServedByDeal(missing, |candidates|, plan.spread))
  }

  /** A round that was not broken off either brought all or leaves fewer pairs. */
  lemma RoundEnds(plan: Plan, wanted: nat, before: seq<Request>, requests: seq<Request>, s: Pass,
                  exhausted: set<nat>, position: nat, abort: bool)
    returns (r: RoundLog)
    requires AreLeft(plan, before, |before|, s.candidates) && before <= requests
    requires s.Valid() && s.first == |before| && |LaunchedBy(before, |before|)| < wanted
    requires IsDeal(s.shares, wanted - |LaunchedBy(before, |before|)|, plan.spread)
    requires s.Midway(requests, exhausted, position)
    requires if abort then |requests| > s.first && requests[|requests| - 1].answer.OtherError? else position == |s.candidates|
    ensures r.first == |before| && r.first + r.asked == |requests| && IsRound(plan, wanted, requests, r)
    ensures |LaunchedBy(before, |before|)| <= |LaunchedBy(requests, |requests|)| <= wanted
    ensures !abort ==>
              var rest := Filter((p: nat) => p !in exhausted, s.candidates);
              && AreLeft(plan, requests, |requests|, rest) && |rest| <= |s.candidates|
              && (|rest| < |s.candidates| || |LaunchedBy(requests, |requests|)| == wanted)
  {
    s.Ends(requests, exhausted, position);
    PrefixIsKept(before, requests, s.first);
    r := RoundLog(s.first, s.candidates, s.shares, |requests| - s.first);
    RoundIsOne(plan, wanted, requests, s, r);
    LeftShrink(plan, before, requests, s.candidates, exhausted);
  }

  lemma LeftShrink(plan: Plan, before: seq<Request>, requests: seq<Request>, candidates: seq<nat>, exhausted: set<nat>)
    requires AreLeft(plan, before, |before|, candidates) && exhausted <= set p | p in candidates
    requires Exhausted(requests, |requests|) == Exhausted(before, |before|) + exhausted
    ensures var rest := Filter((p: nat) => p !in exhausted, candidates);
            && AreLeft(plan, requests, |requests|, rest)
            && |rest| <= |candidates| && (exhausted != {} ==> |rest| < |candidates|)
  {
    var keep := (p: nat) => p !in exhausted;
    FilterKeepsOrder(keep, candidates);
    forall p: nat ensures p in Filter(keep, candidates) <==> p in candidates && p !in exhausted {}
    if exhausted != {} {
      var p :| p in exhausted;
      FilterDrops(keep, candidates, p);
    }
  }

  lemma {:induction false} FilterDrops(keep: nat -> bool, s: seq<nat>, p: nat)
    requires p in s && !keep(p)
    ensures |Filter(keep, s)| < |s|
  {
    if s[0] != p {
      FilterDrops(keep, s[1..], p);
    }
  }

  // ---------------------------------------------------------------- what the rounds come to

  lemma {:induction false} EvenSum(s: seq<int>, x: int)
    requires forall i :: 0 <= i < |s| ==> x - 1 <= s[i] <= x
    ensures |s| * (x - 1) <= Sum(s) <= |s| * x
  {
    if s != [] {
      EvenSum(s[1..], x);
    }
  }

  /** A deal of something gives the first pair a share: all, or the even one rounded up. */
  lemma FirstShare(shares: seq<int>, missing: int, spread: bool)
    requires IsDeal(shares, missing, spread) && missing > 0
    ensures shares != [] && shares[0] > 0
    ensures !spread ==> shares[0] == missing && forall i :: 1 <= i < |shares| ==> shares[i] == 0
    ensures spread ==> |shares| * (shares[0] - 1) < missing <= |shares| * shares[0]
  {
    if shares[0] == 0 {
      NoneIsServed(shares, missing, spread);
      SumOfZeros(shares);
      assert false;
    }
    if spread {
      EvenSum(shares[1..], shares[0]);
    } else {
      OnlyFirstIsServed(shares, missing);
    }
  }

  lemma FirstRequest(plan: Plan, wanted: nat, requests: seq<Request>, r: RoundLog)
    requires IsRound(plan, wanted, requests, r)
    ensures r.candidates != [] && r.asked > 0 && (!plan.spread ==> r.asked == 1)
    ensures requests[r.first].pair == r.candidates[0] && requests[r.first].requested == r.shares[0] > 0
  {
    FirstShare(r.shares, wanted - |LaunchedBy(requests, r.first)|, plan.spread);
    assert r.asked > 0;
    assert requests[r.first + 0].pair == r.candidates[0];
    assert r.asked > 1 ==> requests[r.first + 1].requested == r.shares[1];
  }

  lemma LeastIsFirst(plan: Plan, requests: seq<Request>, n: nat, candidates: seq<nat>, p: nat)
    requires n <= |requests| && AreLeft(plan, requests, n, candidates)
    requires p < |plan.pairs| && p !in Exhausted(requests, n) && forall q: nat :: q < p ==> q in Exhausted(requests, n)
    ensures candidates != [] && candidates[0] == p
  {
    assert p in candidates;
    assert candidates[0] in candidates;
  }

  /** The best pair of the plan is asked first: for everything without spreading, else for the rounded-up even share. */
  lemma BestPairIsFirst(plan: Plan, wanted: nat, requests: seq<Request>, rounds: seq<RoundLog>)
    requires AreRounds(plan, wanted, requests, rounds) && rounds != [] && plan.pairs != []
    ensures requests != [] && requests[0].pair == 0
    ensures !plan.spread ==> requests[0].requested == wanted
    ensures plan.spread ==>
              |plan.pairs| * (requests[0].requested - 1) < wanted <= |plan.pairs| * requests[0].requested
  {
    var r := rounds[0];
    assert IsRound(plan, wanted, requests, r);
    LeastIsFirst(plan, requests, 0, r.candidates, 0);
    FirstRequest(plan, wanted, requests, r);
    FirstShare(r.shares, wanted, plan.spread);
    AllLeftAtFirst(plan, requests, r.candidates);
  }

  lemma AllLeftAtFirst(plan: Plan, requests: seq<Request>, candidates: seq<nat>)
    requires AreLeft(plan, requests, 0, candidates)
    ensures |candidates| == |plan.pairs|
  {
    var all: seq<nat> := seq(|plan.pairs|, i => i);
    AllAreLeft(plan, all);
    SameElementsSameLength(candidates, all);
  }

  /** Without spreading the pairs are asked in the order of the plan, each for all that is still missing. */
  lemma {:induction false} PairsAreAskedInOrder(plan: Plan, wanted: nat, requests: seq<Request>, rounds: seq<RoundLog>, k: nat)
    requires AreRounds(plan, wanted, requests, rounds) && !plan.spread && k < |rounds|
    ensures rounds[k].first == k < |requests| && requests[k].pair == k
    ensures requests[k].requested == wanted - |LaunchedBy(requests, k)| > 0
    ensures forall q: nat :: q in Exhausted(requests, k) <==> q < k
  {
    var r := rounds[k];
    assert IsRound(plan, wanted, requests, r);
    if k > 0 {
      PairsAreAskedInOrder(plan, wanted, requests, rounds, k - 1);
      assert IsRound(plan, wanted, requests, rounds[k - 1]);
      FirstRequest(plan, wanted, requests, rounds[k - 1]);
      assert r.first == k;
      assert LaunchedBy(requests, k) == LaunchedBy(requests, k - 1) + requests[k - 1].Ids();
      assert requests[k - 1].FellShort();
      assert Exhausted(requests, k) == Exhausted(requests, k - 1) + {k - 1};
    }
    FirstRequest(plan, wanted, requests, r);
    FirstShare(r.shares, wanted - |LaunchedBy(requests, k)|, plan.spread);
    assert r.candidates[0] in r.candidates;
    LeastIsFirst(plan, requests, k, r.candidates, k);
  }
}
