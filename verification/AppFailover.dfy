/**
 Running one GitHub request with another app whenever an app turns out to be rate limited. Other
 requests of the same process report and are answered in between.
 */
module AppFailover {
  import opened Prelude
  import opened AppSelection

  const CORE: string := "core"

  /** The rate-limit headers of a response. */
  datatype Headers = Headers(remaining: Option<int>, resetAt: Option<int>, resource: Option<string>)

  /** A rejection for a rate limit: of the app's quota (primary) or of its pace. */
  datatype Limit = Limit(primary: bool, retryAt: Option<int>, resetAt: Option<int>)

  datatype Answer =
    | Success
    | Failure(duringInitialization: bool, headers: Option<Headers>, limit: Option<Limit>)

  /** What is answered, by the number of the question; `others` are the reports of concurrent requests. */
  datatype Environment = Environment(
    appCount: nat,
    scope: string,
    now: nat -> int,
    offset: nat -> nat,
    others: nat -> seq<Report>,
    hasClient: (nat, nat) -> bool,
    answer: (nat, nat) -> Answer)

  function Until(limit: Limit, now: int): (until: int)
    ensures until > now
  {
    var deadline := if limit.primary then limit.resetAt else limit.retryAt;
    if deadline.Some? && deadline.value > now then deadline.value + 1000 else now + 60000
  }

  /** One try: the number of the call, which app ran the request, and what came of it. */
  datatype Try = Try(call: nat, app: nat, answer: Answer)

  ghost function Apps(tries: seq<Try>): (apps: seq<nat>)
    ensures |apps| == |tries| && forall i :: 0 <= i < |tries| ==> apps[i] == tries[i].app
  {
    seq(|tries|, i requires 0 <= i < |tries| => tries[i].app)
  }

  ghost predicate IsLimited(a: Answer) {
    a.Failure? && a.limit.Some?
  }

  function Everyone(count: nat): (r: set<nat>)
    ensures |r| == count && forall a: nat :: a in r <==> a < count
  {
    if count == 0 then {} else Everyone(count - 1) + {count - 1}
  }

  datatype Result = Returned(app: nat) | Thrown | NoApp

  /** What the others report between two questions. */
  ghost function Heard(env: Environment, first: nat, end: nat): seq<Report>
    decreases end
  {
    if end <= first then [] else Heard(env, first, end - 1) + env.others(end - 1)
  }

  lemma {:induction false} ReportedInTurn(states: States, a: seq<Report>, b: seq<Report>)
    ensures AllReported(states, a + b) == AllReported(AllReported(states, a), b)
  {
    if b == [] {
      assert a + b == a;
    } else {
      assert (a + b)[..|a + b| - 1] == a + b[..|b| - 1];
      ReportedInTurn(states, a, b[..|b| - 1]);
    }
  }

  lemma HeardNext(env: Environment, states: States, first: nat, end: nat)
    requires first <= end
    ensures AllReported(AllReported(states, Heard(env, first, end)), env.others(end))
            == AllReported(states, Heard(env, first, end + 1))
  {
    ReportedInTurn(states, Heard(env, first, end), env.others(end));
  }

  // ---------------------------------------------------------------- the memory of the limits, and how it goes on

  /** What is known of the limits. */
  datatype Limits = Limits(states: States, cooldowns: Cooldowns)

  /** After what the others report while question `k` waits. */
  ghost function Waited(env: Environment, l: Limits, k: nat): Limits {
    l.(states := AllReported(l.states, env.others(k)))
  }

  /** Known at question `n`, if nothing has come in since question `from` but what the others report. */
  ghost function LimitsAt(env: Environment, l: Limits, from: nat, n: nat): Limits {
    l.(states := AllReported(l.states, Heard(env, from, n)))
  }

  ghost predicate CanUse(env: Environment, l: Limits, excluded: set<nat>, resource: string, k: nat, app: nat) {
    Eligible(l.states, l.cooldowns, excluded, env.scope, resource, env.now(k), app)
  }

  ghost predicate ReportsQuota(failure: Answer) {
    failure.Failure? && failure.headers.Some? && failure.headers.value.remaining.Some?
  }

  function FailedResource(failure: Answer, resource: string): string
    requires failure.Failure?
  {
    var fallback := if failure.duringInitialization then CORE else resource;
    if failure.headers.Some? then failure.headers.value.resource.GetOr(fallback) else fallback
  }

  /** After question `k`, at which the headers of a failure are reported. */
  ghost function Observed(env: Environment, l: Limits, app: nat, failure: Answer, resource: string, k: nat): Limits
    requires failure.Failure?
  {
    var seen :=
      if ReportsQuota(failure) then
        var h := failure.headers.value;
        l.(states := Reported(l.states, Report(env.now(k), Key(env.scope, app, FailedResource(failure, resource)),
                                               h.remaining.value, h.resetAt)))
      else l;
    Waited(env, seen, k)
  }

  /** With a limit remembered at question `k`: a primary one of the app's resource, a secondary one of the app. */
  ghost function Remembered(env: Environment, l: Limits, app: nat, limit: Limit, resource: string, k: nat): Limits {
    var until := Until(limit, env.now(k));
    if limit.primary
    then l.(states := Reported(l.states, Report(env.now(k), Key(env.scope, app, resource), 0, Some(until))))
    else l.(cooldowns := l.cooldowns[app := Max(CoolingUntil(l.cooldowns, app), until)])
  }

  /** After a try that a rate limit ended: the others, the headers, the limit. */
  ghost function AfterFailure(env: Environment, l: Limits, t: Try, resource: string): Limits
    requires IsLimited(t.answer)
  {
    var seen := Observed(env, Waited(env, l, t.call), t.app, t.answer, resource, t.call + 1);
    Remembered(env, seen, t.app, t.answer.limit.value, FailedResource(t.answer, resource), t.call + 2)
  }

  // ---------------------------------------------------------------- one selection

  /**
   A selection: the apps tried before, where it begins, what is known then, and the app preferred; the app chosen and at
   which question, the apps counted as tried afterwards, and where it ends.
   */
  datatype Selection = Selection(
    tried: set<nat>, from: nat, limits: Limits, preferred: Option<nat>, chosen: Option<nat>, at: nat, after: set<nat>, to: nat)

  /** At question `k` the app had no client, and then no core quota to make one. */
  ghost predicate LacksCore(env: Environment, l: Limits, from: nat, app: nat, k: nat) {
    !env.hasClient(k, app) && !CanUse(env, LimitsAt(env, l, from, k + 1), {}, CORE, k + 1, app)
  }

  ghost predicate Skipped(env: Environment, l: Limits, from: nat, app: nat, end: nat) {
    exists k :: from < k < end && LacksCore(env, l, from, app, k)
  }

  /** Whoever counts as tried without having been so before was skipped. */
  ghost predicate AllSkipped(env: Environment, l: Limits, from: nat, after: set<nat>, tried: set<nat>, end: nat) {
    forall a :: a in after && a !in tried ==> Skipped(env, l, from, a, end)
  }

  /** As far as the limits known at question `k` tell, no app outside `excluded` can make a request for the resource. */
  ghost predicate NobodyLeft(env: Environment, l: Limits, excluded: set<nat>, resource: string, k: nat) {
    forall a: nat :: a < env.appCount ==> !CanUse(env, l, excluded, resource, k, a)
  }

  /** The app is the best one outside `excluded`. */
  ghost predicate IsBestApp(env: Environment, l: Limits, excluded: set<nat>, resource: string, k: nat, offset: nat, app: nat) {
    && app < env.appCount && app !in excluded
    && exists turn: nat :: IsBest(l.states, l.cooldowns, excluded, env.scope, resource, env.now(k), env.appCount, offset, app, turn)
  }

  /**
   The best app that was not tried, with core quota too when its client must be made first. Apps that lack that count as
   tried, and no other ones; nobody is chosen only if nobody is left.
   */
  ghost predicate IsSelection(env: Environment, resource: string, t: Selection) {
    && t.tried <= t.after <= Everyone(env.appCount) && t.from < t.at <= t.to
    && (resource == CORE ==> t.after == t.tried)
    && AllSkipped(env, t.limits, t.from, t.after, t.tried, t.at)
    && t.at > 0 && ChosenWell(env, resource, t.limits, t.from, t.preferred.GetOr(env.offset(t.at - 1)), t.after, t.chosen, t.at, t.to)
  }

  /** The choice itself, by what is known at question `at`, and by the core quota at the next one if there is no client. */
  ghost predicate ChosenWell(env: Environment, resource: string, l: Limits, from: nat, offset: nat, after: set<nat>,
                             chosen: Option<nat>, at: nat, to: nat) {
    var known := LimitsAt(env, l, from, at);
    match chosen
    case None => to == at && NobodyLeft(env, known, after, resource, at)
    case Some(app) =>
      && IsBestApp(env, known, after, resource, at, offset, app)
      && if resource == CORE || env.hasClient(at, app) then to == at
         else to == at + 1 && CanUse(env, LimitsAt(env, l, from, to), {}, CORE, to, app)
  }

  /** Known when the selection ends. */
  ghost function KnownAfter(env: Environment, turn: Selection): Limits {
    LimitsAt(env, turn.limits, turn.from, turn.to)
  }

  // ---------------------------------------------------------------- a whole run

  /** The selections and the tries, in turn. */
  datatype Run = Run(turns: seq<Selection>, tries: seq<Try>)

  /** The try is the chosen app's, right after the selection, and came out as it was answered. */
  ghost predicate IsTry(env: Environment, turn: Selection, t: Try) {
    turn.chosen == Some(t.app) && t.call == turn.to && t.answer == env.answer(t.call, t.app)
  }

  /** The next selection follows a rate limit, with that limit remembered and the app counted as tried. */
  ghost predicate Follows(env: Environment, resource: string, turn: Selection, t: Try, next: Selection) {
    && IsLimited(t.answer)
    && next.from == t.call + 2 && next.tried == turn.after + {t.app} && next.preferred.None?
    && next.limits == AfterFailure(env, KnownAfter(env, turn), t, resource)
  }

  ghost predicate IsRun(env: Environment, resource: string, run: Run) {
    && run.turns != [] && |run.turns| - 1 <= |run.tries| <= |run.turns| && run.turns[0].tried == {}
    && (forall i :: 0 <= i < |run.turns| ==> SelectionAt(env, resource, run, i))
    && (forall i :: 0 <= i < |run.tries| ==> TryAt(env, run, i))
    && (forall i :: 0 < i < |run.turns| ==> FollowsAt(env, resource, run, i))
  }

  ghost predicate SelectionAt(env: Environment, resource: string, run: Run, i: nat) {
    i < |run.turns| && IsSelection(env, resource, run.turns[i])
  }

  ghost predicate TryAt(env: Environment, run: Run, i: nat) {
    i < |run.tries| && i < |run.turns| && IsTry(env, run.turns[i], run.tries[i])
  }

  ghost predicate FollowsAt(env: Environment, resource: string, run: Run, i: nat) {
    0 < i < |run.turns| && i <= |run.tries| && Follows(env, resource, run.turns[i - 1], run.tries[i - 1], run.turns[i])
  }

  /** The run begins with these limits at that question, with that app preferred. */
  ghost predicate StartsWith(run: Run, l: Limits, from: nat, first: Option<nat>) {
    run.turns != [] && run.turns[0].limits == l && run.turns[0].from == from && run.turns[0].preferred == first
  }

  /** What the run has left known, and at which question. */
  ghost function EndOf(env: Environment, resource: string, run: Run): (Limits, nat)
    requires run.turns != [] && |run.tries| <= |run.turns|
  {
    var last := run.turns[|run.turns| - 1];
    var l := KnownAfter(env, last);
    if |run.tries| < |run.turns| then (l, last.to)
    else
      AfterTry(env, resource, l, run.tries[|run.tries| - 1])
  }

  /** What is known after a last try, and at which question. */
  ghost function AfterTry(env: Environment, resource: string, l: Limits, t: Try): (Limits, nat) {
    var waited := Waited(env, l, t.call);
    if t.answer.Success? then (waited, t.call + 1)
    else (Observed(env, waited, t.app, t.answer, resource, t.call + 1), t.call + 2)
  }

  /** The run is over: a try succeeded or failed for another reason than a limit, or nobody was chosen. */
  ghost predicate Ends(run: Run, r: Result) {
    && run.turns != [] && |run.turns| - 1 <= |run.tries| <= |run.turns|
    && if |run.tries| == |run.turns| then
         var last := run.tries[|run.tries| - 1];
         !IsLimited(last.answer) && r == (if last.answer.Success? then Returned(last.app) else Thrown)
       else run.turns[|run.turns| - 1].chosen.None? && r == if run.tries == [] then NoApp else Thrown
  }

  lemma TryFollows(env: Environment, resource: string, run: Run, t: Try)
    requires IsRun(env, resource, run) && |run.tries| == |run.turns| - 1 && IsTry(env, run.turns[|run.tries|], t)
    ensures IsRun(env, resource, run.(tries := run.tries + [t]))
  {
    var more := run.(tries := run.tries + [t]);
    forall i: nat | i < |more.turns| ensures SelectionAt(env, resource, more, i) && TryAt(env, more, i) {
      assert SelectionAt(env, resource, run, i) && (i < |run.tries| ==> TryAt(env, run, i));
    }
    forall i: nat | 0 < i < |more.turns| ensures FollowsAt(env, resource, more, i) {
      assert FollowsAt(env, resource, run, i);
    }
  }

  lemma EndAfterTry(env: Environment, resource: string, run: Run, t: Try)
    requires run.turns != [] && |run.tries| == |run.turns| - 1
    ensures var (l, more) := (EndOf(env, resource, run).0, run.(tries := run.tries + [t]));
            EndOf(env, resource, more) == AfterTry(env, resource, l, t)
  {
  }

  lemma EndAfterTurn(env: Environment, resource: string, run: Run, next: Selection)
    requires run.turns != [] && |run.tries| == |run.turns|
    ensures EndOf(env, resource, run.(turns := run.turns + [next])) == (KnownAfter(env, next), next.to)
  {
  }

  lemma TurnFollows(env: Environment, resource: string, run: Run, next: Selection)
    requires IsRun(env, resource, run) && |run.tries| == |run.turns| && IsSelection(env, resource, next)
    requires Follows(env, resource, run.turns[|run.turns| - 1], run.tries[|run.tries| - 1], next)
    ensures IsRun(env, resource, run.(turns := run.turns + [next]))
  {
    var more := run.(turns := run.turns + [next]);
    forall i: nat | i < |more.turns| ensures SelectionAt(env, resource, more, i) {
      assert i < |run.turns| ==> SelectionAt(env, resource, run, i);
    }
    forall i: nat | i < |more.tries| ensures TryAt(env, more, i) {
      assert TryAt(env, run, i);
    }
    forall i: nat | 0 < i < |more.turns| ensures FollowsAt(env, resource, more, i) {
      assert i < |run.turns| ==> FollowsAt(env, resource, run, i);
    }
  }

  // ---------------------------------------------------------------- what every run keeps

  lemma {:induction false} TriedStayTried(env: Environment, resource: string, run: Run, i: nat, j: nat)
    requires IsRun(env, resource, run) && i < |run.tries| && i < j < |run.turns|
    ensures run.tries[i].app in run.turns[j].tried
  {
    assert FollowsAt(env, resource, run, j);
    assert SelectionAt(env, resource, run, j - 1);
    if i < j - 1 {
      TriedStayTried(env, resource, run, i, j - 1);
    }
  }

  /** No app runs the request twice, so there are no more tries than apps; all but the last were rate limited. */
  lemma EachAppOnce(env: Environment, resource: string, run: Run)
    requires IsRun(env, resource, run)
    ensures Distinct(Apps(run.tries)) && |run.tries| <= env.appCount
    ensures forall i :: 0 <= i < |run.turns| - 1 ==> IsLimited(run.tries[i].answer)
    ensures forall i :: 0 <= i < |run.tries| ==>
              run.tries[i].app < env.appCount && run.tries[i].answer == env.answer(run.tries[i].call, run.tries[i].app)
  {
    forall i: nat, j: nat | i < j < |run.tries| ensures run.tries[i].app != run.tries[j].app {
      TriedStayTried(env, resource, run, i, j);
      assert SelectionAt(env, resource, run, j) && TryAt(env, run, j);
    }
    forall i: nat | i < |run.tries|
      ensures run.tries[i].app < env.appCount && run.tries[i].answer == env.answer(run.tries[i].call, run.tries[i].app)
    {
      assert SelectionAt(env, resource, run, i) && TryAt(env, run, i);
    }
    forall i: nat | i < |run.turns| - 1 ensures IsLimited(run.tries[i].answer) {
      assert FollowsAt(env, resource, run, i + 1);
    }
    DistinctCardinality(Apps(run.tries));
    var apps := set a | a in Apps(run.tries);
    assert apps <= Everyone(env.appCount);
    SubsetCount(apps, Everyone(env.appCount));
  }

  lemma SubsetCount<T>(a: set<T>, b: set<T>)
    requires a <= b
    ensures |a| <= |b|
  {
    assert b == a + (b - a);
  }

  /** In one of the turns up to `j` the app was passed over for lack of core quota. */
  ghost predicate PassedOver(env: Environment, run: Run, app: nat, j: nat)
    requires j < |run.turns|
  {
    exists i :: 0 <= i <= j && Skipped(env, run.turns[i].limits, run.turns[i].from, app, run.turns[i].at)
  }

  /** Whoever counts as tried has tried, or was passed over for lack of core quota. */
  lemma {:induction false} CountedForAReason(env: Environment, resource: string, run: Run, j: nat, app: nat)
    requires IsRun(env, resource, run) && j < |run.turns| && app in run.turns[j].after
    ensures (exists i :: 0 <= i < j && run.tries[i].app == app) || PassedOver(env, run, app, j)
    ensures resource == CORE ==> exists i :: 0 <= i < j && run.tries[i].app == app
  {
    assert SelectionAt(env, resource, run, j);
    if app in run.turns[j].tried {
      assert j > 0;
      assert FollowsAt(env, resource, run, j);
      if app != run.tries[j - 1].app {
        CountedForAReason(env, resource, run, j - 1, app);
      }
    }
  }

  /**
   A rate limit is final only when nobody else is left: every app has tried, or was passed over, having no client and no
   core quota to make one, or cannot make the request by what is known at the end.
   */
  lemma NobodyElseIsLeft(env: Environment, resource: string, run: Run, r: Result, app: nat)
    requires IsRun(env, resource, run) && Ends(run, r) && app < env.appCount
    requires r.NoApp? || (r.Thrown? && IsLimited(run.tries[|run.tries| - 1].answer))
    ensures var (known, k) := EndOf(env, resource, run);
            || (exists i :: 0 <= i < |run.tries| && run.tries[i].app == app)
            || (resource != CORE && PassedOver(env, run, app, |run.turns| - 1))
            || !CanUse(env, known, {}, resource, k, app)
  {
    var j := |run.turns| - 1;
    assert SelectionAt(env, resource, run, j);
    var (known, k) := EndOf(env, resource, run);
    if app in run.turns[j].after {
      CountedForAReason(env, resource, run, j, app);
    } else {
      assert !CanUse(env, known, run.turns[j].after, resource, k, app);
    }
  }

  /**
   The limit reported at question `k` still counts at question `end`: the app cools down, or is spent for the resource,
   provided the clock is past its first minute and the others report on it only before the limit ends.
   */
  ghost predicate LimitIsKept(env: Environment, l: Limits, app: nat, resource: string, limit: Limit, k: nat, end: nat) {
    var until, key := Until(limit, env.now(k)), Key(env.scope, app, resource);
    if !limit.primary then CoolingUntil(l.cooldowns, app) >= until
    else
      env.now(k) >= OBSERVATION_LIFETIME_MS && (forall r :: r in Heard(env, k, end) && r.key == key ==> r.now < until) ==>
        SpentUntil(l.states, key, until)
  }

  /** It goes on counting through reports by the others, and through reports on other apps. */
  lemma LimitStaysKept(env: Environment, l: Limits, app: nat, resource: string, limit: Limit, k: nat, end: nat,
                       reports: seq<Report>, later: Limits, at: nat)
    requires LimitIsKept(env, l, app, resource, limit, k, end) && k <= end <= at
    requires later.states == AllReported(l.states, reports)
    requires CoolingUntil(later.cooldowns, app) >= CoolingUntil(l.cooldowns, app)
    requires forall r :: r in reports && r.key.app == app ==> r in Heard(env, end, at)
    ensures LimitIsKept(env, later, app, resource, limit, k, at)
  {
    HeardLonger(env, k, end, at);
    var until, key := Until(limit, env.now(k)), Key(env.scope, app, resource);
    if limit.primary && SpentUntil(l.states, key, until)
       && (forall r :: r in Heard(env, k, at) && r.key == key ==> r.now < until) {
      forall i | 0 <= i < |reports| && reports[i].key == key ensures reports[i].now < until {
        assert reports[i] in Heard(env, k, at);
      }
      ExhaustionOutlastsReports(l.states, key, until, reports);
    }
  }

  lemma KeptInSelection(env: Environment, l: Limits, app: nat, resource: string, limit: Limit, k: nat, from: nat, to: nat)
    requires LimitIsKept(env, l, app, resource, limit, k, from) && k <= from <= to
    ensures LimitIsKept(env, LimitsAt(env, l, from, to), app, resource, limit, k, to)
  {
    LimitStaysKept(env, l, app, resource, limit, k, from, Heard(env, from, to), LimitsAt(env, l, from, to), to);
  }

  lemma KeptWhileWaiting(env: Environment, l: Limits, app: nat, resource: string, limit: Limit, k: nat, end: nat)
    requires LimitIsKept(env, l, app, resource, limit, k, end) && k <= end
    ensures LimitIsKept(env, Waited(env, l, end), app, resource, limit, k, end + 1)
  {
    assert Heard(env, end, end + 1) == env.others(end);
    LimitStaysKept(env, l, app, resource, limit, k, end, env.others(end), Waited(env, l, end), end + 1);
  }

  lemma KeptThroughReport(env: Environment, l: Limits, app: nat, resource: string, limit: Limit, k: nat, end: nat, r: Report)
    requires LimitIsKept(env, l, app, resource, limit, k, end) && k <= end && r.key.app != app
    ensures LimitIsKept(env, l.(states := Reported(l.states, r)), app, resource, limit, k, end)
  {
    assert AllReported(l.states, [r][..0]) == l.states;
    LimitStaysKept(env, l, app, resource, limit, k, end, [r], l.(states := Reported(l.states, r)), end);
  }

  lemma KeptWhenObserved(env: Environment, l: Limits, app: nat, resource: string, limit: Limit, k: nat, end: nat,
                         other: nat, failure: Answer, asked: string)
    requires LimitIsKept(env, l, app, resource, limit, k, end) && k <= end && other != app && failure.Failure?
    ensures LimitIsKept(env, Observed(env, l, other, failure, asked, end), app, resource, limit, k, end + 1)
  {
    if ReportsQuota(failure) {
      var h := failure.headers.value;
      var report := Report(env.now(end), Key(env.scope, other, FailedResource(failure, asked)), h.remaining.value, h.resetAt);
      KeptThroughReport(env, l, app, resource, limit, k, end, report);
      KeptWhileWaiting(env, l.(states := Reported(l.states, report)), app, resource, limit, k, end);
    } else {
      KeptWhileWaiting(env, l, app, resource, limit, k, end);
    }
  }

  lemma KeptWhenRemembered(env: Environment, l: Limits, app: nat, resource: string, limit: Limit, k: nat, end: nat,
                           other: nat, next: Limit, asked: string)
    requires LimitIsKept(env, l, app, resource, limit, k, end) && k <= end && other != app
    ensures LimitIsKept(env, Remembered(env, l, other, next, asked, end), app, resource, limit, k, end)
  {
    if next.primary {
      KeptThroughReport(env, l, app, resource, limit, k, end,
                        Report(env.now(end), Key(env.scope, other, asked), 0, Some(Until(next, env.now(end)))));
    }
  }

  lemma RememberedIsKept(env: Environment, l: Limits, app: nat, limit: Limit, resource: string, k: nat)
    ensures LimitIsKept(env, Remembered(env, l, app, limit, resource, k), app, resource, limit, k, k)
  {
    if limit.primary {
      ExhaustionIsRememberedIfLate(
        l.states, Report(env.now(k), Key(env.scope, app, resource), 0, Some(Until(limit, env.now(k)))));
    }
  }

  /** The limit that ended the try counts at question `end`. */
  ghost predicate IsKept(env: Environment, resource: string, t: Try, l: Limits, end: nat) {
    && IsLimited(t.answer) && t.call + 2 <= end
    && LimitIsKept(env, l, t.app, FailedResource(t.answer, resource), t.answer.limit.value, t.call + 2, end)
  }

  lemma KeptFromTheStart(env: Environment, resource: string, before: Selection, t: Try, turn: Selection)
    requires Follows(env, resource, before, t, turn) && turn.from <= turn.to
    ensures IsKept(env, resource, t, KnownAfter(env, turn), turn.to)
  {
    var asked, limit, k := FailedResource(t.answer, resource), t.answer.limit.value, t.call + 2;
    var seen := Observed(env, Waited(env, KnownAfter(env, before), t.call), t.app, t.answer, resource, t.call + 1);
    RememberedIsKept(env, seen, t.app, limit, asked, k);
    KeptInSelection(env, turn.limits, t.app, asked, limit, k, turn.from, turn.to);
  }

  lemma KeptFurther(env: Environment, resource: string, t: Try, before: Selection, last: Try, turn: Selection)
    requires IsKept(env, resource, t, KnownAfter(env, before), before.to) && IsTry(env, before, last) && last.app != t.app
    requires Follows(env, resource, before, last, turn) && turn.from <= turn.to
    ensures IsKept(env, resource, t, KnownAfter(env, turn), turn.to)
  {
    var asked, limit, k := FailedResource(t.answer, resource), t.answer.limit.value, t.call + 2;
    KeptThroughTry(env, KnownAfter(env, before), t.app, asked, limit, k, last, resource);
    KeptInSelection(env, turn.limits, t.app, asked, limit, k, turn.from, turn.to);
  }

  /** The limit that ended try `i` counts at the end of every later selection. */
  lemma {:induction false} KeptUpTo(env: Environment, resource: string, run: Run, i: nat, j: nat)
    requires IsRun(env, resource, run) && i < j < |run.turns| && IsLimited(run.tries[i].answer)
    ensures IsKept(env, resource, run.tries[i], KnownAfter(env, run.turns[j]), run.turns[j].to)
  {
    assert FollowsAt(env, resource, run, j) && TryAt(env, run, j - 1);
    EndsLater(env, resource, run, j);
    if i == j - 1 {
      KeptFromTheStart(env, resource, run.turns[i], run.tries[i], run.turns[j]);
    } else {
      KeptUpTo(env, resource, run, i, j - 1);
      OtherApps(env, resource, run, i, j - 1);
      KeptFurther(env, resource, run.tries[i], run.turns[j - 1], run.tries[j - 1], run.turns[j]);
    }
  }

  lemma EndsLater(env: Environment, resource: string, run: Run, j: nat)
    requires IsRun(env, resource, run) && j < |run.turns|
    ensures run.turns[j].from <= run.turns[j].to
  {
    assert SelectionAt(env, resource, run, j);
  }

  lemma OtherApps(env: Environment, resource: string, run: Run, i: nat, j: nat)
    requires IsRun(env, resource, run) && i < j < |run.tries|
    ensures run.tries[i].app != run.tries[j].app
  {
    EachAppOnce(env, resource, run);
    assert Apps(run.tries)[i] != Apps(run.tries)[j];
  }

  lemma KeptThroughTry(env: Environment, l: Limits, app: nat, resource: string, limit: Limit, k: nat, t: Try, asked: string)
    requires LimitIsKept(env, l, app, resource, limit, k, t.call) && k <= t.call && t.app != app && IsLimited(t.answer)
    ensures LimitIsKept(env, AfterFailure(env, l, t, asked), app, resource, limit, k, t.call + 2)
  {
    var waited := Waited(env, l, t.call);
    KeptWhileWaiting(env, l, app, resource, limit, k, t.call);
    KeptWhenObserved(env, waited, app, resource, limit, k, t.call + 1, t.app, t.answer, asked);
    KeptWhenRemembered(env, Observed(env, waited, t.app, t.answer, asked, t.call + 1), app, resource, limit, k, t.call + 2,
                       t.app, t.answer.limit.value, FailedResource(t.answer, asked));
  }

  /**
   At time `t` a limit told at time `now` lasts: the deadline GitHub names, the reset of the quota or the time to retry, is
   not yet a second past; without a deadline ahead, a minute has not gone by.
   */
  ghost predicate Lasts(limit: Limit, now: int, t: int) {
    var told := if limit.primary then limit.resetAt else limit.retryAt;
    match told
    case Some(deadline) => if deadline > now then t < deadline + 1000 else t < now + 60000
    case None => t < now + 60000
  }

  lemma LastsUntil(limit: Limit, now: int, t: int)
    ensures Lasts(limit, now, t) <==> t < Until(limit, now)
  {
  }

  /** The limits known tell that the app cannot make a request for the resource at that time. */
  ghost predicate Barred(env: Environment, l: Limits, app: nat, resource: string, t: int) {
    !Eligible(l.states, l.cooldowns, {}, env.scope, resource, t, app)
  }

  /** While the limit lasts the app is barred: from the resource, or, if the limit is one of pace, from everything. */
  ghost predicate BarsTheApp(env: Environment, l: Limits, app: nat, resource: string, limit: Limit, now: int) {
    forall t, x :: 0 <= t && Lasts(limit, now, t) && (limit.primary ==> x == resource) ==> Barred(env, l, app, x, t)
  }

  /** What others report on the resource, they report while the limit lasts; the clock is past its first minute. */
  ghost predicate HeardInTime(env: Environment, app: nat, resource: string, limit: Limit, k: nat, end: nat) {
    && env.now(k) >= 60000
    && forall r :: r in Heard(env, k, end) && r.key == Key(env.scope, app, resource) ==> Lasts(limit, env.now(k), r.now)
  }

  lemma KeptBars(env: Environment, l: Limits, app: nat, resource: string, limit: Limit, k: nat, end: nat)
    requires LimitIsKept(env, l, app, resource, limit, k, end)
    requires limit.primary ==> HeardInTime(env, app, resource, limit, k, end)
    ensures BarsTheApp(env, l, app, resource, limit, env.now(k))
  {
    forall t, x | 0 <= t && Lasts(limit, env.now(k), t) && (limit.primary ==> x == resource) ensures Barred(env, l, app, x, t) {
      LastsUntil(limit, env.now(k), t);
      if limit.primary {
        forall r | r in Heard(env, k, end) && r.key == Key(env.scope, app, resource) ensures r.now < Until(limit, env.now(k)) {
          LastsUntil(limit, env.now(k), r.now);
        }
        SpentMeansNoBudget(l.states, Key(env.scope, app, resource), Until(limit, env.now(k)), t);
      }
    }
  }

  /** Right after it was told, and if nothing else was known against the app, it is barred exactly while the limit lasts. */
  lemma BarredExactlyWhileItLasts(env: Environment, l: Limits, app: nat, limit: Limit, resource: string, k: nat, t: int)
    requires Key(env.scope, app, resource) !in l.states && CoolingUntil(l.cooldowns, app) <= env.now(k) <= t
    requires env.now(k) >= 60000
    ensures Barred(env, Remembered(env, l, app, limit, resource, k), app, resource, t) <==> Lasts(limit, env.now(k), t)
    ensures forall x :: limit.primary && x != resource && Key(env.scope, app, x) !in l.states ==>
              !Barred(env, Remembered(env, l, app, limit, resource, k), app, x, t)
  {
    LastsUntil(limit, env.now(k), t);
    if limit.primary {
      var key, until := Key(env.scope, app, resource), Until(limit, env.now(k));
      var states := Remembered(env, l, app, limit, resource, k).states;
      assert states == l.states[key := RateLimitState(0, Some(until), Some(env.now(k)))];
      if t < until {
        SpentMeansNoBudget(states, key, until, t);
      }
    }
  }

  /** The resource that a limit is for: the one the response names, else core during initialization, else the one asked for. */
  ghost predicate IsFor(failure: Answer, asked: string, resource: string) {
    && failure.Failure?
    && if failure.headers.Some? && failure.headers.value.resource.Some? then resource == failure.headers.value.resource.value
       else if failure.duringInitialization then resource == "core" else resource == asked
  }

  /**
   Every limit a finished request has run into counts at its end: the app is barred while it lasts, whatever the others
   reported in the meantime and whatever later tries ran into.
   */
  lemma LimitsAreKept(env: Environment, asked: string, run: Run, r: Result, i: nat, resource: string)
    requires IsRun(env, asked, run) && Ends(run, r) && i < |run.tries| && IsLimited(run.tries[i].answer)
    requires IsFor(run.tries[i].answer, asked, resource)
    ensures var ((known, k), t) := (EndOf(env, asked, run), run.tries[i]);
            (t.answer.limit.value.primary ==> HeardInTime(env, t.app, resource, t.answer.limit.value, t.call + 2, k)) ==>
              BarsTheApp(env, known, t.app, resource, t.answer.limit.value, env.now(t.call + 2))
  {
    KeptToItsEnd(env, asked, run, r, i);
    var ((known, k), t) := (EndOf(env, asked, run), run.tries[i]);
    if t.answer.limit.value.primary ==> HeardInTime(env, t.app, resource, t.answer.limit.value, t.call + 2, k) {
      KeptBars(env, known, t.app, resource, t.answer.limit.value, t.call + 2, k);
    }
  }

  lemma KeptToItsEnd(env: Environment, resource: string, run: Run, r: Result, i: nat)
    requires IsRun(env, resource, run) && Ends(run, r) && i < |run.tries| && IsLimited(run.tries[i].answer)
    ensures var (known, k) := EndOf(env, resource, run); IsKept(env, resource, run.tries[i], known, k)
  {
    var j := |run.turns| - 1;
    KeptUpTo(env, resource, run, i, j);
    if |run.tries| == |run.turns| {
      assert TryAt(env, run, j);
      OtherApps(env, resource, run, i, j);
      KeptToTheEnd(env, resource, run.tries[i], KnownAfter(env, run.turns[j]), run.tries[j]);
    }
  }

  lemma KeptToTheEnd(env: Environment, resource: string, t: Try, l: Limits, last: Try)
    requires IsKept(env, resource, t, l, last.call) && last.app != t.app
    ensures var (known, k) := AfterTry(env, resource, l, last); IsKept(env, resource, t, known, k)
  {
    var asked, limit, k := FailedResource(t.answer, resource), t.answer.limit.value, t.call + 2;
    KeptWhileWaiting(env, l, t.app, asked, limit, k, last.call);
    if last.answer.Failure? {
      KeptWhenObserved(env, Waited(env, l, last.call), t.app, asked, limit, k, last.call + 1, last.app, last.answer, resource);
    }
  }

  lemma {:induction false} HeardLonger(env: Environment, from: nat, end: nat, later: nat)
    requires from <= end <= later
    ensures Heard(env, from, later) == Heard(env, from, end) + Heard(env, end, later)
  {
    if end < later {
      HeardLonger(env, from, end, later - 1);
    } else {
      assert Heard(env, end, later) == [];
    }
  }

  class Failover {
    const env: Environment
    const limits: RateLimits
    var step: nat

    constructor (env: Environment, limits: RateLimits)
      ensures this.env == env && this.limits == limits
    {
      this.env, this.limits, step := env, limits, 0;
    }

    ghost function Known(): Limits
      reads this, limits
    {
      Limits(limits.states, limits.cooldowns)
    }

    /** While the request waits, others report what they saw. */
    method LetOthersReport()
      modifies this`step, limits`states
      ensures step == old(step) + 1
      ensures Known() == Waited(env, old(Known()), old(step))
    {
      var reports := env.others(step);
      step := step + 1;
      for k := 0 to |reports|
        invariant step == old(step) + 1
        invariant limits.states == AllReported(old(limits.states), reports[..k])
      {
        limits.ReportAppRateLimit(reports[k]);
        assert reports[..k + 1][..k] == reports[..k];
      }
      assert reports[..|reports|] == reports;
    }

    /** The best app by what is known after the others have reported, all they said since `from` included. */
    method Choose(excluded: set<nat>, resource: string, offset: nat, ghost l: Limits, ghost from: nat)
      returns (app: Option<nat>)
      requires from <= step && Known() == LimitsAt(env, l, from, step)
      modifies this`step, limits`states
      ensures step == old(step) + 1 && Known() == LimitsAt(env, l, from, step)
      ensures match app
              case None => NobodyLeft(env, Known(), excluded, resource, step)
              case Some(a) =>
                IsBestApp(env, Known(), excluded, resource, step, offset, a) && CanUse(env, Known(), excluded, resource, step, a)
    {
      HeardNext(env, l.states, from, step);
      LetOthersReport();
      ghost var turn;
      app, turn := limits.SelectAppIndex(env.appCount, excluded, env.scope, resource, offset, env.now(step));
    }

    /**
     An app that has not been tried, with quota for the resource, and with core quota too when its
     client must be created first. Apps that fail the second condition count as tried.
     */
    method Select(tried: set<nat>, resource: string, preferred: Option<nat>)
      returns (app: Option<nat>, after: set<nat>, ghost t: Selection)
      requires tried <= Everyone(env.appCount)
      modifies this`step, limits`states
      ensures IsSelection(env, resource, t) && Known() == LimitsAt(env, t.limits, t.from, t.to)
      ensures t.tried == tried && t.from == old(step) && t.limits == old(Known()) && t.preferred == preferred
      ensures t.chosen == app && t.after == after && t.to == step
    {
      after := tried;
      ghost var l, from := Known(), step;
      var everyone := Everyone(env.appCount);
      while true
        invariant tried <= after <= everyone && (resource == CORE ==> after == tried)
        invariant step >= from && Known() == LimitsAt(env, l, from, step)
        invariant AllSkipped(env, l, from, after, tried, step)
        decreases everyone - after
      {
        var usable;
        ghost var at;
        app, usable, at := ChooseUsable(after, resource, preferred, l, from);
        SkippedBefore(env, l, from, after, tried, at - 1, at);
        if usable {
          t := Selection(tried, from, l, preferred, app, at, after, step);
          return;
        }
        OneMoreSkipped(env, l, from, after, tried, at, step, app.value);
        assert app.value in everyone - after;
        after := after + {app.value};
      }
    }

    /** The best app, and whether it can be used: it has a client, needs no other quota, or has core quota to make one. */
    method ChooseUsable(after: set<nat>, resource: string, preferred: Option<nat>, ghost l: Limits, ghost from: nat)
      returns (app: Option<nat>, usable: bool, ghost at: nat)
      requires from <= step && Known() == LimitsAt(env, l, from, step)
      modifies this`step, limits`states
      ensures at == old(step) + 1 && at <= step && Known() == LimitsAt(env, l, from, step)
      ensures usable ==>
                ChosenWell(env, resource, l, from, preferred.GetOr(env.offset(old(step))), after, app, at, step)
      ensures !usable ==>
                && app.Some? && app.value < env.appCount && app.value !in after && resource != CORE
                && step == at + 1 && LacksCore(env, l, from, app.value, at)
    {
      app := Choose(after, resource, preferred.GetOr(env.offset(step)), l, from);
      at := step;
      if app.None? || resource == CORE || env.hasClient(step, app.value) {
        usable := true;
        return;
      }
      usable := HasCoreQuota(app.value, l, from);
    }

    /** Asks for the best app for core with all the others excluded. */
    method HasCoreQuota(app: nat, ghost l: Limits, ghost from: nat) returns (ok: bool)
      requires app < env.appCount && from <= step && Known() == LimitsAt(env, l, from, step)
      modifies this`step, limits`states
      ensures step == old(step) + 1 && Known() == LimitsAt(env, l, from, step)
      ensures ok <==> CanUse(env, Known(), {}, CORE, step, app)
    {
      var others := Everyone(env.appCount) - {app};
      var core := Choose(others, CORE, app, l, from);
      ok := core.Some?;
      assert CanUse(env, Known(), others, CORE, step, app) <==> CanUse(env, Known(), {}, CORE, step, app);
    }

    /** Remembers what a failure says about the app's limits. */
    method Observe(app: nat, failure: Answer, resource: string)
      requires failure.Failure?
      modifies this`step, limits`states
      ensures step == old(step) + 1
      ensures Known() == Observed(env, old(Known()), app, failure, resource, old(step))
    {
      var fallback := if failure.duringInitialization then CORE else resource;
      if failure.headers.Some? && failure.headers.value.remaining.Some? {
        var h := failure.headers.value;
        limits.ReportAppRateLimit(
          Report(env.now(step), Key(env.scope, app, h.resource.GetOr(fallback)), h.remaining.value, h.resetAt));
      }
      LetOthersReport();
    }

    /** A primary limit belongs to the resource, a secondary one to the app. */
    method RememberLimit(app: nat, limit: Limit, resource: string)
      modifies limits
      ensures Known() == Remembered(env, old(Known()), app, limit, resource, step)
      ensures LimitIsKept(env, Known(), app, resource, limit, step, step)
      ensures env.now(step) >= 60000 || !limit.primary ==> BarsTheApp(env, Known(), app, resource, limit, env.now(step))
    {
      var until := Until(limit, env.now(step));
      if limit.primary {
        var report := Report(env.now(step), Key(env.scope, app, resource), 0, Some(until));
        ExhaustionIsRememberedIfLate(limits.states, report);
        limits.ReportAppRateLimit(report);
      } else {
        limits.ReportAppSecondaryRateLimit(app, until);
      }
      if env.now(step) >= 60000 || !limit.primary {
        KeptBars(env, Known(), app, resource, limit, step, step);
      }
    }

    /**
     Runs the request until an app succeeds, one fails for another reason than a limit, or nobody is left: a run from what
     is known, and it ends.
     */
    method Attempt(first: Option<nat>, resource: string) returns (r: Result, ghost run: Run)
      modifies this`step, limits
      ensures IsRun(env, resource, run) && StartsWith(run, old(Known()), old(step), first) && Ends(run, r)
      ensures (Known(), step) == EndOf(env, resource, run)
    {
      ghost var t;
      var index, tried;
      index, tried, t := Select({}, resource, first);
      run := Run([t], []);
      if index.None? {
        return NoApp, run;
      }
      var app: nat := index.value;
      var end: Option<Result> := None;
      while end.None?
        invariant IsRun(env, resource, run) && StartsWith(run, old(Known()), old(step), first)
        invariant (Known(), step) == EndOf(env, resource, run)
        invariant if end.Some? then Ends(run, end.value) else Continues(env, run, app, tried)
        decreases end.None?, Everyone(env.appCount) - tried
      {
        end, app, tried, run := TryOnce(app, tried, resource, run);
      }
      r := end.value;
    }

    /** One turn of the loop: the request runs with the app, and a rate limit is remembered and passed on to another one. */
    method TryOnce(app: nat, tried: set<nat>, resource: string, ghost run: Run)
      returns (end: Option<Result>, next: nat, after: set<nat>, ghost now: Run)
      requires IsRun(env, resource, run) && (Known(), step) == EndOf(env, resource, run) && Continues(env, run, app, tried)
      modifies this`step, limits
      ensures IsRun(env, resource, now) && (Known(), step) == EndOf(env, resource, now)
      ensures now.turns[0] == run.turns[0] && tried < after <= Everyone(env.appCount)
      ensures if end.Some? then Ends(now, end.value) else Continues(env, now, next, after)
    {
      after, next := tried + {app}, app;
      var answer := env.answer(step, app);
      ghost var t := Try(step, app, answer);
      TryFollows(env, resource, run, t);
      EndAfterTry(env, resource, run, t);
      now := run.(tries := run.tries + [t]);
      LetOthersReport();
      if answer.Success? {
        return Some(Returned(app)), next, after, now;
      }
      end, next, after, now := GoOn(app, answer, after, resource, now);
    }

    /** What follows a failure: the end of the run, or the next selection. */
    method GoOn(app: nat, failure: Answer, tried: set<nat>, resource: string, ghost run: Run)
      returns (end: Option<Result>, next: nat, after: set<nat>, ghost now: Run)
      requires IsRun(env, resource, run) && |run.tries| == |run.turns| && tried <= Everyone(env.appCount)
      requires var (turn, t) := (run.turns[|run.turns| - 1], run.tries[|run.tries| - 1]);
               && t.app == app && t.answer == failure && failure.Failure? && tried == turn.after + {app}
               && Known() == Waited(env, KnownAfter(env, turn), t.call) && step == t.call + 1
      modifies this`step, limits
      ensures IsRun(env, resource, now) && (Known(), step) == EndOf(env, resource, now)
      ensures now.turns[0] == run.turns[0] && tried <= after <= Everyone(env.appCount)
      ensures if end.Some? then Ends(now, end.value) else Continues(env, now, next, after)
    {
      end, next, after, now := Some(Thrown), app, tried, run;
      Observe(app, failure, resource);
      if failure.limit.None? {
        return;
      }
      var other;
      ghost var turn;
      other, after, turn := Recover(app, failure, tried, resource);
      TurnFollows(env, resource, run, turn);
      EndAfterTurn(env, resource, run, turn);
      now := run.(turns := run.turns + [turn]);
      if other.Some? {
        end, next := None, other.value;
      }
    }

    /** After a rate limit: the limit is remembered, and the app to go on with selected, if anybody is left. */
    method Recover(app: nat, failure: Answer, tried: set<nat>, resource: string)
      returns (next: Option<nat>, after: set<nat>, ghost t: Selection)
      requires IsLimited(failure) && tried <= Everyone(env.appCount)
      modifies this`step, limits
      ensures IsSelection(env, resource, t) && Known() == LimitsAt(env, t.limits, t.from, t.to)
      ensures t.tried == tried && t.from == old(step) && t.preferred.None?
      ensures t.limits == Remembered(env, old(Known()), app, failure.limit.value, FailedResource(failure, resource), old(step))
      ensures t.chosen == next && t.after == after && t.to == step
    {
      RememberLimit(app, failure.limit.value, FailedResource(failure, resource));
      next, after, t := Select(tried, resource, None);
    }
  }

  /** The app to go on with was chosen, and these count as tried. */
  ghost predicate Continues(env: Environment, run: Run, app: nat, tried: set<nat>) {
    && |run.tries| + 1 == |run.turns| && tried <= Everyone(env.appCount) && app in Everyone(env.appCount) && app !in tried
    && run.turns[|run.tries|].chosen == Some(app) && run.turns[|run.tries|].after == tried
  }

  lemma SkippedBefore(env: Environment, l: Limits, from: nat, after: set<nat>, tried: set<nat>, end: nat, later: nat)
    requires end <= later && AllSkipped(env, l, from, after, tried, end)
    ensures AllSkipped(env, l, from, after, tried, later)
  {
    forall a | a in after && a !in tried ensures Skipped(env, l, from, a, later) {
      var k :| from < k < end && LacksCore(env, l, from, a, k);
      assert from < k < later && LacksCore(env, l, from, a, k);
    }
  }

  lemma OneMoreSkipped(env: Environment, l: Limits, from: nat, after: set<nat>, tried: set<nat>, at: nat, later: nat, app: nat)
    requires AllSkipped(env, l, from, after, tried, at) && from < at < later && LacksCore(env, l, from, app, at)
    ensures AllSkipped(env, l, from, after + {app}, tried, later)
  {
    SkippedBefore(env, l, from, after, tried, at, later);
  }

  lemma ExhaustionIsRememberedIfLate(states: States, r: Report)
    requires r.remaining == 0 && r.resetAt.Some? && r.resetAt.value > r.now
    ensures r.now >= OBSERVATION_LIFETIME_MS ==> SpentUntil(Reported(states, r), r.key, r.resetAt.value)
  {
    if r.now >= OBSERVATION_LIFETIME_MS {
      ExhaustionIsRemembered(states, r);
    }
  }
}
