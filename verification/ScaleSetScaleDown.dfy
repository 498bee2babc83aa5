/** Which runners may be removed, in which order, and what the attempts to remove them amount to. */
module ScaleSetScaleDown {
  import opened Prelude
  import opened StableSort
  import opened RunnerStates
  import opened ReconcileState
  import opened ScaleSetInventory

  /** It is not known to have taken a job, and is called not busy, or it has completed and is called neither. */
  ghost predicate SaysIdle(s: RunnerState) {
    s.lifecycle != Started && s.busy != Some(true) && (s.busy == None ==> s.lifecycle == Completed)
  }

  /** The runner's only observation says that it is idle, or nobody observes it and no runner at all is busy. */
  ghost predicate Removable(env: Environment, request: Request, r: OwnedRunner) {
    || (exists s :: Observed(request.runnerStates, env.scaleSetId, r, s) && SaysIdle(s))
    || (&& r.githubRunnerId != None && r.runnerName != None && request.busyRunners == 0
        && !HasName(request.runnerStates, env.scaleSetId, r.runnerName.value))
  }

  datatype Candidate = Candidate(runner: OwnedRunner, githubState: RunnerState)

  /** The candidate is asked to be removed under its runner's own name and id. */
  ghost predicate Identifies(env: Environment, c: Candidate) {
    && c.runner.runnerName == Some(c.githubState.runnerName)
    && c.runner.githubRunnerId == Some(c.githubState.runnerId)
    && c.githubState.scaleSetId == env.scaleSetId
  }

  datatype Verdict = Superfluous(candidate: Candidate) | Busy | Unclear

  function Consider(env: Environment, request: Request, index: Index, r: OwnedRunner): Verdict {
    var githubState := MatchingRunnerState(r, index, env.scaleSetId);
    if githubState.None? then
      var contradicted := r.runnerName.Some? && r.runnerName.value in index.byName;
      if !contradicted && request.busyRunners == 0 && HasIdentity(r) then
        Superfluous(Candidate(r, RunnerState(
          r.githubRunnerId.value, r.runnerName.value, env.scaleSetId, UnknownStatus, Some(false), UnknownLifecycle)))
      else Unclear
    else if IsBusyState(githubState.value) then Busy
    else if IsSafeScaleDownState(githubState.value) then Superfluous(Candidate(r, githubState.value))
    else Unclear
  }

  ghost predicate KnownBusy(env: Environment, request: Request, r: OwnedRunner) {
    exists s :: Observed(request.runnerStates, env.scaleSetId, r, s) && (s.lifecycle == Started || s.busy == Some(true))
  }

  lemma SaysIdleExactly(s: RunnerState)
    ensures SaysIdle(s) <==> !IsBusyState(s) && IsSafeScaleDownState(s)
  {
    if s.busy.Some? {
      assert s.busy.value || !s.busy.value;
    }
  }

  /** The verdict on a runner is about that runner, and is exactly what the observations allow. */
  lemma VerdictIsRight(env: Environment, request: Request, index: Index, r: OwnedRunner)
    requires IsIndex(request.runnerStates, env.scaleSetId, index)
    ensures var v := Consider(env, request, index, r);
            && (v.Superfluous? <==> Removable(env, request, r))
            && (v.Superfluous? ==> v.candidate.runner == r && Identifies(env, v.candidate))
            && (v.Busy? <==> KnownBusy(env, request, r))
  {
    var m := MatchingRunnerState(r, index, env.scaleSetId);
    if m.Some? {
      MatchIsUnambiguous(request.runnerStates, env.scaleSetId, index, r, m.value);
      OneObservation(request.runnerStates, env.scaleSetId, r, m.value);
      SaysIdleExactly(m.value);
    } else {
      forall s ensures !Observed(request.runnerStates, env.scaleSetId, r, s) {
        MatchIsUnambiguous(request.runnerStates, env.scaleSetId, index, r, s);
      }
    }
  }

  lemma OneObservation(states: seq<RunnerState>, scaleSetId: int, r: OwnedRunner, s: RunnerState)
    requires Observed(states, scaleSetId, r, s)
    ensures forall t :: Observed(states, scaleSetId, r, t) ==> t == s
    ensures HasName(states, scaleSetId, r.runnerName.value)
  {
    var i :| OnlyObservation(states, scaleSetId, r, i) && states[i] == s;
    assert Named(states, scaleSetId, i, r.runnerName.value);
  }

  /** The superfluous runners, how many are busy, and the instances about which nothing is clear. */
  datatype Selection = Selection(candidates: seq<Candidate>, busy: nat, unclear: set<InstanceId>)

  function Select(env: Environment, request: Request, index: Index, runners: seq<OwnedRunner>): Selection {
    if runners == [] then Selection([], 0, {})
    else
      var last := runners[|runners| - 1];
      var s := Select(env, request, index, runners[..|runners| - 1]);
      match Consider(env, request, index, last)
      case Superfluous(c) => s.(candidates := s.candidates + [c])
      case Busy => s.(busy := s.busy + 1)
      case Unclear => s.(unclear := s.unclear + {last.instanceId})
  }

  ghost function BusyCount(env: Environment, request: Request, runners: seq<OwnedRunner>): nat {
    if runners == [] then 0
    else
      BusyCount(env, request, runners[..|runners| - 1])
      + (if KnownBusy(env, request, runners[|runners| - 1]) then 1 else 0)
  }

  /** Whoever is neither removable nor known to be busy is retained. */
  ghost predicate OthersAreRetained(env: Environment, request: Request, runners: seq<OwnedRunner>, retained: set<InstanceId>) {
    forall r :: r in runners && !Removable(env, request, r) && !KnownBusy(env, request, r) ==> r.instanceId in retained
  }

  /** Selecting counts the busy and retains the unclear. */
  ghost function Selected(was: View, s: Selection): View {
    var now := was.Retaining(s.unclear);
    now.(actions := now.actions.(retainedBusy := was.actions.retainedBusy + s.busy))
  }

  lemma SelectedStep(was: View, s: Selection, id: InstanceId)
    ensures Selected(was, s).Retaining({id}) == Selected(was, s.(unclear := s.unclear + {id}))
  {
    assert was.retained + s.unclear + {id} == was.retained + (s.unclear + {id});
  }

  /** The candidates are exactly the removable runners, under their own names and ids. */
  lemma {:induction false} CandidatesAreRemovable(
    env: Environment, request: Request, index: Index, runners: seq<OwnedRunner>)
    requires IsIndex(request.runnerStates, env.scaleSetId, index)
    ensures var s := Select(env, request, index, runners);
            && (forall c :: c in s.candidates ==> c.runner in runners && Removable(env, request, c.runner) && Identifies(env, c))
            && (forall r :: r in runners && Removable(env, request, r) ==> exists c :: c in s.candidates && c.runner == r)
            && s.busy == BusyCount(env, request, runners)
            && OthersAreRetained(env, request, runners, s.unclear)
  {
    if runners != [] {
      var k := |runners| - 1;
      CandidatesAreRemovable(env, request, index, runners[..k]);
      VerdictIsRight(env, request, index, runners[k]);
      var before, now := Select(env, request, index, runners[..k]), Select(env, request, index, runners);
      assert runners == runners[..k] + [runners[k]];
      forall r | r in runners && Removable(env, request, r) ensures exists c :: c in now.candidates && c.runner == r {
        if r in runners[..k] {
          var c :| c in before.candidates && c.runner == r;
          assert c in now.candidates;
        } else {
          assert Consider(env, request, index, r).candidate in now.candidates;
        }
      }
    }
  }

  lemma {:induction false} SelectionIsBounded(env: Environment, request: Request, index: Index, runners: seq<OwnedRunner>)
    ensures var s := Select(env, request, index, runners);
            && |s.candidates| + s.busy <= |runners|
            && (forall c :: c in s.candidates ==>
                  c.runner in runners && c.runner.runnerName == Some(c.githubState.runnerName))
            && (forall id :: id in s.unclear ==> exists r :: r in runners && r.instanceId == id)
  {
    if runners != [] {
      var k := |runners| - 1;
      SelectionIsBounded(env, request, index, runners[..k]);
      assert runners == runners[..k] + [runners[k]];
      assert runners[k] in runners;
    }
  }

  lemma OrderKeepsLength(env: Environment, candidates: seq<Candidate>)
    ensures |RemovalOrder(env, candidates)| == |candidates|
  {
    SortIsPermutation((a: Candidate, b: Candidate) => NewestFirst(env.idBefore, a, b), candidates);
  }

  predicate NewestFirst(idBefore: (InstanceId, InstanceId) -> bool, a: Candidate, b: Candidate) {
    var la, lb := a.runner.launchTime.GetOr(0), b.runner.launchTime.GetOr(0);
    la > lb || (la == lb && idBefore(a.runner.instanceId, b.runner.instanceId))
  }

  function RemovalOrder(env: Environment, candidates: seq<Candidate>): seq<Candidate> {
    Sort((a: Candidate, b: Candidate) => NewestFirst(env.idBefore, a, b), candidates)
  }

  /** How an attempt to remove one candidate ended. */
  datatype Ending = RemovalFailed | KeptBusy | KeptUnknown | TerminationFailed | Gone

  /** An attempt that starts with the given call. */
  datatype Attempt = Attempt(call: nat, end: Ending)

  /** How an attempt ends that GitHub refuses. */
  ghost function EndingOf(removal: Outcome<RemovalStatus>): Ending
    requires removal != Ok(Removed)
  {
    if removal.Threw? then RemovalFailed
    else if removal.value == RemovalStatus.RetainedBusy then KeptBusy else KeptUnknown
  }

  /** How an attempt must end, by the answers from call `n` on. */
  ghost function EndingAt(env: Environment, n: nat): Ending {
    if env.remove(n) != Ok(Removed) then EndingOf(env.remove(n))
    else if env.terminate(n + 1).Ok? then Gone else TerminationFailed
  }

  ghost function AskedRemoval(c: Candidate, call: nat, answer: Option<RemovalStatus>): Act {
    Remove(c.runner.instanceId, c.githubState.runnerId, c.githubState.runnerName, call, answer)
  }

  ghost function ActsOf(c: Candidate, a: Attempt): seq<Act> {
    match a.end
    case RemovalFailed => [AskedRemoval(c, a.call, None)]
    case KeptBusy => [AskedRemoval(c, a.call, Some(RemovalStatus.RetainedBusy))]
    case KeptUnknown => [AskedRemoval(c, a.call, Some(RemovalStatus.RetainedUnknown))]
    case TerminationFailed =>
      [AskedRemoval(c, a.call, Some(Removed)), Terminate(c.runner.instanceId, a.call + 1, false)]
    case Gone => [AskedRemoval(c, a.call, Some(Removed)), Terminate(c.runner.instanceId, a.call + 1, true)]
  }

  /** After a removal the instance is terminated, and after a refusal nothing more is asked. */
  lemma RemovedThenTerminated(env: Environment, c: Candidate, n: nat)
    requires env.remove(n) == Ok(Removed)
    ensures EndingAt(env, n) == if env.terminate(n + 1).Ok? then Gone else TerminationFailed
    ensures ActsOf(c, Attempt(n, EndingAt(env, n)))
            == [AskedRemoval(c, n, StatusOf(env.remove(n)))] + [Terminate(c.runner.instanceId, n + 1, env.terminate(n + 1).Ok?)]
  {
  }

  lemma RefusedEndsThere(env: Environment, c: Candidate, n: nat)
    requires env.remove(n) != Ok(Removed)
    ensures EndingAt(env, n) == EndingOf(env.remove(n)) != Gone
    ensures ActsOf(c, Attempt(n, EndingAt(env, n))) == [AskedRemoval(c, n, StatusOf(env.remove(n)))]
  {
  }

  ghost function AllActs(order: seq<Candidate>, attempts: seq<Attempt>): seq<Act>
    requires |attempts| <= |order|
  {
    if attempts == [] then []
    else
      var k := |attempts| - 1;
      AllActs(order, attempts[..k]) + ActsOf(order[k], attempts[k])
  }

  /** Each attempt starts where the one before stopped and ends as the answers demand. */
  ghost predicate Answered(env: Environment, order: seq<Candidate>, attempts: seq<Attempt>, from: nat)
    requires |attempts| <= |order|
  {
    forall j :: 0 <= j < |attempts| ==>
      && attempts[j].call == from + |AllActs(order, attempts[..j])|
      && attempts[j].end == EndingAt(env, attempts[j].call)
  }

  ghost function Count(attempts: seq<Attempt>, kind: Ending): nat {
    |Filter((a: Attempt) => a.end == kind, attempts)|
  }

  lemma AttemptIsTrue(env: Environment, c: Candidate, n: nat)
    ensures TrueFrom(env, ActsOf(c, Attempt(n, EndingAt(env, n))), n)
  {
  }

  lemma TrueAppend(env: Environment, a: seq<Act>, b: seq<Act>, from: nat)
    requires TrueFrom(env, a, from) && TrueFrom(env, b, from + |a|)
    ensures TrueFrom(env, a + b, from)
  {
  }

  /** The acts of all attempts are true, one call after the other. */
  lemma {:induction false} AllActsAreTrue(env: Environment, order: seq<Candidate>, attempts: seq<Attempt>, from: nat)
    requires |attempts| <= |order| && Answered(env, order, attempts, from)
    ensures TrueFrom(env, AllActs(order, attempts), from)
  {
    if attempts != [] {
      var init, last := attempts[..|attempts| - 1], attempts[|attempts| - 1];
      forall j | 0 <= j < |init| ensures attempts[..j] == init[..j] {}
      AllActsAreTrue(env, order, init, from);
      AttemptIsTrue(env, order[|init|], last.call);
      TrueAppend(env, AllActs(order, init), ActsOf(order[|init|], last), from);
    }
  }

  lemma {:induction false} NothingPublished(order: seq<Candidate>, attempts: seq<Attempt>)
    requires |attempts| <= |order|
    ensures forall i :: 0 <= i < |AllActs(order, attempts)| ==>
              AllActs(order, attempts)[i].Remove? || AllActs(order, attempts)[i].Terminate?
  {
    if attempts != [] {
      NothingPublished(order, attempts[..|attempts| - 1]);
    }
  }

  /** The act before asked, in the call before, to remove a candidate on this very instance, and "removed" was the answer. */
  ghost predicate FollowsRemoval(env: Environment, order: seq<Candidate>, acts: seq<Act>, i: int)
    requires 0 <= i < |acts|
  {
    && i > 0
    && (exists c :: c in order && c.runner.instanceId == acts[i].resource
          && acts[i - 1] == AskedRemoval(c, acts[i - 1].call, Some(Removed)))
    && acts[i].call == acts[i - 1].call + 1
    && env.remove(acts[i - 1].call) == Ok(Removed)
  }

  /** An attempt terminates only after its own removal. */
  lemma TerminationComesSecond(c: Candidate, a: Attempt, k: nat)
    requires k < |ActsOf(c, a)| && ActsOf(c, a)[k].Terminate?
    ensures k == 1 && ActsOf(c, a)[0] == AskedRemoval(c, a.call, Some(Removed))
    ensures ActsOf(c, a)[1].resource == c.runner.instanceId
  {
  }

  /**
   An instance is terminated only right after GitHub answered the removal of its own runner with "removed". This is
   read off the calls: the log is true, so the answer is what that call of `remove` returned.
   */
  lemma {:induction false} AllActsAreSafe(env: Environment, order: seq<Candidate>, attempts: seq<Attempt>, from: nat, i: nat)
    requires |attempts| <= |order| && Answered(env, order, attempts, from)
    requires i < |AllActs(order, attempts)| && AllActs(order, attempts)[i].Terminate?
    ensures FollowsRemoval(env, order, AllActs(order, attempts), i)
  {
    AllActsAreTrue(env, order, attempts, from);
    var k := |attempts| - 1;
    var init, acts := attempts[..k], AllActs(order, attempts);
    var before, now := AllActs(order, init), ActsOf(order[k], attempts[k]);
    assert acts == before + now;
    if i < |before| {
      forall j | 0 <= j < k ensures attempts[..j] == init[..j] {}
      AllActsAreSafe(env, order, init, from, i);
      assert acts[i] == before[i] && acts[i - 1] == before[i - 1];
    } else {
      TerminationComesSecond(order[k], attempts[k], i - |before|);
      assert acts[i] == now[1] && acts[i - 1] == now[0];
      assert order[k] in order;
      assert IsTrue(env, acts[i - 1]);
    }
  }

  lemma {:induction false} TerminationsAreCounted(order: seq<Candidate>, attempts: seq<Attempt>)
    requires |attempts| <= |order|
    ensures |TerminatedBy(AllActs(order, attempts))| == Count(attempts, Gone)
  {
    if attempts != [] {
      var k := |attempts| - 1;
      TerminationsAreCounted(order, attempts[..k]);
      TerminatedByAppend(AllActs(order, attempts[..k]), ActsOf(order[k], attempts[k]));
      OneMoreCounted(attempts);
      AttemptEnds(order[k], attempts[k]);
    }
  }

  lemma OneMoreCounted(attempts: seq<Attempt>)
    requires attempts != []
    ensures var k := |attempts| - 1; Count(attempts, Gone) == Count(attempts[..k], Gone) + (if attempts[k].end == Gone then 1 else 0)
  {
    var k := |attempts| - 1;
    assert attempts == attempts[..k] + [attempts[k]];
    FilterAppend((a: Attempt) => a.end == Gone, attempts[..k], [attempts[k]]);
  }

  lemma AttemptEnds(c: Candidate, a: Attempt)
    ensures |TerminatedBy(ActsOf(c, a))| == (if a.end == Gone then 1 else 0)
  {
    LastTerminates(ActsOf(c, a));
  }

  lemma NewestFirstIsTotalPreorder(env: Environment)
    requires TotalPreorder(env.idBefore)
    ensures TotalPreorder((a: Candidate, b: Candidate) => NewestFirst(env.idBefore, a, b))
  {
  }

  /** Those asked before the count is reached are the newest: who is not asked comes after who is. */
  lemma AskedAreNewest(env: Environment, candidates: seq<Candidate>, asked: nat, i: nat, j: nat)
    requires TotalPreorder(env.idBefore)
    requires i < asked <= j < |RemovalOrder(env, candidates)|
    ensures var order := RemovalOrder(env, candidates);
            var a, b := order[i].runner, order[j].runner;
            var ta, tb := if a.launchTime.Some? then a.launchTime.value else 0, if b.launchTime.Some? then b.launchTime.value else 0;
            ta > tb || (ta == tb && env.idBefore(a.instanceId, b.instanceId))
  {
    NewestFirstIsTotalPreorder(env);
    SortIsStable((a: Candidate, b: Candidate) => NewestFirst(env.idBefore, a, b), candidates);
  }

  /** What a sequence of removal attempts did: only what the answers say. */
  ghost predicate Attempted(env: Environment, order: seq<Candidate>, attempts: seq<Attempt>, from: nat, was: View, now: View) {
    && |attempts| <= |order| && Answered(env, order, attempts, from)
    && now.acts == was.acts + AllActs(order, attempts)
    && AttemptsCounted(attempts, was.actions, now.actions)
    && Extends(was.errors, now.errors)
    && KeptAreRetained(order, attempts, was.retained, now.retained)
  }

  ghost predicate AttemptsCounted(attempts: seq<Attempt>, was: Actions, now: Actions) {
    now == was.(
      terminated := was.terminated + Count(attempts, Gone),
      retainedBusy := was.retainedBusy + Count(attempts, KeptBusy),
      retainedUnknown := now.retainedUnknown)
  }

  ghost predicate EndsUnknown(e: Ending) {
    e == RemovalFailed || e == KeptUnknown || e == TerminationFailed
  }

  ghost predicate KeptAreRetained(order: seq<Candidate>, attempts: seq<Attempt>, was: set<InstanceId>, now: set<InstanceId>)
    requires |attempts| <= |order|
  {
    && was <= now
    && (forall j :: 0 <= j < |attempts| && EndsUnknown(attempts[j].end) ==> order[j].runner.instanceId in now)
    && (forall x :: x in now ==> x in was || exists c :: c in order && c.runner.instanceId == x)
  }

  /** How an ending is recorded. */
  ghost predicate Records(c: Candidate, e: Ending, was: View, now: View) {
    && now.actions == was.actions.(
         terminated := was.actions.terminated + (if e == Gone then 1 else 0),
         retainedBusy := was.actions.retainedBusy + (if e == KeptBusy then 1 else 0),
         retainedUnknown := now.actions.retainedUnknown)
    && Extends(was.errors, now.errors)
    && now.retained == was.retained + (if EndsUnknown(e) then {c.runner.instanceId} else {})
  }

  ghost predicate OneAttempted(c: Candidate, a: Attempt, was: View, now: View) {
    now.acts == was.acts + ActsOf(c, a) && Records(c, a.end, was, now)
  }

  lemma AttemptsCountedStep(attempts: seq<Attempt>, a: Attempt, was: Actions, mid: Actions, now: Actions)
    requires AttemptsCounted(attempts, was, mid)
    requires now == mid.(
               terminated := mid.terminated + (if a.end == Gone then 1 else 0),
               retainedBusy := mid.retainedBusy + (if a.end == KeptBusy then 1 else 0),
               retainedUnknown := now.retainedUnknown)
    ensures AttemptsCounted(attempts + [a], was, now)
    ensures Count(attempts + [a], Gone) == Count(attempts, Gone) + (if a.end == Gone then 1 else 0)
  {
    FilterAppend((x: Attempt) => x.end == Gone, attempts, [a]);
    FilterAppend((x: Attempt) => x.end == KeptBusy, attempts, [a]);
  }

  lemma KeptAreRetainedStep(order: seq<Candidate>, attempts: seq<Attempt>, a: Attempt,
                            was: set<InstanceId>, mid: set<InstanceId>, now: set<InstanceId>)
    requires |attempts| < |order| && KeptAreRetained(order, attempts, was, mid)
    requires now == mid + (if EndsUnknown(a.end) then {order[|attempts|].runner.instanceId} else {})
    ensures KeptAreRetained(order, attempts + [a], was, now)
  {
    assert order[|attempts|] in order;
  }

  lemma AnsweredStep(env: Environment, order: seq<Candidate>, attempts: seq<Attempt>, from: nat, a: Attempt)
    requires |attempts| < |order| && Answered(env, order, attempts, from)
    requires a.call == from + |AllActs(order, attempts)| && a.end == EndingAt(env, a.call)
    ensures Answered(env, order, attempts + [a], from)
  {
    var all := attempts + [a];
    forall j | 0 <= j < |all| ensures all[..j] == if j < |attempts| then attempts[..j] else attempts {}
  }

  lemma AllActsStep(order: seq<Candidate>, attempts: seq<Attempt>, a: Attempt)
    requires |attempts| < |order|
    ensures AllActs(order, attempts + [a]) == AllActs(order, attempts) + ActsOf(order[|attempts|], a)
  {
    assert (attempts + [a])[..|attempts|] == attempts;
  }

  lemma ActsAppend(was: seq<Act>, a: seq<Act>, b: seq<Act>)
    ensures was + a + b == was + (a + b)
  {
  }

  lemma AttemptedStep(env: Environment, order: seq<Candidate>, attempts: seq<Attempt>, from: nat, was: View, mid: View,
                      a: Attempt, now: View)
    requires |attempts| < |order| && Attempted(env, order, attempts, from, was, mid)
    requires now.acts == mid.acts + ActsOf(order[|attempts|], a) && Records(order[|attempts|], a.end, mid, now)
    requires a.call == from + |AllActs(order, attempts)| && a.end == EndingAt(env, a.call)
    ensures Attempted(env, order, attempts + [a], from, was, now)
    ensures Count(attempts + [a], Gone) == Count(attempts, Gone) + (if a.end == Gone then 1 else 0)
  {
    AnsweredStep(env, order, attempts, from, a);
    AttemptsCountedStep(attempts, a, was.actions, mid.actions, now.actions);
    KeptAreRetainedStep(order, attempts, a, was.retained, mid.retained, now.retained);
    AllActsStep(order, attempts, a);
    ActsAppend(was.acts, AllActs(order, attempts), ActsOf(order[|attempts|], a));
  }

  /** Everybody asked to go is removable and everybody removable stands in line, newest first. */
  ghost predicate RemovableInOrder(env: Environment, request: Request, runners: seq<OwnedRunner>, order: seq<Candidate>) {
    && (forall c :: c in order ==> c.runner in runners && Removable(env, request, c.runner) && Identifies(env, c))
    && (forall r :: r in runners && Removable(env, request, r) ==> exists c :: c in order && c.runner == r)
    && SortedBy((a: Candidate, b: Candidate) => NewestFirst(env.idBefore, a, b), order)
  }

  ghost predicate InstancesOf(runners: seq<OwnedRunner>, ids: set<InstanceId>) {
    forall x :: x in ids ==> exists r :: r in runners && r.instanceId == x
  }

  /** At most `count` of the runners were terminated, and fewer only if every removable one was asked. */
  ghost predicate ScaledDown(env: Environment, request: Request, runners: seq<OwnedRunner>, count: nat,
                             order: seq<Candidate>, attempts: seq<Attempt>, from: nat, was: View, now: View) {
    && RemovableInOrder(env, request, runners, order)
    && |attempts| <= |order| && Answered(env, order, attempts, from)
    && now.acts == was.acts + AllActs(order, attempts)
    && Count(attempts, Gone) <= count
    && (Count(attempts, Gone) < count ==> |attempts| == |order|)
    && now.actions.launched == was.actions.launched
    && now.actions.terminated == was.actions.terminated + Count(attempts, Gone)
    && now.actions.retainedBusy == was.actions.retainedBusy + BusyCount(env, request, runners) + Count(attempts, KeptBusy)
    && now.actions.retainedBusy - was.actions.retainedBusy <= |runners|
    && was.retained <= now.retained && InstancesOf(runners, now.retained - was.retained)
    && OthersAreRetained(env, request, runners, now.retained)
    && (forall j :: 0 <= j < |attempts| && EndsUnknown(attempts[j].end) ==> order[j].runner.instanceId in now.retained)
    && Extends(was.errors, now.errors)
  }

  lemma SelectionInOrder(env: Environment, request: Request, index: Index, runners: seq<OwnedRunner>)
    requires IsIndex(request.runnerStates, env.scaleSetId, index) && TotalPreorder(env.idBefore)
    ensures RemovableInOrder(env, request, runners, RemovalOrder(env, Select(env, request, index, runners).candidates))
  {
    var cs := Select(env, request, index, runners).candidates;
    CandidatesAreRemovable(env, request, index, runners);
    NewestFirstIsTotalPreorder(env);
    SortIsStable((a: Candidate, b: Candidate) => NewestFirst(env.idBefore, a, b), cs);
    SortIsPermutation((a: Candidate, b: Candidate) => NewestFirst(env.idBefore, a, b), cs);
    forall r | r in runners && Removable(env, request, r) ensures exists c :: c in RemovalOrder(env, cs) && c.runner == r {
      var c :| c in cs && c.runner == r;
      assert c in RemovalOrder(env, cs);
    }
  }

  lemma SelectedThenAttempted(env: Environment, request: Request, runners: seq<OwnedRunner>, count: nat, sel: Selection,
                              order: seq<Candidate>, attempts: seq<Attempt>, from: nat, was: View, mid: View, now: View)
    requires RemovableInOrder(env, request, runners, order) && |order| + sel.busy <= |runners|
    requires forall x :: x in sel.unclear ==> exists r :: r in runners && r.instanceId == x
    requires sel.busy == BusyCount(env, request, runners) && OthersAreRetained(env, request, runners, sel.unclear)
    requires mid == Selected(was, sel)
    requires Attempted(env, order, attempts, from, mid, now) && Count(attempts, Gone) <= count
    requires Count(attempts, Gone) < count ==> |attempts| == |order|
    ensures ScaledDown(env, request, runners, count, order, attempts, from, was, now)
  {
    forall x | x in now.retained - was.retained ensures exists r :: r in runners && r.instanceId == x {
      if x !in sel.unclear {
        var c :| c in order && c.runner.instanceId == x;
        assert c.runner in runners;
      }
    }
  }

  lemma CandidatesArePresentable(env: Environment, request: Request, index: Index, runners: seq<OwnedRunner>)
    requires forall r :: r in runners ==> BoundedText(r.instanceId) && OptionalBoundedText(r.runnerName)
    ensures forall c :: c in RemovalOrder(env, Select(env, request, index, runners).candidates) ==>
              BoundedText(c.runner.instanceId) && BoundedText(c.githubState.runnerName)
  {
    var candidates := Select(env, request, index, runners).candidates;
    SelectionIsBounded(env, request, index, runners);
    SortIsPermutation((a: Candidate, b: Candidate) => NewestFirst(env.idBefore, a, b), candidates);
    forall c | c in RemovalOrder(env, candidates)
      ensures BoundedText(c.runner.instanceId) && BoundedText(c.githubState.runnerName) {
      assert c in candidates && c.runner in runners;
    }
  }
}
