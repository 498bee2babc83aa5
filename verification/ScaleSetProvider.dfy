/**
 One reconciliation of a scale set's EC2 runners: count what serves, launch what is missing without
 outgrowing the target by more than one, or remove what is superfluous without touching busy runners.
 */
module ScaleSetProvider {
  import opened Prelude
  import opened StableSort
  import opened RunnerStates
  import opened ReconcileState
  import opened ScaleSetInventory
  import opened ScaleSetScaleUp
  import opened ScaleSetScaleDown

  class Provider {
    const env: Environment
    var calls: nat

    constructor (env: Environment)
      ensures this.env == env && calls == 0
    {
      this.env := env;
      calls := 0;
    }

    // The calls that change the outside world; each leaves its answer in the log.

    method AskTermination(id: InstanceId, state: ReconcileState) returns (outcome: Outcome<()>)
      requires state.Valid()
      modifies this`calls, state`acts
      ensures state.Valid() && calls == old(calls) + 1 && outcome == env.terminate(old(calls))
      ensures state.acts == old(state.acts) + [EndAt(env, id, old(calls))]
    {
      outcome := env.terminate(calls);
      state.Note([Terminate(id, calls, outcome.Ok?)]);
      calls := calls + 1;
    }

    method AskRemoval(id: InstanceId, runnerId: int, runnerName: string, state: ReconcileState)
      returns (outcome: Outcome<RemovalStatus>)
      requires state.Valid()
      modifies this`calls, state`acts
      ensures state.Valid() && calls == old(calls) + 1 && outcome == env.remove(old(calls))
      ensures state.acts == old(state.acts) + [Remove(id, runnerId, runnerName, old(calls), StatusOf(env.remove(old(calls))))]
    {
      outcome := env.remove(calls);
      state.Note([Remove(id, runnerId, runnerName, calls, StatusOf(outcome))]);
      calls := calls + 1;
    }

    method AskTag(id: InstanceId, state: ReconcileState) returns (outcome: Outcome<()>)
      requires state.Valid()
      modifies this`calls, state`acts
      ensures state.Valid() && calls == old(calls) + 1 && outcome == env.tag(old(calls))
      ensures state.acts == old(state.acts) + [TagAt(env, id, old(calls))]
    {
      outcome := env.tag(calls);
      state.Note([Tag(id, calls, outcome.Ok?)]);
      calls := calls + 1;
    }

    method AskPublication(id: InstanceId, state: ReconcileState) returns (outcome: Outcome<()>)
      requires state.Valid()
      modifies this`calls, state`acts
      ensures state.Valid() && calls == old(calls) + 1 && outcome == env.publish(old(calls))
      ensures state.acts == old(state.acts) + [Publish(id, old(calls), env.publish(old(calls)).Ok?)]
    {
      outcome := env.publish(calls);
      state.Note([Publish(id, calls, outcome.Ok?)]);
      calls := calls + 1;
    }

    /** A configuration for the wrong runner is as good as none. */
    method AskJit(id: InstanceId, state: ReconcileState) returns (jit: Outcome<Jit>)
      requires state.Valid()
      modifies this`calls, state`acts
      ensures state.Valid() && calls == old(calls) + 1
      ensures if GeneratesGoodJit(env, id, old(calls)) then jit == env.jit(old(calls)) else jit.Threw?
      ensures state.acts == old(state.acts) + [Generate(id, old(calls), GeneratesGoodJit(env, id, old(calls)))]
    {
      jit := env.jit(calls);
      if jit.Ok? && !IsExpectedJit(env, jit.value, env.runnerNamePrefix + id) {
        jit := Threw(InvalidConfiguration);
      }
      state.Note([Generate(id, calls, jit.Ok?)]);
      calls := calls + 1;
    }

    method TerminateUnpublishedRunner(id: InstanceId, state: ReconcileState)
      requires state.Valid() && BoundedText(id) && Blamed(state.errors, id)
      modifies this`calls, state`currentRunners, state`actions, state`errors, state`retainedUnknownResourceIds, state`acts
      ensures state.Valid() && calls == old(calls) + 1
      ensures OneMore([EndAt(env, id, old(calls))], id, old(state.Viewed()), state.Viewed())
    {
      var answer := AskTermination(id, state);
      match answer
      case Ok(_) =>
        state.CountTermination();
      case Threw(thrown) =>
        KeepUnknown(SafeError(Operation.TerminateRunner, thrown, None, Some(id)), id, state);
        assert state.errors[|state.errors| - 1].resourceId == Some(id);
    }

    /** Asks GitHub to forget the runner of an instance that will not be published; a failure is only reported. */
    method CleanGitHubRunner(jit: Jit, id: InstanceId, state: ReconcileState)
      requires state.Valid() && BoundedText(jit.runnerName)
      modifies this`calls, state`errors, state`acts
      ensures state.Valid() && Extends(old(state.errors), state.errors) && calls == old(calls) + 1
      ensures state.acts == old(state.acts) + [RemovalAt(env, jit, id, old(calls))]
    {
      var outcome := AskRemoval(id, jit.runnerId, jit.runnerName, state);
      if outcome.Threw? {
        state.Push(SafeError(Operation.RemoveRunner, outcome.thrown, Some(jit.runnerName), None));
      }
    }

    method MarkPublished(runnerName: string, id: InstanceId, state: ReconcileState)
      requires state.Valid() && BoundedText(id) && BoundedText(runnerName)
      modifies this`calls, state`actions, state`errors, state`retainedUnknownResourceIds, state`acts
      ensures state.Valid() && calls == old(calls) + 1
      ensures OneMore([TagAt(env, id, old(calls))], id, old(state.Viewed()), state.Viewed())
    {
      state.CountLaunch();
      var tagged := AskTag(id, state);
      if tagged.Threw? {
        KeepUnknown(SafeError(Operation.Launch, tagged.thrown, Some(runnerName), Some(id)), id, state);
        assert state.errors[|state.errors| - 1].resourceId == Some(id);
      }
    }

    method PreserveUnpublished(thrown: Thrown, runnerName: string, id: InstanceId, state: ReconcileState)
      requires state.Valid() && BoundedText(id) && BoundedText(runnerName)
      modifies state`actions, state`errors, state`retainedUnknownResourceIds
      ensures state.Valid() && state.acts == old(state.acts)
      ensures Marks(Preserved, id, old(state.Viewed()), state.Viewed())
    {
      KeepUnknown(SafeError(Operation.PublishJit, thrown, Some(runnerName), Some(id)), id, state);
      assert state.errors[|state.errors| - 1].resourceId == Some(id);
    }

    /** From here on the runner may have read its configuration, so whatever fails, the instance is kept. */
    method PublishConfiguration(runnerName: string, id: InstanceId, state: ReconcileState)
      requires state.Valid() && BoundedText(id) && BoundedText(runnerName)
      modifies this`calls, state`actions, state`errors, state`retainedUnknownResourceIds, state`acts
      ensures state.Valid() && calls == old(calls) + |PublishStory(env, id, old(calls))|
      ensures OneMore(PublishStory(env, id, old(calls)), id, old(state.Viewed()), state.Viewed())
    {
      var published := AskPublication(id, state);
      match published
      case Ok(_) =>
        FateOfTail([Publish(id, old(calls), true)], [TagAt(env, id, calls)]);
        MarkPublished(runnerName, id, state);
      case Threw(thrown) =>
        PreserveUnpublished(thrown, runnerName, id, state);
    }

    method Abandon(e: ReportedError, id: InstanceId, state: ReconcileState)
      requires state.Valid() && BoundedText(id) && e.resourceId == Some(id)
      modifies this`calls, state`currentRunners, state`actions, state`errors, state`retainedUnknownResourceIds, state`acts
      ensures state.Valid() && calls == old(calls) + 1
      ensures OneMore([EndAt(env, id, old(calls))], id, old(state.Viewed()), state.Viewed())
    {
      state.Push(e);
      assert state.errors[|state.errors| - 1].resourceId == Some(id);
      TerminateUnpublishedRunner(id, state);
    }

    method AbandonRegistered(e: ReportedError, jit: Jit, id: InstanceId, state: ReconcileState)
      requires state.Valid() && BoundedText(id) && e.resourceId == Some(id) && BoundedText(jit.runnerName)
      modifies this`calls, state`currentRunners, state`actions, state`errors, state`retainedUnknownResourceIds, state`acts
      ensures state.Valid() && calls == old(calls) + 2
      ensures OneMore([RemovalAt(env, jit, id, old(calls)), EndAt(env, id, old(calls) + 1)], id,
                      old(state.Viewed()), state.Viewed())
    {
      state.Push(e);
      assert state.errors[|state.errors| - 1].resourceId == Some(id);
      ghost var errors := state.errors;
      CleanGitHubRunner(jit, id, state);
      BlamedGrows(errors, state.errors, id);
      TerminateUnpublishedRunner(id, state);
    }

    method TagAndPublish(jit: Jit, id: InstanceId, state: ReconcileState)
      requires state.Valid() && BoundedText(id) && BoundedText(jit.runnerName)
      modifies this`calls, state`currentRunners, state`actions, state`errors, state`retainedUnknownResourceIds, state`acts
      ensures state.Valid() && calls == old(calls) + |TagStory(env, jit, id, old(calls))|
      ensures OneMore(TagStory(env, jit, id, old(calls)), id, old(state.Viewed()), state.Viewed())
    {
      var tagged := AskTag(id, state);
      ghost var tail := TagStory(env, jit, id, old(calls))[1..];
      FateOfTail([TagAt(env, id, old(calls))], tail);
      if tagged.Threw? {
        var e := SafeError(Operation.Launch, tagged.thrown, Some(jit.runnerName), Some(id));
        AbandonRegistered(e, jit, id, state);
      } else {
        PublishConfiguration(jit.runnerName, id, state);
      }
      assert TagStory(env, jit, id, old(calls)) == [TagAt(env, id, old(calls))] + tail;
    }

    method ConfigureLaunchedRunner(id: InstanceId, state: ReconcileState)
      requires state.Valid() && GivesPresentableName(env, id)
      modifies this`calls, state`currentRunners, state`actions, state`errors, state`retainedUnknownResourceIds, state`acts
      ensures state.Valid() && calls == old(calls) + |Story(env, id, old(calls))|
      ensures OneMore(Story(env, id, old(calls)), id, old(state.Viewed()), state.Viewed())
    {
      var runnerName := env.runnerNamePrefix + id;
      if |runnerName| > GITHUB_RUNNER_NAME_MAX_LENGTH {
        Abandon(NameTooLong(id), id, state);
      } else {
        GenerateAndLaunch(id, state);
      }
    }

    /** A runner whose name is short enough: its configuration is generated, and then it is tagged and published. */
    method GenerateAndLaunch(id: InstanceId, state: ReconcileState)
      requires state.Valid() && GivesPresentableName(env, id)
      requires |env.runnerNamePrefix + id| <= GITHUB_RUNNER_NAME_MAX_LENGTH
      modifies this`calls, state`currentRunners, state`actions, state`errors, state`retainedUnknownResourceIds, state`acts
      ensures state.Valid() && calls == old(calls) + |Story(env, id, old(calls))|
      ensures OneMore(Story(env, id, old(calls)), id, old(state.Viewed()), state.Viewed())
    {
      var runnerName := env.runnerNamePrefix + id;
      ghost var n := calls;
      var jit := AskJit(id, state);
      ghost var first := [Generate(id, n, jit.Ok?)];
      ghost var tail := Story(env, id, n)[1..];
      assert Story(env, id, n) == first + tail;
      FateOfTail(first, tail);
      match jit {
        case Threw(thrown) =>
          Abandon(SafeError(Operation.GenerateJit, thrown, Some(runnerName), Some(id)), id, state);
        case Ok(value) =>
          TagAndPublish(value, id, state);
      }
    }

    /** Counts a runner as serving exactly by `Serves`, and retains every other one. */
    method ServingCapacity(runners: seq<OwnedRunner>, request: Request, state: ReconcileState)
      returns (serving: seq<OwnedRunner>)
      requires state.Valid()
      modifies state`retainedUnknownResourceIds, state`actions
      ensures state.Valid()
      ensures serving == Serving(env, request, runners)
      ensures state.Viewed() == old(state.Viewed()).Retaining(Idle(env, request, runners))
      ensures serving == Filter((r: OwnedRunner) => IsKnown(r) || IsYoung(request, r, env.now), runners)
      ensures forall id :: id in state.retainedUnknownResourceIds <==>
                id in old(state.retainedUnknownResourceIds)
                || exists r :: r in runners && r.instanceId == id && !IsKnown(r) && !IsYoung(request, r, env.now)
    {
      var index := IndexRunnerStates(request.runnerStates, env.scaleSetId);
      serving := CountServing(runners, index, request, state);
      ServingAreKnownOrYoung(env, request, runners);
    }

    /** GitHub tells that the runner is at work or online. */
    ghost predicate Confirms(githubState: Option<RunnerState>) {
      githubState.Some? && (githubState.value.lifecycle == Started || githubState.value.status == Online)
    }

    /** GitHub's view never makes a difference: whom it confirms is known by name and id. */
    method IsServing(runner: OwnedRunner, index: Index, request: Request) returns (serving: bool)
      ensures serving == Serves(env, request, runner)
      ensures serving <==> IsKnown(runner) || IsYoung(request, runner, env.now)
      ensures runner.phase == Some(ConfigPublished) && Confirms(MatchingRunnerState(runner, index, env.scaleSetId)) ==> serving
    {
      if runner.phase != Some(ConfigPublished) {
        return false;
      }
      var githubState := MatchingRunnerState(runner, index, env.scaleSetId);
      if githubState.Some? && IsConfirmedServing(githubState.value) {
        return true;
      }
      if IsWithinBootTimeout(runner, request.bootTimeoutMinutes, env.now) {
        return true;
      }
      return runner.githubRunnerId.Some? && runner.runnerName.Some?;
    }

    /** Retains the runner unless it serves. */
    method CountOne(runner: OwnedRunner, index: Index, request: Request, state: ReconcileState) returns (serves: bool)
      requires state.Valid()
      modifies state`retainedUnknownResourceIds, state`actions
      ensures state.Valid() && serves == Serves(env, request, runner)
      ensures state.Viewed() == if serves then old(state.Viewed()) else old(state.Viewed()).Retaining({runner.instanceId})
    {
      serves := IsServing(runner, index, request);
      if !serves {
        state.RetainUnknown(runner.instanceId);
      }
    }

    method CountServing(runners: seq<OwnedRunner>, index: Index, request: Request, state: ReconcileState)
      returns (serving: seq<OwnedRunner>)
      requires state.Valid()
      modifies state`retainedUnknownResourceIds, state`actions
      ensures state.Valid()
      ensures serving == Serving(env, request, runners)
      ensures state.Viewed() == old(state.Viewed()).Retaining(Idle(env, request, runners))
    {
      serving := [];
      ghost var was, s := state.Viewed(), SurveyOf(env, request, []);
      assert was.retained + {} == was.retained;
      var k := 0;
      while k < |runners|
        invariant k <= |runners|
        invariant state.Valid()
        invariant s == SurveyOf(env, request, runners[..k]) && serving == s.serving
        invariant state.Viewed() == was.Retaining(s.idle)
      {
        assert runners[..k + 1][..k] == runners[..k];
        was.RetainingMore(s.idle, {runners[k].instanceId});
        var serves := CountOne(runners[k], index, request, state);
        s := SurveyOf(env, request, runners[..k + 1]);
        if serves {
          serving := serving + [runners[k]];
        }
        k := k + 1;
      }
      assert runners[..k] == runners;
    }

    /** Asks for `count` runners and configures each one that comes. */
    method ScaleUp(count: nat, state: ReconcileState) returns (ghost ids: seq<InstanceId>, ghost parts: seq<Part>)
      requires WellBehaved(env) && state.Valid()
      modifies this`calls, state
      ensures state.Valid()
      ensures |ids| <= count && state.created == old(state.created) + ids
      ensures ScaledUp(StoryTeller(env), ids, parts, old(calls), old(state.Viewed()), state.Viewed())
      ensures ids == if env.create(count).Ok? then env.create(count).value.instances else []
      ensures env.create(count).Threw? || env.create(count).value.failedInstanceCount > 0 ==> state.errors != old(state.errors)
    {
      ids, parts := [], [];
      var creation := env.create(count);
      if creation.Threw? {
        state.Push(SafeError(Operation.Launch, creation.thrown, None, None));
        return;
      }
      var instances := creation.value.instances;
      state.currentRunners := state.currentRunners + |instances|;
      state.created := state.created + instances;
      if creation.value.failedInstanceCount > 0 {
        state.Push(LaunchFailed());
      }
      ghost var mid := state.Viewed();
      ids := instances;
      assert creation.value.failedInstanceCount > 0 ==> |mid.errors| > |old(state.errors)|;
      parts := ConfigureAll(instances, state);
      assert ScaledUp(StoryTeller(env), ids, parts, old(calls), mid, state.Viewed());
    }

    method ConfigureAll(instances: seq<InstanceId>, state: ReconcileState) returns (ghost parts: seq<Part>)
      requires state.Valid()
      requires forall id :: id in instances ==> GivesPresentableName(env, id)
      modifies this`calls, state`currentRunners, state`actions, state`errors, state`retainedUnknownResourceIds, state`acts
      ensures state.Valid()
      ensures ScaledUp(StoryTeller(env), instances, parts, old(calls), old(state.Viewed()), state.Viewed())
    {
      ghost var was, from := state.Viewed(), calls;
      parts := [];
      var k := 0;
      while k < |instances|
        invariant k <= |instances|
        invariant state.Valid() && calls == End(parts, from)
        invariant ScaledUp(StoryTeller(env), instances[..k], parts, from, was, state.Viewed())
      {
        parts := ConfigureNext(instances, k, from, parts, was, state);
        k := k + 1;
      }
      assert instances[..k] == instances;
    }

    method ConfigureNext(instances: seq<InstanceId>, k: nat, ghost from: nat, ghost parts: seq<Part>, ghost was: View,
                         state: ReconcileState)
      returns (ghost more: seq<Part>)
      requires state.Valid() && k < |instances|
      requires GivesPresentableName(env, instances[k])
      requires calls == End(parts, from)
      requires ScaledUp(StoryTeller(env), instances[..k], parts, from, was, state.Viewed())
      modifies this`calls, state`currentRunners, state`actions, state`errors, state`retainedUnknownResourceIds, state`acts
      ensures state.Valid() && calls == End(more, from)
      ensures ScaledUp(StoryTeller(env), instances[..k + 1], more, from, was, state.Viewed())
    {
      ghost var mid := state.Viewed();
      ghost var p := ConfigureAsTold(instances[k], state);
      more := parts + [p];
      ScaledUpNext(StoryTeller(env), instances, k, parts, from, was, mid, p, state.Viewed());
    }

    method ConfigureAsTold(id: InstanceId, state: ReconcileState) returns (ghost p: Part)
      requires state.Valid() && GivesPresentableName(env, id)
      modifies this`calls, state`currentRunners, state`actions, state`errors, state`retainedUnknownResourceIds, state`acts
      ensures state.Valid() && p == Part(old(calls), StoryTeller(env)(id, old(calls))) && calls == p.call + |p.acts|
      ensures OneMore(p.acts, id, old(state.Viewed()), state.Viewed())
    {
      p := Part(calls, Story(env, id, calls));
      ConfigureLaunchedRunner(id, state);
    }

    method KeepUnknown(e: ReportedError, id: InstanceId, state: ReconcileState)
      requires state.Valid()
      modifies state`errors, state`retainedUnknownResourceIds, state`actions
      ensures state.Valid()
      ensures state.Viewed() == old(state.Viewed()).(errors := old(state.errors) + [e]).Retaining({id})
    {
      state.Push(e);
      state.RetainUnknown(id);
    }

    method TerminateRemoved(c: Candidate, state: ReconcileState) returns (done: bool)
      requires state.Valid() && BoundedText(c.runner.instanceId) && BoundedText(c.githubState.runnerName)
      modifies this`calls, state`currentRunners, state`actions, state`errors, state`retainedUnknownResourceIds, state`acts
      ensures state.Valid() && calls == old(calls) + 1 && done == env.terminate(old(calls)).Ok?
      ensures state.acts == old(state.acts) + [Terminate(c.runner.instanceId, old(calls), done)]
      ensures Records(c, if done then Gone else TerminationFailed, old(state.Viewed()), state.Viewed())
    {
      var terminated := AskTermination(c.runner.instanceId, state);
      done := terminated.Ok?;
      match terminated
      case Ok(_) =>
        state.CountTermination();
      case Threw(thrown) =>
        var e := SafeError(Operation.TerminateRunner, thrown, Some(c.githubState.runnerName), Some(c.runner.instanceId));
        KeepUnknown(e, c.runner.instanceId, state);
    }

    /** One attempt: it ends as the answers demand, and the log holds the calls it made. */
    method TerminateKnownIdleRunner(c: Candidate, state: ReconcileState) returns (done: bool)
      requires state.Valid() && BoundedText(c.runner.instanceId) && BoundedText(c.githubState.runnerName)
      modifies this`calls, state`currentRunners, state`actions, state`errors, state`retainedUnknownResourceIds, state`acts
      ensures state.Valid() && done == (EndingAt(env, old(calls)) == Gone)
      ensures calls == old(calls) + |ActsOf(c, Attempt(old(calls), EndingAt(env, old(calls))))|
      ensures state.acts == old(state.acts) + ActsOf(c, Attempt(old(calls), EndingAt(env, old(calls))))
      ensures Records(c, EndingAt(env, old(calls)), old(state.Viewed()), state.Viewed())
    {
      var removal := AskRemoval(c.runner.instanceId, c.githubState.runnerId, c.githubState.runnerName, state);
      done := false;
      if removal == Ok(Removed) {
        RemovedThenTerminated(env, c, calls - 1);
        done := TerminateRemoved(c, state);
      } else {
        RefusedEndsThere(env, c, calls - 1);
        KeepRunner(removal, c, state);
      }
    }

    /** GitHub did not let the runner go. */
    method KeepRunner(removal: Outcome<RemovalStatus>, c: Candidate, state: ReconcileState)
      requires state.Valid() && BoundedText(c.runner.instanceId) && BoundedText(c.githubState.runnerName)
      requires removal != Ok(Removed)
      modifies state`actions, state`errors, state`retainedUnknownResourceIds
      ensures state.Valid()
      ensures Records(c, EndingOf(removal), old(state.Viewed()), state.Viewed())
    {
      match removal
      case Threw(thrown) =>
        var e := SafeError(Operation.RemoveRunner, thrown, Some(c.githubState.runnerName), Some(c.runner.instanceId));
        KeepUnknown(e, c.runner.instanceId, state);
      case Ok(status) =>
        if status == RemovalStatus.RetainedBusy {
          state.CountRetainedBusy();
        } else {
          state.RetainUnknown(c.runner.instanceId);
        }
    }

    method SelectCandidates(runners: seq<OwnedRunner>, index: Index, request: Request, state: ReconcileState)
      returns (candidates: seq<Candidate>)
      requires state.Valid()
      modifies state`retainedUnknownResourceIds, state`actions
      ensures state.Valid()
      ensures candidates == Select(env, request, index, runners).candidates
      ensures state.Viewed() == Selected(old(state.Viewed()), Select(env, request, index, runners))
    {
      candidates := [];
      ghost var was, s := state.Viewed(), Select(env, request, index, []);
      assert was.retained + {} == was.retained;
      var k := 0;
      while k < |runners|
        invariant k <= |runners|
        invariant state.Valid()
        invariant s == Select(env, request, index, runners[..k]) && candidates == s.candidates
        invariant state.Viewed() == Selected(was, s)
      {
        assert runners[..k + 1][..k] == runners[..k];
        SelectedStep(was, s, runners[k].instanceId);
        var verdict := Consider(env, request, index, runners[k]);
        s := Select(env, request, index, runners[..k + 1]);
        match verdict {
          case Superfluous(c) =>
            candidates := candidates + [c];
          case Busy =>
            state.CountRetainedBusy();
          case Unclear =>
            state.RetainUnknown(runners[k].instanceId);
        }
        k := k + 1;
      }
      assert runners[..k] == runners;
    }

    /** Removes candidates in order until `count` are gone; it stops early only when all have been asked. */
    method TerminateInOrder(order: seq<Candidate>, count: nat, state: ReconcileState) returns (ghost attempts: seq<Attempt>)
      requires state.Valid()
      requires forall c :: c in order ==> BoundedText(c.runner.instanceId) && BoundedText(c.githubState.runnerName)
      modifies this`calls, state`currentRunners, state`actions, state`errors, state`retainedUnknownResourceIds, state`acts
      ensures state.Valid()
      ensures Attempted(env, order, attempts, old(calls), old(state.Viewed()), state.Viewed())
      ensures Count(attempts, Gone) <= count
      ensures Count(attempts, Gone) < count ==> |attempts| == |order|
    {
      attempts := [];
      ghost var was, from := state.Viewed(), calls;
      var remaining := count;
      var k := 0;
      while k < |order|
        invariant k <= |order| && state.Valid()
        invariant |attempts| == k && 0 <= remaining == count - Count(attempts, Gone)
        invariant calls == from + |AllActs(order, attempts)|
        invariant Attempted(env, order, attempts, from, was, state.Viewed())
      {
        if remaining == 0 {
          break;
        }
        assert order[k] in order;
        var done;
        done, attempts := TerminateNext(order, k, attempts, from, was, state);
        if done {
          remaining := remaining - 1;
        }
        k := k + 1;
      }
    }

    method TerminateNext(order: seq<Candidate>, k: nat, ghost attempts: seq<Attempt>, ghost from: nat, ghost was: View,
                         state: ReconcileState)
      returns (done: bool, ghost more: seq<Attempt>)
      requires state.Valid() && k == |attempts| < |order|
      requires BoundedText(order[k].runner.instanceId) && BoundedText(order[k].githubState.runnerName)
      requires calls == from + |AllActs(order, attempts)| && Attempted(env, order, attempts, from, was, state.Viewed())
      modifies this`calls, state`currentRunners, state`actions, state`errors, state`retainedUnknownResourceIds, state`acts
      ensures state.Valid() && |more| == k + 1
      ensures calls == from + |AllActs(order, more)| && Attempted(env, order, more, from, was, state.Viewed())
      ensures Count(more, Gone) == Count(attempts, Gone) + (if done then 1 else 0)
    {
      ghost var mid := state.Viewed();
      ghost var a := Attempt(calls, EndingAt(env, calls));
      done := TerminateKnownIdleRunner(order[k], state);
      AttemptedStep(env, order, attempts, from, was, mid, a, state.Viewed());
      AllActsStep(order, attempts, a);
      more := attempts + [a];
    }

    method ScaleDown(runners: seq<OwnedRunner>, count: nat, request: Request, state: ReconcileState)
      returns (ghost order: seq<Candidate>, ghost attempts: seq<Attempt>)
      requires state.Valid() && TotalPreorder(env.idBefore)
      requires forall r :: r in runners ==> BoundedText(r.instanceId) && OptionalBoundedText(r.runnerName)
      modifies this`calls, state`currentRunners, state`actions, state`errors, state`retainedUnknownResourceIds, state`acts
      ensures state.Valid()
      ensures ScaledDown(env, request, runners, count, order, attempts, old(calls), old(state.Viewed()), state.Viewed())
    {
      var index := IndexRunnerStates(request.runnerStates, env.scaleSetId);
      ghost var was, from := state.Viewed(), calls;
      SelectionInOrder(env, request, index, runners);
      CandidatesAreRemovable(env, request, index, runners);
      SelectionIsBounded(env, request, index, runners);
      OrderKeepsLength(env, Select(env, request, index, runners).candidates);
      ghost var mid;
      order, attempts, mid := RemoveSelected(runners, count, index, request, state);
      SelectedThenAttempted(env, request, runners, count, Select(env, request, index, runners), order, attempts,
                            from, was, mid, state.Viewed());
    }

    method RemoveSelected(runners: seq<OwnedRunner>, count: nat, index: Index, request: Request, state: ReconcileState)
      returns (ghost order: seq<Candidate>, ghost attempts: seq<Attempt>, ghost mid: View)
      requires state.Valid()
      requires forall r :: r in runners ==> BoundedText(r.instanceId) && OptionalBoundedText(r.runnerName)
      modifies this`calls, state`currentRunners, state`actions, state`errors, state`retainedUnknownResourceIds, state`acts
      ensures state.Valid()
      ensures order == RemovalOrder(env, Select(env, request, index, runners).candidates)
      ensures mid == Selected(old(state.Viewed()), Select(env, request, index, runners))
      ensures Attempted(env, order, attempts, old(calls), mid, state.Viewed())
      ensures Count(attempts, Gone) <= count
      ensures Count(attempts, Gone) < count ==> |attempts| == |order|
    {
      var candidates := SelectCandidates(runners, index, request, state);
      mid := state.Viewed();
      var sorted := RemovalOrder(env, candidates);
      order := sorted;
      CandidatesArePresentable(env, request, index, runners);
      attempts := TerminateInOrder(sorted, count, state);
    }

    /** One reconciliation, from the inventory to the result reported to the controller. */
    method Reconcile(request: Request) returns (result: Result, state: ReconcileState, ghost course: Course)
      requires WellBehaved(env)
      modifies this`calls
      ensures fresh(state) && state.Valid()
      ensures FollowsCourse(env, request, course, old(calls), state.Viewed(), state.created)
      ensures result.currentRunners == state.currentRunners && result.errors == state.errors
      ensures result.actions == state.actions
      ensures result.currentRunners == state.owned + |state.created| - |TerminatedBy(state.acts)|
      ensures state.owned == (if course.Refused? || course.Unlisted? then 0 else |env.owned.value|)
      ensures env.owned.Ok? && |Filter((r: OwnedRunner) => IsKnown(r), env.owned.value)| >= request.desiredRunners ==>
                state.created == []
      ensures result.status == Failed <==> state.errors != []
      ensures result.status == Converged <==> state.errors == [] && state.currentRunners == request.desiredRunners
      ensures env.owned.Ok? && |env.owned.value| <= MAX_COUNT - MAX_DESIRED_RUNNERS - 1 ==>
                (ProviderResultAccepted(result, request.desiredRunners) <==> |state.errors| <= MAX_ERRORS)
    {
      ghost var from := calls;
      var refusal := RequestError(request);
      if refusal.Some? {
        course := Refused;
        result, state := Fail(refusal.value, request);
        return;
      }
      match env.owned
      case Threw(thrown) =>
        course := Unlisted;
        result, state := Fail(SafeError(Operation.List, thrown, None, None), request);
      case Ok(inventory) =>
        result, state, course := ReconcileInventory(inventory, request);
        TerminationsMatchActs(env, request, course, from, state.Viewed(), state.created);
        EnoughAreKnown(env, request, course, from, state.Viewed(), state.created);
    }

    method Fail(e: ReportedError, request: Request) returns (result: Result, state: ReconcileState)
      ensures fresh(state) && state.Valid() && state.owned == 0 && state.created == []
      ensures state.Viewed() == View(Actions(0, 0, 0, 0), {}, [e], [])
      ensures result == Result(Failed, request.desiredRunners, 0, state.actions, state.errors)
      ensures state.currentRunners == 0
    {
      state := new ReconcileState(0);
      state.Push(e);
      result := state.Finish(request.desiredRunners);
    }

    method ReconcileInventory(inventory: seq<OwnedRunner>, request: Request)
      returns (result: Result, state: ReconcileState, ghost course: Course)
      requires WellBehaved(env) && env.owned == Ok(inventory) && ValidRequest(request)
      modifies this`calls
      ensures fresh(state) && state.Valid() && state.owned == |inventory|
      ensures FollowsCourse(env, request, course, old(calls), state.Viewed(), state.created) && !course.Refused? && !course.Unlisted?
      ensures result.currentRunners == state.currentRunners && result.errors == state.errors
      ensures result.actions == state.actions
      ensures result.status == Failed <==> state.errors != []
      ensures result.status == Converged <==> state.errors == [] && state.currentRunners == request.desiredRunners
      ensures |inventory| <= MAX_COUNT - MAX_DESIRED_RUNNERS - 1 ==>
                (ProviderResultAccepted(result, request.desiredRunners) <==> |state.errors| <= MAX_ERRORS)
    {
      ghost var from := calls;
      state := new ReconcileState(|inventory|);
      course := Steer(inventory, request, state);
      ghost var was := state.Viewed();
      result := state.Finish(request.desiredRunners);
      assert Extends(was.errors, state.errors);
      CourseSurvivesErrors(env, request, course, from, was, state.errors, state.created);
      assert state.Viewed() == was.(errors := state.errors);
      if |inventory| <= MAX_COUNT - MAX_DESIRED_RUNNERS - 1 {
        CourseIsBounded(env, request, course, from, state.Viewed(), state.created);
      }
    }

    /** The choice between launching, removing and leaving things as they are. */
    method Steer(inventory: seq<OwnedRunner>, request: Request, state: ReconcileState) returns (ghost course: Course)
      requires WellBehaved(env) && env.owned == Ok(inventory) && ValidRequest(request)
      requires state.Valid() && state.owned == |inventory|
      requires state.Viewed() == View(Actions(0, 0, 0, 0), {}, [], []) && state.created == []
      modifies this`calls, state
      ensures state.Valid() && !course.Refused? && !course.Unlisted?
      ensures FollowsCourse(env, request, course, old(calls), state.Viewed(), state.created)
    {
      var serving := ServingCapacity(inventory, request, state);
      ghost var mid := state.Viewed();
      assert mid == Surveyed(env, request, inventory);
      ServingOrIdle(env, request, inventory);
      course := AtRest;
      if |serving| < request.desiredRunners {
        var capacityDeficit := request.desiredRunners - |serving|;
        var availableReplacementSlots :=
          Max(0, request.desiredRunners + RETAINED_CAPACITY_REPLACEMENT_SURGE - |inventory|);
        var launchCount := Min(capacityDeficit, availableReplacementSlots);
        if launchCount > 0 {
          course := Grow(|serving|, launchCount, request, state);
        }
      } else if |serving| > request.desiredRunners {
        course := Shrink(serving, request, state);
      }
    }

    method Shrink(serving: seq<OwnedRunner>, request: Request, state: ReconcileState) returns (ghost course: Course)
      requires WellBehaved(env) && env.owned.Ok? && ValidRequest(request)
      requires state.Valid() && state.created == [] && state.Viewed() == Surveyed(env, request, env.owned.value)
      requires serving == Serving(env, request, env.owned.value) && |serving| > request.desiredRunners
      modifies this`calls, state
      ensures state.Valid() && course.Shrunk?
      ensures FollowsCourse(env, request, course, old(calls), state.Viewed(), state.created)
    {
      ServingOrIdle(env, request, env.owned.value);
      ghost var from := calls;
      ghost var order, attempts := ScaleDown(serving, |serving| - request.desiredRunners, request, state);
      course := Shrunk(order, attempts);
      ShrinkageFollows(env, request, order, attempts, from, state.Viewed());
    }

    method Grow(serving: nat, launchCount: nat, request: Request, state: ReconcileState) returns (ghost course: Course)
      requires WellBehaved(env) && env.owned.Ok? && ValidRequest(request)
      requires state.Valid() && state.created == [] && state.Viewed() == Surveyed(env, request, env.owned.value)
      requires serving == |Serving(env, request, env.owned.value)| < request.desiredRunners
      requires IsLaunchCount(serving, |env.owned.value|, request.desiredRunners, launchCount)
      modifies this`calls, state
      ensures state.Valid() && course.Grown?
      ensures FollowsCourse(env, request, course, old(calls), state.Viewed(), state.created)
    {
      ghost var from := calls;
      ghost var ids, parts := ScaleUp(launchCount, state);
      course := Grown(parts);
      assert state.created == ids;
      GrowthFollows(env, request, launchCount, parts, from, state.Viewed(), ids);
    }
  }

  /** The ways a reconciliation can go. */
  datatype Course =
    | Refused
    | Unlisted
    | AtRest
    | Grown(parts: seq<Part>)
    | Shrunk(order: seq<Candidate>, attempts: seq<Attempt>)

  /** After the inventory: every runner that does not serve is retained, nothing else has happened. */
  ghost function Surveyed(env: Environment, request: Request, inventory: seq<OwnedRunner>): View {
    var idle := Idle(env, request, inventory);
    View(Actions(0, 0, 0, |idle|), idle, [], [])
  }

  /** The most that may be launched: up to the target, and to one more than it in owned capacity. */
  ghost predicate IsLaunchCount(serving: nat, owned: nat, desired: int, n: nat) {
    && n > 0 && serving + n <= desired && owned + n <= desired + 1
    && (serving + n == desired || owned + n == desired + 1)
  }

  /**
   What each course amounts to. Launching never takes the owned capacity beyond one more than
   desired, unless it was there already, and removing never leaves fewer serving than desired.
   */
  ghost predicate FollowsCourse(
    env: Environment, request: Request, course: Course, from: nat, now: View, created: seq<InstanceId>) {
    match course
    case Refused =>
      && !ValidRequest(request)
      && created == [] && now == View(Actions(0, 0, 0, 0), {}, now.errors, []) && now.errors != []
    case Unlisted =>
      && ValidRequest(request) && env.owned.Threw?
      && created == [] && now == View(Actions(0, 0, 0, 0), {}, now.errors, []) && now.errors != []
    case AtRest =>
      && ValidRequest(request) && env.owned.Ok?
      && created == [] && now == Surveyed(env, request, env.owned.value).(errors := now.errors)
      && (|Serving(env, request, env.owned.value)| == request.desiredRunners
          || (|Serving(env, request, env.owned.value)| < request.desiredRunners < |env.owned.value|))
    case Grown(parts) =>
      && ValidRequest(request) && env.owned.Ok?
      && (exists n: nat ::
            && IsLaunchCount(|Serving(env, request, env.owned.value)|, |env.owned.value|, request.desiredRunners, n)
            && created == if env.create(n).Ok? then env.create(n).value.instances else [])
      && |Serving(env, request, env.owned.value)| + |created| <= request.desiredRunners
      && |env.owned.value| + |created| <= Max(|env.owned.value|, request.desiredRunners + 1)
      && ScaledUp(StoryTeller(env), created, parts, from, Surveyed(env, request, env.owned.value), now)
    case Shrunk(order, attempts) =>
      && ValidRequest(request) && env.owned.Ok? && created == []
      && var serving := Serving(env, request, env.owned.value);
      && |serving| > request.desiredRunners
      && |serving| - Count(attempts, Gone) >= request.desiredRunners
      && ScaledDown(env, request, serving, |serving| - request.desiredRunners, order, attempts, from,
                    Surveyed(env, request, env.owned.value), now)
  }

  lemma GrowthFollows(env: Environment, request: Request, n: nat, parts: seq<Part>, from: nat,
                      now: View, created: seq<InstanceId>)
    requires ValidRequest(request) && env.owned.Ok?
    requires |Serving(env, request, env.owned.value)| < request.desiredRunners
    requires IsLaunchCount(|Serving(env, request, env.owned.value)|, |env.owned.value|, request.desiredRunners, n)
    requires created == (if env.create(n).Ok? then env.create(n).value.instances else []) && |created| <= n
    requires ScaledUp(StoryTeller(env), created, parts, from, Surveyed(env, request, env.owned.value), now)
    ensures FollowsCourse(env, request, Grown(parts), from, now, created)
  {
  }

  lemma ShrinkageFollows(env: Environment, request: Request, order: seq<Candidate>, attempts: seq<Attempt>, from: nat, now: View)
    requires ValidRequest(request) && env.owned.Ok?
    requires var serving := Serving(env, request, env.owned.value);
             && |serving| > request.desiredRunners
             && Count(attempts, Gone) <= |serving| - request.desiredRunners
             && ScaledDown(env, request, serving, |serving| - request.desiredRunners, order, attempts, from,
                           Surveyed(env, request, env.owned.value), now)
    ensures FollowsCourse(env, request, Shrunk(order, attempts), from, now, [])
  {
  }

  lemma CourseSurvivesErrors(
    env: Environment, request: Request, course: Course, from: nat, now: View, more: seq<Error>, created: seq<InstanceId>)
    requires FollowsCourse(env, request, course, from, now, created) && Extends(now.errors, more)
    ensures FollowsCourse(env, request, course, from, now.(errors := more), created)
  {
    if course.Grown? {
      EachShowsGrows(created, course.parts, now.retained, now.errors, more);
    }
  }

  /** A set of listed ids is no larger than the list. */
  lemma {:induction false} ListedIsBounded(ids: set<InstanceId>, list: seq<InstanceId>)
    requires forall x :: x in ids ==> x in list
    ensures |ids| <= |list|
  {
    if list != [] {
      ListedIsBounded(ids - {list[0]}, list[1..]);
      assert |ids| <= |(ids - {list[0]}) + {list[0]}|;
    } else {
      assert ids == {};
    }
  }

  ghost function InventoryIds(inventory: seq<OwnedRunner>): seq<InstanceId> {
    seq(|inventory|, i requires 0 <= i < |inventory| => inventory[i].instanceId)
  }

  lemma InstanceIsListed(inventory: seq<OwnedRunner>, r: OwnedRunner)
    requires r in inventory
    ensures r.instanceId in InventoryIds(inventory)
  {
    var k :| 0 <= k < |inventory| && inventory[k] == r;
    assert InventoryIds(inventory)[k] == r.instanceId;
  }

  lemma RetainedIsKnown(env: Environment, request: Request, course: Course, from: nat, now: View, created: seq<InstanceId>, x: InstanceId)
    requires FollowsCourse(env, request, course, from, now, created) && env.owned.Ok? && x in now.retained
    ensures x in InventoryIds(env.owned.value) || x in created
  {
    var inventory := env.owned.value;
    ServingOrIdle(env, request, inventory);
    if x in Idle(env, request, inventory) {
      var r :| r in inventory && !Serves(env, request, r) && r.instanceId == x;
      InstanceIsListed(inventory, r);
    } else if course.Shrunk? {
      var serving := Serving(env, request, inventory);
      assert x in now.retained - Surveyed(env, request, inventory).retained;
      var r :| r in serving && r.instanceId == x;
      InstanceIsListed(inventory, r);
    }
  }

  lemma RetainedAreKnown(env: Environment, request: Request, course: Course, from: nat, now: View, created: seq<InstanceId>)
    requires FollowsCourse(env, request, course, from, now, created) && env.owned.Ok?
    ensures |now.retained| <= |env.owned.value| + |created|
  {
    var ids := InventoryIds(env.owned.value);
    forall x | x in now.retained ensures x in ids + created {
      RetainedIsKnown(env, request, course, from, now, created, x);
    }
    ListedIsBounded(now.retained, ids + created);
  }

  /** The counters stay in the range the controller accepts, and no more runners end than there were. */
  lemma CourseIsBounded(env: Environment, request: Request, course: Course, from: nat, now: View, created: seq<InstanceId>)
    requires FollowsCourse(env, request, course, from, now, created)
    requires env.owned.Ok? && |env.owned.value| <= MAX_COUNT - MAX_DESIRED_RUNNERS - 1
    requires now.actions.retainedUnknown == |now.retained|
    ensures BoundedActions(now.actions)
    ensures course.Refused? || BoundedCount(|env.owned.value| + |created| - now.actions.terminated)
  {
    RetainedAreKnown(env, request, course, from, now, created);
    ServingOrIdle(env, request, env.owned.value);
    if course.Grown? {
      LaunchesAndDiscards(course.parts);
    }
  }

  /**
   Nothing ends except a removable runner that GitHub has just let go, in the call before, or a new instance whose
   configuration nobody tried to publish.
   */
  lemma OnlyIdleAreTerminated(
    env: Environment, request: Request, course: Course, from: nat, now: View, created: seq<InstanceId>, i: nat)
    requires FollowsCourse(env, request, course, from, now, created)
    requires i < |now.acts| && now.acts[i].Terminate?
    ensures course.Grown? || course.Shrunk?
    ensures course.Grown? ==> IsOnCreated(env, created, now.acts[i])
    ensures course.Shrunk? ==>
              && FollowsRemoval(env, course.order, now.acts, i)
              && forall c :: c in course.order ==>
                   c.runner in env.owned.value && Removable(env, request, c.runner) && Identifies(env, c)
  {
    if course.Shrunk? {
      assert [] + AllActs(course.order, course.attempts) == AllActs(course.order, course.attempts);
      AllActsAreSafe(env, course.order, course.attempts, from, i);
      ServingOrIdle(env, request, env.owned.value);
    } else if course.Grown? {
      assert [] + ActsIn(course.parts) == ActsIn(course.parts);
      ActsAreOnCreated(env, created, course.parts, from, i);
    }
  }

  /** The log is true on every course: each act was answered as that call is answered, one call after the other. */
  lemma ActsAreTrue(env: Environment, request: Request, course: Course, from: nat, now: View, created: seq<InstanceId>)
    requires FollowsCourse(env, request, course, from, now, created)
    ensures TrueFrom(env, now.acts, from)
  {
    if course.Shrunk? {
      assert [] + AllActs(course.order, course.attempts) == AllActs(course.order, course.attempts);
      AllActsAreTrue(env, course.order, course.attempts, from);
    } else if course.Grown? {
      assert [] + ActsIn(course.parts) == ActsIn(course.parts);
      StoriesTellTruth(env);
      StoriesAreTrue(env, StoryTeller(env), created, course.parts, from);
    }
  }

  /** The counter of terminated runners is the number of instances that were ended. */
  lemma TerminationsMatchActs(env: Environment, request: Request, course: Course, from: nat, now: View, created: seq<InstanceId>)
    requires FollowsCourse(env, request, course, from, now, created)
    ensures now.actions.terminated == |TerminatedBy(now.acts)|
  {
    if course.Shrunk? {
      assert [] + AllActs(course.order, course.attempts) == AllActs(course.order, course.attempts);
      TerminationsAreCounted(course.order, course.attempts);
    } else if course.Grown? {
      assert [] + ActsIn(course.parts) == ActsIn(course.parts);
      StoriesTellTruth(env);
      StoriesAreTrue(env, StoryTeller(env), created, course.parts, from);
    }
  }

  /** While enough owned runners are known, nothing is created; at rest, only those are retained that are neither known nor young. */
  lemma EnoughAreKnown(env: Environment, request: Request, course: Course, from: nat, now: View, created: seq<InstanceId>)
    requires FollowsCourse(env, request, course, from, now, created)
    ensures env.owned.Ok? && |Filter((r: OwnedRunner) => IsKnown(r), env.owned.value)| >= request.desiredRunners ==> created == []
    ensures course.AtRest? ==> forall id :: id in now.retained <==>
              exists r :: r in env.owned.value && r.instanceId == id && !IsKnown(r) && !IsYoung(request, r, env.now)
  {
    if env.owned.Ok? {
      KnownServe(env, request, env.owned.value);
      ServingAreKnownOrYoung(env, request, env.owned.value);
    }
  }
}
