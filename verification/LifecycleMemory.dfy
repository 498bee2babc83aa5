/**
 What the controller remembers of the jobs its runners started and completed, in the order in which
 runners were first heard of, and what this memory lets the provider remove.
 */
module LifecycleMemory {
  import opened Prelude
  import opened RunnerStates
  import opened ScaleSetInventory
  import opened ScaleSetScaleDown

  datatype Observation = Observation(runnerId: int, runnerName: string, lifecycle: Lifecycle)

  /** A job message about a runner, or the clean-up after a message has been dealt with. */
  datatype Event = Observed(o: Observation) | Dealt(runnerId: int, runnerName: string)

  predicate IsValid(o: Observation) {
    0 < o.runnerId <= MAX_SAFE_INTEGER && o.runnerName != ""
  }

  /** A named runner with an id that is an exact integer in a double. */
  ghost predicate Counts(o: Observation) {
    |o.runnerName| >= 1 && 1 <= o.runnerId <= 9007199254740991
  }

  ghost predicate DistinctNames(s: seq<Observation>) {
    forall i, j :: 0 <= i < j < |s| ==> s[i].runnerName != s[j].runnerName
  }

  /** Where the name is remembered, or the length. */
  function IndexOf(s: seq<Observation>, name: string): (i: nat)
    ensures i <= |s|
    ensures i < |s| ==> s[i].runnerName == name
    ensures forall j :: 0 <= j < i ==> s[j].runnerName != name
  {
    if s == [] || s[0].runnerName == name then 0 else 1 + IndexOf(s[1..], name)
  }

  ghost function Without(s: seq<Observation>, i: nat): seq<Observation>
    requires i < |s|
  {
    s[..i] + s[i + 1..]
  }

  /** A known name keeps its place, a new one goes to the end, and the oldest make room. */
  ghost function Remembering(s: seq<Observation>, limit: nat, o: Observation): seq<Observation> {
    var i := IndexOf(s, o.runnerName);
    if !Counts(o) then s
    else if i < |s| && s[i].runnerId != o.runnerId then Without(s, i)
    else
      var more := if i < |s| then s[i := o] else s + [o];
      if |more| > limit then more[|more| - limit..] else more
  }

  ghost function Forgetting(s: seq<Observation>, runnerId: int, name: string): seq<Observation> {
    var i := IndexOf(s, name);
    if i < |s| && s[i].runnerId == runnerId && s[i].lifecycle == Completed then Without(s, i) else s
  }

  ghost function Step(s: seq<Observation>, limit: nat, e: Event): seq<Observation> {
    match e
    case Observed(o) => Remembering(s, limit, o)
    case Dealt(id, name) => Forgetting(s, id, name)
  }

  ghost function After(limit: nat, run: seq<Event>): seq<Observation> {
    if run == [] then [] else Step(After(limit, run[..|run| - 1]), limit, run[|run| - 1])
  }

  /** The last valid observation of a name. */
  ghost function Latest(run: seq<Event>, name: string): Option<Observation> {
    if run == [] then None
    else
      var last := run[|run| - 1];
      if last.Observed? && Counts(last.o) && last.o.runnerName == name then Some(last.o)
      else Latest(run[..|run| - 1], name)
  }

  /** Each name once, never more than allowed, and nothing but the last that was heard of each. */
  ghost predicate UpToDate(s: seq<Observation>, limit: nat, run: seq<Event>) {
    && DistinctNames(s) && |s| <= limit
    && forall o :: o in s ==> Counts(o) && Latest(run, o.runnerName) == Some(o)
  }

  lemma WithoutKeepsNames(s: seq<Observation>, i: nat)
    requires DistinctNames(s) && i < |s|
    ensures DistinctNames(Without(s, i)) && forall x :: x in Without(s, i) ==> x in s
  {
  }

  /** The name's place holds the new observation, the others are as before. */
  lemma PutKeepsNames(s: seq<Observation>, o: Observation)
    requires DistinctNames(s)
    ensures var i := IndexOf(s, o.runnerName);
            var more := if i < |s| then s[i := o] else s + [o];
            DistinctNames(more) && forall x :: x in more ==> x == o || (x in s && x.runnerName != o.runnerName)
  {
  }

  lemma RememberingKeepsNames(s: seq<Observation>, limit: nat, o: Observation)
    requires DistinctNames(s) && |s| <= limit && Counts(o)
    ensures var now := Remembering(s, limit, o);
            && DistinctNames(now) && |now| <= limit
            && forall x :: x in now ==> x == o || (x in s && x.runnerName != o.runnerName)
  {
    var i := IndexOf(s, o.runnerName);
    if i < |s| && s[i].runnerId != o.runnerId {
      WithoutKeepsNames(s, i);
      forall k | 0 <= k < |Without(s, i)| ensures Without(s, i)[k].runnerName != o.runnerName {
        assert Without(s, i)[k] == s[if k < i then k else k + 1];
      }
    } else {
      PutKeepsNames(s, o);
    }
  }

  lemma RememberingIsUpToDate(s: seq<Observation>, limit: nat, run: seq<Event>, o: Observation)
    requires UpToDate(s, limit, run)
    ensures UpToDate(Remembering(s, limit, o), limit, run + [Observed(o)])
  {
    var now := Remembering(s, limit, o);
    var longer := run + [Observed(o)];
    assert longer[..|run|] == run;
    if Counts(o) {
      RememberingKeepsNames(s, limit, o);
    }
    forall x | x in now ensures Counts(x) && Latest(longer, x.runnerName) == Some(x) {
      assert x == o || x in s;
    }
  }

  lemma ForgettingIsUpToDate(s: seq<Observation>, limit: nat, run: seq<Event>, id: int, name: string)
    requires UpToDate(s, limit, run)
    ensures UpToDate(Forgetting(s, id, name), limit, run + [Dealt(id, name)])
  {
    var longer := run + [Dealt(id, name)];
    assert longer[..|run|] == run;
    var i := IndexOf(s, name);
    if i < |s| {
      WithoutKeepsNames(s, i);
    }
    forall x | x in Forgetting(s, id, name) ensures Counts(x) && Latest(longer, x.runnerName) == Some(x) {
      assert x in s;
    }
  }

  /** In every run the memory holds only the latest observation of a runner. */
  lemma {:induction false} MemoryIsUpToDate(limit: nat, run: seq<Event>)
    ensures UpToDate(After(limit, run), limit, run)
  {
    if run != [] {
      var before, last := run[..|run| - 1], run[|run| - 1];
      MemoryIsUpToDate(limit, before);
      assert run == before + [last];
      match last
      case Observed(o) => RememberingIsUpToDate(After(limit, before), limit, before, o);
      case Dealt(id, name) => ForgettingIsUpToDate(After(limit, before), limit, before, id, name);
    }
  }

  ghost function StateOf(o: Observation, scaleSetId: int): RunnerState {
    RunnerState(o.runnerId, o.runnerName, scaleSetId, UnknownStatus, None, o.lifecycle)
  }

  ghost function LifecycleStates(s: seq<Observation>, scaleSetId: int): seq<RunnerState> {
    seq(|s|, i requires 0 <= i < |s| => StateOf(s[i], scaleSetId))
  }

  class Memory {
    const limit: nat
    var entries: seq<Observation>
    ghost var run: seq<Event>

    ghost predicate Valid()
      reads this
    {
      entries == After(limit, run)
    }

    constructor (maxRunners: nat)
      ensures Valid() && run == [] && 1000 <= limit <= 20000
    {
      limit := Min(20000, Max(1000, maxRunners * 4));
      entries, run := [], [];
    }

    method RememberLifecycle(o: Observation)
      requires Valid()
      modifies this`entries, this`run
      ensures Valid() && run == old(run) + [Observed(o)]
    {
      assert (run + [Observed(o)])[..|run|] == run;
      run := run + [Observed(o)];
      if !IsValid(o) {
        return;
      }
      var i := IndexOf(entries, o.runnerName);
      if i < |entries| && entries[i].runnerId != o.runnerId {
        entries := entries[..i] + entries[i + 1..];
        return;
      }
      entries := if i < |entries| then entries[i := o] else entries + [o];
      ghost var more := entries;
      ghost var gone := 0;
      while |entries| > limit
        invariant run == old(run) + [Observed(o)]
        invariant gone <= |more| && entries == more[gone..]
        invariant gone == 0 || |entries| >= limit
      {
        entries := entries[1..];
        gone := gone + 1;
      }
    }

    method PruneCompleted(runnerId: int, runnerName: string)
      requires Valid()
      modifies this`entries, this`run
      ensures Valid() && run == old(run) + [Dealt(runnerId, runnerName)]
    {
      assert (run + [Dealt(runnerId, runnerName)])[..|run|] == run;
      run := run + [Dealt(runnerId, runnerName)];
      var i := IndexOf(entries, runnerName);
      if i < |entries| && entries[i].runnerId == runnerId && entries[i].lifecycle == Completed {
        entries := entries[..i] + entries[i + 1..];
      }
    }

    method ObserveLifecycle(started: seq<(int, string)>, completed: seq<(int, string)>)
      requires Valid()
      modifies this`entries, this`run
      ensures Valid()
      ensures run == old(run) + Observations(started, Started) + Observations(completed, Completed)
    {
      ObserveAll(started, Started);
      ObserveAll(completed, Completed);
    }

    method ObserveAll(runners: seq<(int, string)>, lifecycle: Lifecycle)
      requires Valid()
      modifies this`entries, this`run
      ensures Valid() && run == old(run) + Observations(runners, lifecycle)
    {
      for k := 0 to |runners|
        invariant Valid() && run == old(run) + Observations(runners[..k], lifecycle)
      {
        RememberLifecycle(Observation(runners[k].0, runners[k].1, lifecycle));
        assert Observations(runners[..k + 1], lifecycle)
            == Observations(runners[..k], lifecycle) + [Observed(Observation(runners[k].0, runners[k].1, lifecycle))];
      }
      assert runners[..|runners|] == runners;
    }
  }

  ghost function Observations(runners: seq<(int, string)>, lifecycle: Lifecycle): seq<Event> {
    seq(|runners|, i requires 0 <= i < |runners| => Observed(Observation(runners[i].0, runners[i].1, lifecycle)))
  }

  /**
   What the memory allows, over every run of messages: a runner with a matching observation may go only if the last
   thing heard of its name is that it completed, under its own id; and a runner without any observation only
   while no runner at all is busy.
   */
  lemma OnlyCompletedMayGo(env: Environment, request: Request, limit: nat, run: seq<Event>, r: OwnedRunner)
    requires request.runnerStates == LifecycleStates(After(limit, run), env.scaleSetId)
    requires Removable(env, request, r)
    ensures HasIdentity(r)
    ensures || Latest(run, r.runnerName.value) == Some(Observation(r.githubRunnerId.value, r.runnerName.value, Completed))
            || request.busyRunners == 0
  {
    MemoryIsUpToDate(limit, run);
    var memory := After(limit, run);
    if s :| RunnerStates.Observed(request.runnerStates, env.scaleSetId, r, s) && !IsBusyState(s) && IsSafeScaleDownState(s) {
      var i :| OnlyObservation(request.runnerStates, env.scaleSetId, r, i) && request.runnerStates[i] == s;
      assert s == StateOf(memory[i], env.scaleSetId);
      assert memory[i] in memory;
    }
  }

  /** A runner whose last message says that it started is not removed while it is remembered. */
  lemma StartedRunnerStays(env: Environment, request: Request, limit: nat, run: seq<Event>, r: OwnedRunner, o: Observation)
    requires request.runnerStates == LifecycleStates(After(limit, run), env.scaleSetId)
    requires o in After(limit, run) && o.lifecycle == Started
    requires r.runnerName == Some(o.runnerName) && |o.runnerName| <= GITHUB_RUNNER_NAME_MAX_LENGTH
    requires 0 < env.scaleSetId <= MAX_SAFE_INTEGER
    ensures !Removable(env, request, r)
  {
    MemoryIsUpToDate(limit, run);
    var memory := After(limit, run);
    var k :| 0 <= k < |memory| && memory[k] == o;
    var states := request.runnerStates;
    assert states[k] == StateOf(o, env.scaleSetId);
    assert Named(states, env.scaleSetId, k, o.runnerName);
    forall s | RunnerStates.Observed(states, env.scaleSetId, r, s) ensures s == states[k] {
      var i :| OnlyObservation(states, env.scaleSetId, r, i) && states[i] == s;
      assert states[i] == StateOf(memory[i], env.scaleSetId);
    }
  }

  /** The work that is assigned is always wanted, and beyond it no more than the configured maximum. */
  function DesiredRunners(totalAssignedJobs: nat, minRunners: nat, maxRunners: nat): (desired: nat)
    ensures totalAssignedJobs <= desired <= Max(totalAssignedJobs, maxRunners)
    ensures desired <= totalAssignedJobs + minRunners
    ensures totalAssignedJobs + minRunners <= maxRunners ==> desired == totalAssignedJobs + minRunners
    ensures totalAssignedJobs <= maxRunners <= totalAssignedJobs + minRunners ==> desired == maxRunners
  {
    Max(totalAssignedJobs, Min(maxRunners, minRunners + totalAssignedJobs))
  }
}
