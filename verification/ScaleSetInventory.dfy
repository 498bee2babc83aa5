/** What one reconciliation is asked, what the outside world answers, and which of the listed runners serve. */
module ScaleSetInventory {
  import opened Prelude
  import opened StableSort
  import opened RunnerStates
  import opened ReconcileState

  const RETAINED_CAPACITY_REPLACEMENT_SURGE: int := 1
  const SSM_ADVANCED_TIER_MAX_BYTES: int := 8192
  const MAX_DESIRED_RUNNERS: int := 10000
  const MAX_BOOT_TIMEOUT_MINUTES: int := 120

  datatype Request = Request(
    desiredRunners: int, busyRunners: int, bootTimeoutMinutes: int, runnerStates: seq<RunnerState>)

  datatype Jit = Jit(runnerId: int, runnerName: string, scaleSetId: int, bytes: nat)

  datatype Creation = Creation(instances: seq<InstanceId>, failedInstanceCount: int)

  /**
   The outside world of one run. `create` answers a launch of so many runners; the other calls are
   answered by the number of the call. `idBefore` is the locale's order of instance ids.
   */
  datatype Environment = Environment(
    scaleSetId: int,
    runnerNamePrefix: string,
    now: int,
    idBefore: (InstanceId, InstanceId) -> bool,
    owned: Outcome<seq<OwnedRunner>>,
    create: int -> Outcome<Creation>,
    jit: nat -> Outcome<Jit>,
    tag: nat -> Outcome<()>,
    publish: nat -> Outcome<()>,
    remove: nat -> Outcome<RemovalStatus>,
    terminate: nat -> Outcome<()>)

  /** A configuration is good when it is for the very runner that was asked for. */
  predicate IsExpectedJit(env: Environment, jit: Jit, runnerName: string) {
    && 0 < jit.runnerId <= MAX_SAFE_INTEGER && jit.runnerName == runnerName && jit.scaleSetId == env.scaleSetId
    && 0 < jit.bytes <= SSM_ADVANCED_TIER_MAX_BYTES
  }

  /** The call brings a configuration that fits the parameter store, for the runner of this name in this scale set. */
  ghost predicate GeneratesGoodJit(env: Environment, id: InstanceId, call: nat) {
    match env.jit(call)
    case Threw(_) => false
    case Ok(Jit(runnerId, runnerName, scaleSetId, bytes)) =>
      && runnerName == env.runnerNamePrefix + id && scaleSetId == env.scaleSetId
      && 1 <= runnerId <= 9007199254740991 && 1 <= bytes <= 8192
  }

  ghost function StatusOf(outcome: Outcome<RemovalStatus>): Option<RemovalStatus> {
    if outcome.Ok? then Some(outcome.value) else None
  }

  /** The act was answered as the outside world answers that call. */
  ghost predicate IsTrue(env: Environment, act: Act) {
    match act
    case Generate(id, call, ok) => ok == GeneratesGoodJit(env, id, call)
    case Tag(_, call, ok) => ok == env.tag(call).Ok?
    case Publish(_, call, ok) => ok == env.publish(call).Ok?
    case Remove(_, _, _, call, answer) => answer == StatusOf(env.remove(call))
    case Terminate(_, call, ok) => ok == env.terminate(call).Ok?
  }

  /** Every act is true, and the calls are numbered through from `from`. */
  ghost predicate TrueFrom(env: Environment, acts: seq<Act>, from: nat) {
    forall i :: 0 <= i < |acts| ==> IsTrue(env, acts[i]) && acts[i].call == from + i
  }

  ghost predicate GivesPresentableName(env: Environment, id: InstanceId) {
    BoundedText(id) && (|env.runnerNamePrefix + id| <= 256 ==> BoundedText(env.runnerNamePrefix + id))
  }

  /** Ids and names are short printable text, and a launch returns no more than it was asked for. */
  ghost predicate WellBehaved(env: Environment) {
    && (env.owned.Ok? ==> forall r :: r in env.owned.value ==>
          BoundedText(r.instanceId) && OptionalBoundedText(r.runnerName))
    && (forall n :: n >= 0 && env.create(n).Ok? ==>
          && |env.create(n).value.instances| <= n
          && forall id :: id in env.create(n).value.instances ==> GivesPresentableName(env, id))
    && TotalPreorder(env.idBefore)
  }

  ghost predicate ValidRequest(r: Request) {
    0 <= r.desiredRunners <= 10000 && 0 <= r.busyRunners <= 2147483647 && 1 <= r.bootTimeoutMinutes <= 120
  }

  const INVALID_DESIRED: ReportedError := Error(Validate, "INVALID_DESIRED_RUNNER_COUNT", None, None)
  const INVALID_BUSY: ReportedError := Error(Validate, "INVALID_BUSY_RUNNER_COUNT", None, None)
  const INVALID_TIMEOUT: ReportedError := Error(Validate, "INVALID_BOOT_TIMEOUT", None, None)

  function RequestError(r: Request): Option<ReportedError> {
    if !(0 <= r.desiredRunners <= MAX_DESIRED_RUNNERS) then Some(INVALID_DESIRED)
    else if !(0 <= r.busyRunners <= MAX_COUNT) then Some(INVALID_BUSY)
    else if !(1 <= r.bootTimeoutMinutes <= MAX_BOOT_TIMEOUT_MINUTES) then Some(INVALID_TIMEOUT)
    else None
  }

  predicate IsWithinBootTimeout(r: OwnedRunner, bootTimeoutMinutes: int, now: int) {
    r.launchTime.Some? && 0 <= now - r.launchTime.value < bootTimeoutMinutes * 60000
  }

  predicate IsConfirmedServing(s: RunnerState) {
    s.lifecycle == Started || s.status == Online
  }

  predicate IsSafeScaleDownState(s: RunnerState) {
    s.busy == Some(false) || (s.lifecycle == Completed && s.busy != Some(true))
  }

  predicate IsBusyState(s: RunnerState) {
    s.lifecycle == Started || s.busy == Some(true)
  }

  predicate HasIdentity(r: OwnedRunner) {
    r.githubRunnerId.Some? && r.runnerName.Some?
  }

  /** What counts as serving, without asking GitHub: a published runner that is young or known by name and id. */
  ghost predicate Serves(env: Environment, request: Request, r: OwnedRunner) {
    && r.phase == Some(ConfigPublished)
    && (HasIdentity(r) || IsWithinBootTimeout(r, request.bootTimeoutMinutes, env.now))
  }

  /** Who serves, in order, and the instances that do not. */
  datatype Survey = Survey(serving: seq<OwnedRunner>, idle: set<InstanceId>)

  ghost function SurveyOf(env: Environment, request: Request, runners: seq<OwnedRunner>): Survey {
    if runners == [] then Survey([], {})
    else
      var last := runners[|runners| - 1];
      var s := SurveyOf(env, request, runners[..|runners| - 1]);
      if Serves(env, request, last) then s.(serving := s.serving + [last]) else s.(idle := s.idle + {last.instanceId})
  }

  ghost function Serving(env: Environment, request: Request, runners: seq<OwnedRunner>): seq<OwnedRunner> {
    SurveyOf(env, request, runners).serving
  }

  ghost function Idle(env: Environment, request: Request, runners: seq<OwnedRunner>): set<InstanceId> {
    SurveyOf(env, request, runners).idle
  }

  /** Published, with the name and id GitHub knows it by. */
  ghost predicate IsKnown(r: OwnedRunner) {
    r.phase == Some(ConfigPublished) && r.githubRunnerId.Some? && r.runnerName.Some?
  }

  /** Published, and launched less than the boot timeout ago. */
  ghost predicate IsYoung(request: Request, r: OwnedRunner, now: int) {
    && r.phase == Some(ConfigPublished)
    && r.launchTime.Some? && 0 <= now - r.launchTime.value < request.bootTimeoutMinutes * 60000
  }

  lemma ServesExactly(env: Environment, request: Request, r: OwnedRunner)
    ensures Serves(env, request, r) <==> IsKnown(r) || IsYoung(request, r, env.now)
  {
  }

  /** The runners that serve are the known ones, at any age, and the young ones, in order; all the others are idle. */
  lemma {:induction false} ServingAreKnownOrYoung(env: Environment, request: Request, runners: seq<OwnedRunner>)
    ensures Serving(env, request, runners) == Filter((r: OwnedRunner) => IsKnown(r) || IsYoung(request, r, env.now), runners)
    ensures forall id :: id in Idle(env, request, runners) <==>
              exists r :: r in runners && r.instanceId == id && !IsKnown(r) && !IsYoung(request, r, env.now)
  {
    ServingOrIdle(env, request, runners);
    if runners != [] {
      var k := |runners| - 1;
      ServingAreKnownOrYoung(env, request, runners[..k]);
      assert runners == runners[..k] + [runners[k]];
      FilterAppend((r: OwnedRunner) => IsKnown(r) || IsYoung(request, r, env.now), runners[..k], [runners[k]]);
    }
  }

  /** As many serve, at least, as are known. */
  lemma KnownServe(env: Environment, request: Request, runners: seq<OwnedRunner>)
    ensures |Filter((r: OwnedRunner) => IsKnown(r), runners)| <= |Serving(env, request, runners)|
  {
    ServingAreKnownOrYoung(env, request, runners);
    FilterGrows((r: OwnedRunner) => IsKnown(r), (r: OwnedRunner) => IsKnown(r) || IsYoung(request, r, env.now), runners);
  }

  /** Serving runners and idle ids share out the inventory. */
  lemma {:induction false} ServingOrIdle(env: Environment, request: Request, runners: seq<OwnedRunner>)
    ensures |Serving(env, request, runners)| <= |runners|
    ensures forall r :: r in Serving(env, request, runners) <==> r in runners && Serves(env, request, r)
    ensures forall id :: id in Idle(env, request, runners)
                         <==> exists r :: r in runners && !Serves(env, request, r) && r.instanceId == id
  {
    if runners != [] {
      var init, last := runners[..|runners| - 1], runners[|runners| - 1];
      ServingOrIdle(env, request, init);
      assert runners == init + [last] && last in runners;
      forall id ensures id in Idle(env, request, runners)
                        <==> exists r :: r in runners && !Serves(env, request, r) && r.instanceId == id {
        if id in Idle(env, request, init) {
          var r :| r in init && !Serves(env, request, r) && r.instanceId == id;
          assert r in runners;
        }
      }
    }
  }
}
