/**
 From a number of requested runners to registered instances: EC2 requests with on-demand failover,
 classification of what is missing, registration, clean-up, and the split between warm and cold.
 At every layer each requested runner is accounted for exactly once.
 */
module RunnerCreation {
  import opened Prelude
  import WarmIndex
  import WarmActivation

  type InstanceId = string

  datatype Capacity = Spot | OnDemand

  /** A failure as the EC2 layer reports it. */
  datatype FailureCode = AwsName(name: string) | AwsCode(code: string) | AwsFault(server: bool) | AwsHttp(status: nat)

  datatype Ec2Result = Ec2Result(instances: seq<InstanceId>, failedInstanceCount: int, failureCodes: seq<FailureCode>)

  datatype Result = Result(instances: seq<InstanceId>, retryableErrorCount: int, nonRetryableErrorCount: int) {
    ghost function Total(): int {
      |instances| + retryableErrorCount + nonRetryableErrorCount
    }

    ghost predicate Sound() {
      retryableErrorCount >= 0 && nonRetryableErrorCount >= 0
    }
  }

  datatype Outcome<+T> = Ok(value: T) | Threw(codes: seq<FailureCode>)

  datatype Fleet = Fleet(instances: seq<InstanceId>, errors: seq<string>)

  datatype Parameters = Parameters(
    numberOfRunners: nat,
    capacity: Capacity,
    onDemandFailoverOnError: seq<string>,
    useDedicatedHost: bool)

  /** An EC2 request: the number of the call, for how many instances, of which kind, and whether on dedicated hosts. */
  datatype Request = Request(call: nat, capacity: Capacity, count: nat, dedicated: bool)

  /** The answers, by the number of the call; `fleet` and `run` also see how many instances are asked for. */
  datatype Environment = Environment(
    amiId: nat -> Outcome<()>,
    fleet: (nat, nat) -> Outcome<Fleet>,
    run: (nat, nat) -> Outcome<seq<InstanceId>>,
    jit: InstanceId -> bool,
    registration: nat -> bool)

  ghost function LaunchedBy(env: Environment, call: nat, count: nat): seq<InstanceId> {
    var f := env.fleet(call, count);
    if f.Ok? then f.value.instances else []
  }

  ghost function RunBy(env: Environment, call: nat, count: nat): seq<InstanceId> {
    var r := env.run(call, count);
    if r.Ok? then r.value else []
  }

  /** EC2 launches no more than it is asked for, and never gives an id twice. */
  ghost predicate Ec2KeepsContract(env: Environment) {
    && (forall c: nat, n: nat :: |LaunchedBy(env, c, n)| <= n && Distinct(LaunchedBy(env, c, n)))
    && (forall c: nat, n: nat :: |RunBy(env, c, n)| <= n && Distinct(RunBy(env, c, n)))
    && (forall c: nat, n: nat, d: nat, m: nat, i: nat, j: nat ::
          c != d && i < |LaunchedBy(env, c, n)| && j < |LaunchedBy(env, d, m)|
          ==> LaunchedBy(env, c, n)[i] != LaunchedBy(env, d, m)[j])
  }

  const RETRYABLE_AWS_ERROR_NAMES: set<string> := {
    "EC2ThrottledException", "InternalError", "RequestLimitExceeded", "RequestTimeout", "RequestTimeoutException",
    "ServiceUnavailable", "Throttling", "ThrottlingException"}

  const RETRYABLE_NETWORK_ERROR_CODES: set<string> := {
    "EAI_AGAIN", "ECONNREFUSED", "ECONNRESET", "ENETUNREACH", "ENOTFOUND", "ETIMEDOUT"}

  predicate TriggersControlPlaneRetry(code: FailureCode, configured: seq<string>) {
    match code
    case AwsName(name) => name in configured || name in RETRYABLE_AWS_ERROR_NAMES
    case AwsCode(c) => c in RETRYABLE_NETWORK_ERROR_CODES
    case AwsFault(server) => server
    case AwsHttp(status) => status == 429 || status >= 500
  }

  /** Throttled, unreachable, or the server's fault; or named by the configuration. */
  ghost predicate IsTransient(code: FailureCode, configured: seq<string>) {
    match code
    case AwsName(name) =>
      || (exists i :: 0 <= i < |configured| && configured[i] == name)
      || name == "Throttling" || name == "ThrottlingException" || name == "EC2ThrottledException"
      || name == "RequestLimitExceeded" || name == "RequestTimeout" || name == "RequestTimeoutException"
      || name == "ServiceUnavailable" || name == "InternalError"
    case AwsCode(c) =>
      || c == "ECONNREFUSED" || c == "ECONNRESET" || c == "ETIMEDOUT" || c == "ENETUNREACH"
      || c == "ENOTFOUND" || c == "EAI_AGAIN"
    case AwsFault(server) => server
    case AwsHttp(status) => status == 429 || 500 <= status
  }

  ghost predicate AnyIsTransient(codes: seq<FailureCode>, configured: seq<string>) {
    exists i :: 0 <= i < |codes| && IsTransient(codes[i], configured)
  }

  lemma TransientsTriggerRetry(codes: seq<FailureCode>, configured: seq<string>)
    ensures AnyTriggersRetry(codes, configured) <==> AnyIsTransient(codes, configured)
  {
    forall i | 0 <= i < |codes| ensures TriggersControlPlaneRetry(codes[i], configured) <==> IsTransient(codes[i], configured) {}
  }

  predicate AnyTriggersRetry(codes: seq<FailureCode>, configured: seq<string>) {
    exists i :: 0 <= i < |codes| && TriggersControlPlaneRetry(codes[i], configured)
  }

  /** What is missing is retryable as a whole or not at all, and none of it is lost. */
  function ToControlPlaneResult(r: Ec2Result, configured: seq<string>): (result: Result)
    ensures result.Total() == |r.instances| + r.failedInstanceCount
    ensures r.failedInstanceCount >= 0 ==> result.Sound()
    ensures r.failedInstanceCount > 0 ==> (result.retryableErrorCount > 0 <==> AnyIsTransient(r.failureCodes, configured))
  {
    TransientsTriggerRetry(r.failureCodes, configured);
    if AnyTriggersRetry(r.failureCodes, configured) then Result(r.instances, r.failedInstanceCount, 0)
    else Result(r.instances, 0, r.failedInstanceCount)
  }

  /** The first request fell short for a reason that is configured for on-demand failover. */
  predicate FailsOver(p: Parameters, fleet: Fleet) {
    && |fleet.instances| != p.numberOfRunners
    && p.capacity == Spot
    && exists i :: 0 <= i < |fleet.errors| && fleet.errors[i] in p.onDemandFailoverOnError
  }

  /** Some error of the answer is among those configured. */
  ghost predicate SomeListed(errors: seq<string>, listed: seq<string>) {
    exists i, j :: 0 <= i < |errors| && 0 <= j < |listed| && errors[i] == listed[j]
  }

  /** Spot capacity was asked for, less came, and an error allows to buy the rest on demand. */
  ghost predicate MaySubstitute(p: Parameters, fleet: Fleet) {
    p.capacity == Spot && |fleet.instances| < p.numberOfRunners && SomeListed(fleet.errors, p.onDemandFailoverOnError)
  }

  lemma FailsOverExactly(p: Parameters, fleet: Fleet)
    requires |fleet.instances| <= p.numberOfRunners
    ensures FailsOver(p, fleet) <==> MaySubstitute(p, fleet)
  {
    if FailsOver(p, fleet) {
      var i :| 0 <= i < |fleet.errors| && fleet.errors[i] in p.onDemandFailoverOnError;
      var j :| 0 <= j < |p.onDemandFailoverOnError| && p.onDemandFailoverOnError[j] == fleet.errors[i];
    }
  }

  /** The parameters of the second request. */
  function OnDemandFor(p: Parameters, count: nat): Parameters {
    p.(numberOfRunners := count, onDemandFailoverOnError := ["InsufficientInstanceCapacity"], capacity := OnDemand)
  }

  function FleetFailureCodes(errors: seq<string>): (codes: seq<FailureCode>)
    ensures |codes| == |errors| && forall i :: 0 <= i < |codes| ==> codes[i].AwsName? && codes[i].name == errors[i]
  {
    seq(|errors|, i requires 0 <= i < |errors| => AwsName(errors[i]))
  }

  /** `kept` and `lost` share out `all`, and nothing is in both. */
  ghost predicate SharesOut(all: seq<InstanceId>, kept: seq<InstanceId>, lost: seq<InstanceId>) {
    && multiset(all) == multiset(kept) + multiset(lost)
    && forall id :: id in kept ==> id !in lost
  }

  lemma {:induction false} FilterSharesOut(all: seq<InstanceId>, lost: seq<InstanceId>, keep: InstanceId -> bool)
    requires lost == Filter(id => !keep(id), all)
    ensures SharesOut(all, Filter(keep, all), lost)
    ensures |Filter(keep, all)| + |lost| == |all|
  {
    if all != [] {
      FilterSharesOut(all[1..], Filter(id => !keep(id), all[1..]), keep);
      assert all == [all[0]] + all[1..];
    }
  }

  ghost predicate LaunchedDuring(env: Environment, first: nat, end: nat, ids: seq<InstanceId>) {
    forall i :: 0 <= i < |ids| ==> IsLaunchedDuring(env, first, end, ids[i])
  }

  ghost predicate IsLaunchedDuring(env: Environment, first: nat, end: nat, id: InstanceId) {
    exists c: nat, n: nat :: first <= c < end && id in LaunchedBy(env, c, n)
  }

  lemma WiderSpan(env: Environment, first: nat, end: nat, earlier: nat, later: nat, ids: seq<InstanceId>)
    requires LaunchedDuring(env, first, end, ids) && earlier <= first && end <= later
    ensures LaunchedDuring(env, earlier, later, ids)
  {
    forall i | 0 <= i < |ids| ensures IsLaunchedDuring(env, earlier, later, ids[i]) {
      assert IsLaunchedDuring(env, first, end, ids[i]);
      var c: nat, n: nat :| first <= c < end && ids[i] in LaunchedBy(env, c, n);
      assert earlier <= c < later && ids[i] in LaunchedBy(env, c, n);
    }
  }

  lemma LaterIdsAreNew(env: Environment, c: nat, n: nat, end: nat, later: seq<InstanceId>)
    requires Ec2KeepsContract(env) && LaunchedDuring(env, c + 1, end, later) && Distinct(later)
    ensures Distinct(LaunchedBy(env, c, n) + later)
  {
    var early := LaunchedBy(env, c, n);
    forall i, j | 0 <= i < |early| && 0 <= j < |later| ensures early[i] != later[j] {
      assert IsLaunchedDuring(env, c + 1, end, later[j]);
      var d: nat, m: nat :| c + 1 <= d < end && later[j] in LaunchedBy(env, d, m);
      var k :| 0 <= k < |LaunchedBy(env, d, m)| && LaunchedBy(env, d, m)[k] == later[j];
      assert LaunchedBy(env, c, n)[i] != LaunchedBy(env, d, m)[k];
    }
  }

  /** The instances a request brought. */
  ghost function Answer(env: Environment, q: Request): seq<InstanceId> {
    if q.dedicated then RunBy(env, q.call, q.count) else LaunchedBy(env, q.call, q.count)
  }

  ghost function Brought(env: Environment, asked: seq<Request>): seq<InstanceId> {
    if asked == [] then [] else Answer(env, asked[0]) + Brought(env, asked[1..])
  }

  /** The fleet request, made as call `at + 1`, is answered in a way that calls for failover. */
  ghost predicate FailsOverAfter(env: Environment, p: Parameters, at: nat) {
    !p.useDedicatedHost && env.fleet(at + 1, p.numberOfRunners).Ok? && FailsOver(p, env.fleet(at + 1, p.numberOfRunners).value)
  }

  /**
   The requests made from call `at` on: none if and only if the AMI lookup failed or spot capacity was wanted on dedicated
   hosts; otherwise one for everything; and a second one if and only if the first calls for failover and the AMI is found
   again: on demand, for exactly what is missing.
   */
  ghost predicate RequestsFor(env: Environment, p: Parameters, at: nat, asked: seq<Request>) {
    && |asked| <= 2
    && (asked == [] <==> env.amiId(at).Threw? || (p.useDedicatedHost && p.capacity == Spot))
    && (asked != [] ==> asked[0] == Request(at + 1, p.capacity, p.numberOfRunners, p.useDedicatedHost))
    && (|asked| == 2 <==> asked != [] && FailsOverAfter(env, p, at) && env.amiId(at + 2).Ok?)
    && (|asked| == 2 ==>
          && |LaunchedBy(env, at + 1, p.numberOfRunners)| < p.numberOfRunners
          && asked[1] == Request(at + 3, OnDemand, p.numberOfRunners - |LaunchedBy(env, at + 1, p.numberOfRunners)|, false))
  }

  /**
   A second request is made exactly when the fleet answers a request for spot capacity with too little and a listed error,
   and the AMI is found again; it is on demand and for exactly what is missing.
   */
  ghost predicate SubstitutesExactly(env: Environment, p: Parameters, at: nat, asked: seq<Request>) {
    var answer := env.fleet(at + 1, p.numberOfRunners);
    && (|asked| >= 2 <==>
          && env.amiId(at).Ok? && !p.useDedicatedHost && answer.Ok? && MaySubstitute(p, answer.value) && env.amiId(at + 2).Ok?)
    && (|asked| >= 2 ==>
          |asked| == 2 && asked[1] == Request(at + 3, OnDemand, p.numberOfRunners - |answer.value.instances|, false))
  }

  /** Why a request brought less than was asked for. */
  ghost function ShortfallCodes(env: Environment, q: Request): seq<FailureCode> {
    if q.dedicated then
      var answer := env.run(q.call, q.count);
      if answer.Threw? then answer.codes else []
    else
      var answer := env.fleet(q.call, q.count);
      if answer.Threw? then answer.codes
      else if |answer.value.instances| == q.count then [] else FleetFailureCodes(answer.value.errors)
  }

  /** The codes reported are those of the last thing tried. */
  ghost predicate CodesOfLast(env: Environment, p: Parameters, at: nat, asked: seq<Request>, codes: seq<FailureCode>) {
    if env.amiId(at).Threw? then codes == env.amiId(at).codes
    else if asked == [] then codes == []
    else if |asked| == 1 && FailsOverAfter(env, p, at) then env.amiId(at + 2).Threw? && codes == env.amiId(at + 2).codes
    else codes == ShortfallCodes(env, asked[|asked| - 1])
  }

  /** What one creation comes to, from call `at` on. */
  ghost predicate IsCreated(env: Environment, p: Parameters, at: nat, asked: seq<Request>, r: Ec2Result) {
    && RequestsFor(env, p, at, asked)
    && r.instances == Brought(env, asked)
    && CodesOfLast(env, p, at, asked, r.failureCodes)
  }

  /** The call after the last one of a creation. */
  ghost function CallAfter(env: Environment, p: Parameters, at: nat, asked: seq<Request>): nat {
    if asked == [] then at + 1
    else if |asked| == 2 then at + 4
    else if FailsOverAfter(env, p, at) then at + 3 else at + 2
  }

  /**
   What becomes of what EC2 brought: kept are the instances that the registration of that call kept; not retryable is what
   is missing, unless a code triggers a retry; retryable is all the rest.
   */
  ghost predicate IsFinished(env: Environment, call: nat, scaleErrors: seq<string>, ephemeralJit: bool, ec2: Ec2Result, r: Result) {
    && r.instances == Filter(Registers(env, call, ephemeralJit), ec2.instances)
    && r.nonRetryableErrorCount == (if AnyIsTransient(ec2.failureCodes, scaleErrors) then 0 else ec2.failedInstanceCount)
    && r.Total() == |ec2.instances| + ec2.failedInstanceCount
  }

  /** What cold creation comes to, by the answers from call `at` on; a configuration that throws leaves everything to be retried. */
  ghost predicate IsColdResult(env: Environment, p: Parameters, configThrows: bool, scaleErrors: seq<string>, ephemeralJit: bool,
                               at: nat, asked: seq<Request>, ec2: Ec2Result, r: Result) {
    if configThrows then r == Result([], p.numberOfRunners, 0) && asked == []
    else
      && IsCreated(env, p, at, asked, ec2) && |ec2.instances| + ec2.failedInstanceCount == p.numberOfRunners
      && IsFinished(env, CallAfter(env, p, at, asked), scaleErrors, ephemeralJit, ec2, r)
  }

  /** Which instances the registration made as that call leaves registered. */
  ghost function Registers(env: Environment, call: nat, ephemeralJit: bool): InstanceId -> bool {
    id => env.registration(call) && (ephemeralJit ==> env.jit(id))
  }

  /** What the answer to the fleet request of call `call` comes to. */
  ghost predicate IsProcessed(env: Environment, p: Parameters, call: nat, fleet: Fleet, more: seq<Request>, r: Ec2Result) {
    && r.instances == fleet.instances + Brought(env, more)
    && (more == [] <==> !FailsOver(p, fleet) || env.amiId(call + 1).Threw?)
    && (more != [] ==>
          && |fleet.instances| < p.numberOfRunners
          && more == [Request(call + 2, OnDemand, p.numberOfRunners - |fleet.instances|, false)]
          && r.failureCodes == ShortfallCodes(env, more[0]))
    && (more == [] ==>
          r.failureCodes == if FailsOver(p, fleet) then env.amiId(call + 1).codes
                            else ShortfallCodes(env, Request(call, p.capacity, p.numberOfRunners, false)))
  }

  lemma ProcessedIsCreated(env: Environment, p: Parameters, at: nat, fleet: Fleet, more: seq<Request>, r: Ec2Result)
    requires env.amiId(at).Ok? && !p.useDedicatedHost && env.fleet(at + 1, p.numberOfRunners) == Ok(fleet)
    requires IsProcessed(env, p, at + 1, fleet, more, r)
    ensures IsCreated(env, p, at, [Request(at + 1, p.capacity, p.numberOfRunners, false)] + more, r)
  {
    var asked := [Request(at + 1, p.capacity, p.numberOfRunners, false)] + more;
    assert asked[1..] == more;
    assert more == [] || |more| == 1;
    assert fleet.instances == LaunchedBy(env, at + 1, p.numberOfRunners);
  }

  lemma FailedFleetIsCreated(env: Environment, p: Parameters, at: nat, r: Ec2Result)
    requires env.amiId(at).Ok? && !p.useDedicatedHost && env.fleet(at + 1, p.numberOfRunners).Threw?
    requires r == Ec2Result([], p.numberOfRunners, env.fleet(at + 1, p.numberOfRunners).codes)
    ensures IsCreated(env, p, at, [Request(at + 1, p.capacity, p.numberOfRunners, false)], r)
  {
    assert Brought(env, [Request(at + 1, p.capacity, p.numberOfRunners, false)][1..]) == [];
  }

  class RunnerFactory {
    const env: Environment
    var step: nat
    ghost var launched: seq<InstanceId>      // every instance EC2 has launched
    ghost var terminated: seq<InstanceId>    // every instance it was asked to terminate
    ghost var requests: seq<Request>

    constructor (env: Environment)
      ensures this.env == env && launched == [] && terminated == [] && requests == []
    {
      this.env := env;
      step := 0;
      launched, terminated, requests := [], [], [];
    }

    method CreateEc2Runner(p: Parameters) returns (r: Ec2Result, ghost asked: seq<Request>)
      requires Ec2KeepsContract(env)
      modifies this`step, this`launched, this`requests
      decreases if p.capacity == Spot then 1 else 0, 2
      ensures |r.instances| + r.failedInstanceCount == p.numberOfRunners && r.failedInstanceCount >= 0
      ensures launched == old(launched) + r.instances && Distinct(r.instances)
      ensures step >= old(step)
      ensures !p.useDedicatedHost ==> LaunchedDuring(env, old(step) + 1, step, r.instances)
      ensures requests == old(requests) + asked && IsCreated(env, p, old(step), asked, r)
      ensures step == CallAfter(env, p, old(step), asked)
      ensures SubstitutesExactly(env, p, old(step), asked)
    {
      asked := [];
      var ami := env.amiId(step);
      step := step + 1;
      if ami.Threw? {
        return Ec2Result([], p.numberOfRunners, ami.codes), asked;
      }
      if p.useDedicatedHost {
        r, asked := CreateInstancesWithRunInstances(p);
      } else {
        r, asked := CreateInstances(p);
      }
    }

    /** The fleet request and what its answer comes to. */
    method CreateInstances(p: Parameters) returns (r: Ec2Result, ghost asked: seq<Request>)
      requires Ec2KeepsContract(env) && !p.useDedicatedHost && step >= 1 && env.amiId(step - 1).Ok?
      modifies this`step, this`launched, this`requests
      decreases if p.capacity == Spot then 1 else 0, 1
      ensures |r.instances| + r.failedInstanceCount == p.numberOfRunners && r.failedInstanceCount >= 0
      ensures launched == old(launched) + r.instances && Distinct(r.instances)
      ensures step >= old(step) && LaunchedDuring(env, old(step), step, r.instances)
      ensures requests == old(requests) + asked && IsCreated(env, p, old(step) - 1, asked, r)
      ensures step == CallAfter(env, p, old(step) - 1, asked) && SubstitutesExactly(env, p, old(step) - 1, asked)
    {
      ghost var call := step;
      var fleet := env.fleet(step, p.numberOfRunners);
      step := step + 1;
      asked := [Request(call, p.capacity, p.numberOfRunners, false)];
      requests := requests + asked;
      if fleet.Threw? {
        r := Ec2Result([], p.numberOfRunners, fleet.codes);
        FailedFleetIsCreated(env, p, call - 1, r);
        return;
      }
      launched := launched + fleet.value.instances;
      ghost var more;
      r, more := ProcessFleetResult(fleet.value, p, call);
      ProcessedIsCreated(env, p, call - 1, fleet.value, more, r);
      asked := asked + more;
    }

    /** What the answer to a fleet request comes to; at most one more request is made, on demand. */
    method ProcessFleetResult(fleet: Fleet, p: Parameters, ghost call: nat) returns (r: Ec2Result, ghost more: seq<Request>)
      requires Ec2KeepsContract(env) && !p.useDedicatedHost && call + 1 == step
      requires env.fleet(call, p.numberOfRunners) == Ok(fleet) && fleet.instances == LaunchedBy(env, call, p.numberOfRunners)
      modifies this`step, this`launched, this`requests
      decreases if p.capacity == Spot then 1 else 0, 0
      ensures |r.instances| + r.failedInstanceCount == p.numberOfRunners && r.failedInstanceCount >= 0
      ensures IsProcessed(env, p, call, fleet, more, r)
      ensures step == call + (if more != [] then 3 else if FailsOver(p, fleet) then 2 else 1)
      ensures MaySubstitute(p, fleet) && env.amiId(call + 1).Ok? ==>
                more == [Request(call + 2, OnDemand, p.numberOfRunners - |fleet.instances|, false)]
      ensures !MaySubstitute(p, fleet) ==>
                more == [] && r == Ec2Result(fleet.instances, p.numberOfRunners - |fleet.instances|, r.failureCodes)
      ensures launched == old(launched) + Brought(env, more)
      ensures Distinct(r.instances) && step >= old(step)
      ensures LaunchedDuring(env, call, step, r.instances)
      ensures requests == old(requests) + more
    {
      var instances := fleet.instances;
      more := [];
      FailsOverExactly(p, fleet);
      assert LaunchedDuring(env, call, step, instances);
      if |instances| == p.numberOfRunners {
        return Ec2Result(instances, 0, []), more;
      }
      if FailsOver(p, fleet) {
        ghost var first := step;
        var onDemand;
        onDemand, more := CreateEc2Runner(OnDemandFor(p, p.numberOfRunners - |instances|));
        WiderSpan(env, first + 1, step, call + 1, step, onDemand.instances);
        WiderSpan(env, first + 1, step, call, step, onDemand.instances);
        LaterIdsAreNew(env, call, p.numberOfRunners, step, onDemand.instances);
        instances := instances + onDemand.instances;
        assert LaunchedDuring(env, call, step, instances);
        r := Ec2Result(instances, onDemand.failedInstanceCount, onDemand.failureCodes);
      } else {
        r := Ec2Result(instances, p.numberOfRunners - |instances|, FleetFailureCodes(fleet.errors));
      }
    }

    /** Dedicated hosts take no spot request; whatever else is missing is counted as failed. */
    method CreateInstancesWithRunInstances(p: Parameters) returns (r: Ec2Result, ghost asked: seq<Request>)
      requires Ec2KeepsContract(env) && p.useDedicatedHost
      modifies this`step, this`launched, this`requests
      ensures |r.instances| + r.failedInstanceCount == p.numberOfRunners && r.failedInstanceCount >= 0
      ensures launched == old(launched) + r.instances && Distinct(r.instances)
      ensures step == old(step) + |asked| && requests == old(requests) + asked
      ensures asked == if p.capacity == Spot then [] else [Request(old(step), p.capacity, p.numberOfRunners, true)]
      ensures r.instances == Brought(env, asked)
      ensures r.failureCodes == if p.capacity == Spot then [] else ShortfallCodes(env, asked[0])
    {
      asked := [];
      if p.capacity == Spot {
        return Ec2Result([], p.numberOfRunners, []), asked;
      }
      var answer := env.run(step, p.numberOfRunners);
      assert answer.Ok? ==> answer.value == RunBy(env, step, p.numberOfRunners);
      asked := [Request(step, p.capacity, p.numberOfRunners, true)];
      step := step + 1;
      requests := requests + asked;
      assert Brought(env, asked[1..]) == [];
      match answer
      case Threw(codes) =>
        r := Ec2Result([], p.numberOfRunners, codes);
      case Ok(instances) =>
        launched := launched + instances;
        r := Ec2Result(instances, p.numberOfRunners - |instances|, []);
    }

    /** Goes on after a failure; the instances that failed come back in order. */
    method CreateJitConfig(ids: seq<InstanceId>) returns (failed: seq<InstanceId>)
      ensures failed == Filter(id => !env.jit(id), ids)
    {
      failed := [];
      var k := 0;
      while k < |ids|
        invariant k <= |ids|
        invariant failed == Filter(id => !env.jit(id), ids[..k])
      {
        assert ids[..k + 1] == ids[..k] + [ids[k]];
        FilterAppend(id => !env.jit(id), ids[..k], [ids[k]]);
        if !env.jit(ids[k]) {
          failed := failed + [ids[k]];
        }
        k := k + 1;
      }
      assert ids[..k] == ids;
    }

    /** The instances that could not be registered; all of them when the registration as a whole throws. */
    method FailedRegistrations(ephemeralJit: bool, ids: seq<InstanceId>) returns (failed: seq<InstanceId>)
      modifies this`step
      ensures step == old(step) + 1
      ensures failed == Filter(id => !Registers(env, old(step), ephemeralJit)(id), ids)
    {
      ghost var keep := Registers(env, step, ephemeralJit);
      var ok := env.registration(step);
      step := step + 1;
      if !ok {
        failed := ids;
        FilterAll(id => !keep(id), ids);
      } else if ephemeralJit {
        failed := CreateJitConfig(ids);
        FilterSame(id => !env.jit(id), id => !keep(id), ids);
      } else {
        failed := [];
        FilterNone(id => !keep(id), ids);
      }
    }

    method TerminateFailedInstances(ids: seq<InstanceId>)
      modifies this`terminated
      ensures terminated == old(terminated) + ids
    {
      var k := 0;
      while k < |ids|
        invariant k <= |ids| && terminated == old(terminated) + ids[..k]
      {
        terminated := terminated + [ids[k]];
        k := k + 1;
      }
      assert ids[..k] == ids;
    }

    /**
     Cold creation: every requested runner is created or counted as the answers demand, every launched instance is either
     returned or told to terminate, and never both. A configuration that throws leaves everything to be retried.
     */
    method CreateRunners(p: Parameters, configThrows: bool, scaleErrors: seq<string>, ephemeralJit: bool)
      returns (r: Result, ghost asked: seq<Request>, ghost ec2: Ec2Result)
      requires Ec2KeepsContract(env)
      modifies this
      ensures r.Total() == p.numberOfRunners && r.Sound()
      ensures IsColdResult(env, p, configThrows, scaleErrors, ephemeralJit, old(step), asked, ec2, r)
      ensures requests == old(requests) + asked
      ensures old(launched) <= launched && old(terminated) <= terminated
      ensures SharesOut(launched[|old(launched)|..], r.instances, terminated[|old(terminated)|..])
      ensures Distinct(r.instances)
    {
      asked, ec2 := [], Ec2Result([], 0, []);
      if configThrows {
        return Result([], p.numberOfRunners, 0), asked, ec2;
      }
      var created;
      created, asked := CreateEc2Runner(p);
      ec2 := created;
      assert launched[|old(launched)|..] == created.instances;
      r := FinishCreation(created, scaleErrors, ephemeralJit);
    }

    /** From what EC2 brought to the result: classified, and registered if there is anything to register. */
    method FinishCreation(ec2: Ec2Result, scaleErrors: seq<string>, ephemeralJit: bool) returns (r: Result)
      requires Distinct(ec2.instances) && ec2.failedInstanceCount >= 0
      modifies this`step, this`terminated
      ensures IsFinished(env, old(step), scaleErrors, ephemeralJit, ec2, r) && r.Sound()
      ensures old(terminated) <= terminated
      ensures SharesOut(ec2.instances, r.instances, terminated[|old(terminated)|..]) && Distinct(r.instances)
    {
      r := ToControlPlaneResult(ec2, scaleErrors);
      if r.instances != [] {
        r := KeepRegistered(r, ephemeralJit);
      } else {
        assert terminated[|old(terminated)|..] == [];
      }
    }

    /** Registers the instances; those that fail are terminated and counted as retryable. */
    method KeepRegistered(created: Result, ephemeralJit: bool) returns (r: Result)
      requires Distinct(created.instances) && created.Sound()
      modifies this`step, this`terminated
      ensures r.Total() == created.Total() && r.Sound()
      ensures old(terminated) <= terminated
      ensures SharesOut(created.instances, r.instances, terminated[|old(terminated)|..])
      ensures r.instances == Filter(Registers(env, old(step), ephemeralJit), created.instances)
      ensures Distinct(r.instances) && r.nonRetryableErrorCount == created.nonRetryableErrorCount
    {
      ghost var keep := Registers(env, step, ephemeralJit);
      var failed := FailedRegistrations(ephemeralJit, created.instances);
      KeepsTheRest(created.instances, failed, keep);
      if failed == [] {
        assert terminated[|old(terminated)|..] == [];
        return created;
      }
      TerminateFailedInstances(failed);
      assert terminated[|old(terminated)|..] == failed;
      r := Result(Filter(id => id !in failed, created.instances),
                  created.retryableErrorCount + |failed|, created.nonRetryableErrorCount);
    }

    /**
     Warm first, the rest cold. However the activation ends, the slots it leaves to the cold launch and the
     ones the cold launch leaves open add up, and no launched instance escapes.
     */
    method CreateScaleUpRunners(useWarm: bool, activation: WarmActivation.Activation, query: Option<seq<WarmIndex.Row>>,
                                p: Parameters, configThrows: bool, scaleErrors: seq<string>, ephemeralJit: bool)
      returns (r: Result, ghost warm: WarmActivation.WarmActivationResult, ghost fallbacks: WarmActivation.Fallbacks,
               ghost turns: seq<WarmActivation.Turn>, ghost cold: Result, ghost asked: seq<Request>, ghost ec2: Ec2Result)
      requires Ec2KeepsContract(env) && activation.IsNew()
      requires query.Some? ==> forall i, j :: 0 <= i < j < |query.value| ==> query.value[i].0 != query.value[j].0
      modifies this, activation
      ensures r.Total() == p.numberOfRunners && r.Sound()
      ensures r == Result(warm.instances + cold.instances, warm.retryableErrorCount + cold.retryableErrorCount,
                          cold.nonRetryableErrorCount)
      ensures warm.Total() == p.numberOfRunners && warm.coldRunnerCount >= 0
      ensures if useWarm
              then WarmActivation.IsResult(activation.env,
                                           WarmActivation.CandidatesIn(activation.env, true, query, old(activation.step)),
                                           p.numberOfRunners, turns, warm, fallbacks)
              else warm == WarmActivation.WarmActivationResult([], 0, p.numberOfRunners)
      ensures if useWarm && warm.coldRunnerCount == 0 then cold == Result([], 0, 0) && asked == []
              else IsColdResult(env, p.(numberOfRunners := warm.coldRunnerCount), configThrows, scaleErrors, ephemeralJit,
                                old(step), asked, ec2, cold)
      ensures old(launched) <= launched && old(terminated) <= terminated
      ensures SharesOut(launched[|old(launched)|..], cold.instances, terminated[|old(terminated)|..]) && Distinct(cold.instances)
    {
      warm, cold := WarmActivation.WarmActivationResult([], 0, p.numberOfRunners), Result([], 0, 0);
      fallbacks, turns, asked, ec2 := WarmActivation.Fallbacks(0, 0, 0, 0), [], [], Ec2Result([], 0, []);
      if !useWarm {
        r, asked, ec2 := CreateRunners(p, configThrows, scaleErrors, ephemeralJit);
        cold := r;
        return;
      }
      var activated, reasons;
      activated, reasons, turns := activation.ActivateWarmRunners(true, query, p.numberOfRunners);
      warm, fallbacks := activated, reasons;
      r, cold, asked, ec2 := CreateTheRest(activated, p, configThrows, scaleErrors, ephemeralJit);
    }

    /** The slots that the activation leaves are launched cold, if there are any. */
    method CreateTheRest(warm: WarmActivation.WarmActivationResult, p: Parameters, configThrows: bool,
                         scaleErrors: seq<string>, ephemeralJit: bool)
      returns (r: Result, ghost cold: Result, ghost asked: seq<Request>, ghost ec2: Ec2Result)
      requires Ec2KeepsContract(env)
      requires warm.Total() == p.numberOfRunners && warm.coldRunnerCount >= 0 && warm.retryableErrorCount >= 0
      modifies this
      ensures r.Total() == p.numberOfRunners && r.Sound()
      ensures r == Result(warm.instances + cold.instances, warm.retryableErrorCount + cold.retryableErrorCount,
                          cold.nonRetryableErrorCount)
      ensures if warm.coldRunnerCount == 0 then cold == Result([], 0, 0) && asked == []
              else IsColdResult(env, p.(numberOfRunners := warm.coldRunnerCount), configThrows, scaleErrors, ephemeralJit,
                                old(step), asked, ec2, cold)
      ensures old(launched) <= launched && old(terminated) <= terminated
      ensures SharesOut(launched[|old(launched)|..], cold.instances, terminated[|old(terminated)|..]) && Distinct(cold.instances)
    {
      if warm.coldRunnerCount <= 0 {
        assert launched[|old(launched)|..] == [] && terminated[|old(terminated)|..] == [];
        r := Result(warm.instances, warm.retryableErrorCount, 0);
        cold, asked, ec2 := Result([], 0, 0), [], Ec2Result([], 0, []);
        return;
      }
      var created;
      created, asked, ec2 :=
        CreateRunners(p.(numberOfRunners := warm.coldRunnerCount), configThrows, scaleErrors, ephemeralJit);
      cold := created;
      r := Result(warm.instances + created.instances, warm.retryableErrorCount + created.retryableErrorCount,
                  created.nonRetryableErrorCount);
    }
  }

  lemma {:induction false} NothingFailed(all: seq<InstanceId>, keep: InstanceId -> bool)
    requires Filter(id => !keep(id), all) == []
    ensures Filter(keep, all) == all
  {
    if all != [] {
      NothingFailed(all[1..], keep);
    }
  }

  /** Leaving out the failed ids is keeping the others; they share out all. */
  lemma KeepsTheRest(all: seq<InstanceId>, failed: seq<InstanceId>, keep: InstanceId -> bool)
    requires failed == Filter(id => !keep(id), all) && Distinct(all)
    ensures Filter(id => id !in failed, all) == Filter(keep, all)
    ensures SharesOut(all, Filter(keep, all), failed) && Distinct(Filter(keep, all))
    ensures |Filter(keep, all)| + |failed| == |all|
    ensures failed == [] ==> Filter(keep, all) == all
  {
    FilterSame(id => id !in failed, keep, all);
    FilterSharesOut(all, failed, keep);
    FilterKeepsDistinct(keep, all);
    if failed == [] {
      NothingFailed(all, keep);
    }
  }
}
