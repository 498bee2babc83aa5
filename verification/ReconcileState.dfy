/** The counters one scale-set reconciliation keeps, the result it reports, and the controller's check of it. */
module ReconcileState {
  import opened Prelude

  type InstanceId = string

  const MAX_COUNT: int := 2147483647
  const MAX_ERRORS: nat := 1000

  datatype Operation = Validate | Reconcile | List | Launch | GenerateJit | PublishJit | RemoveRunner | TerminateRunner

  datatype Error = Error(operation: Operation, code: string, runnerName: Option<string>, resourceId: Option<string>)

  /** What a failed call throws: a validation error of the provider, an object, or something else. */
  datatype Thrown = InvalidConfiguration | Object(name: Option<string>, code: Option<string>) | NoObject

  datatype Outcome<+T> = Ok(value: T) | Threw(thrown: Thrown)

  predicate IsLetter(c: char) {
    'A' <= c <= 'Z' || 'a' <= c <= 'z'
  }

  predicate IsCodeChar(c: char) {
    IsLetter(c) || '0' <= c <= '9' || c == '.' || c == '_' || c == '-'
  }

  predicate ValidCode(s: string) {
    && 1 <= |s| <= 128
    && IsLetter(s[0])
    && forall i :: 1 <= i < |s| ==> IsCodeChar(s[i])
  }

  ghost predicate BoundedText(s: string) {
    |s| <= 256 && forall i :: 0 <= i < |s| ==> s[i] as int > 31 && s[i] as int != 127
  }

  ghost predicate OptionalBoundedText(s: Option<string>) {
    s.None? || BoundedText(s.value)
  }

  /** By character codes: a letter, then at most 127 letters, digits, dots, underscores and hyphens. */
  ghost predicate IsAcceptable(s: string) {
    && s != "" && |s| <= 128 && (65 <= s[0] as int <= 90 || 97 <= s[0] as int <= 122)
    && forall i :: 0 < i < |s| ==>
         || 65 <= s[i] as int <= 90 || 97 <= s[i] as int <= 122 || 48 <= s[i] as int <= 57
         || s[i] as int in {45, 46, 95}
  }

  /** Whatever was thrown, the code reported for it is one the controller accepts. */
  function SafeErrorCode(thrown: Thrown): (code: string)
    ensures ValidCode(code)
  {
    match thrown
    case InvalidConfiguration => "INVALID_CONFIGURATION"
    case NoObject => "UNEXPECTED_ERROR"
    case Object(name, code) =>
      if name.Some? && ValidCode(name.value) then name.value
      else if code.Some? && ValidCode(code.value) then code.value
      else "UNEXPECTED_ERROR"
  }

  lemma ValidIfAcceptable(s: string)
    ensures ValidCode(s) <==> IsAcceptable(s)
  {
  }

  /** The name of what was thrown if that is acceptable, else its code if that is, else a fixed code. */
  lemma ReportedCodeIsAcceptable(thrown: Thrown)
    ensures IsAcceptable(SafeErrorCode(thrown))
    ensures thrown.Object? && thrown.name.Some? && IsAcceptable(thrown.name.value) ==> SafeErrorCode(thrown) == thrown.name.value
    ensures thrown.Object? && (thrown.name.Some? ==> !IsAcceptable(thrown.name.value)) && thrown.code.Some? && IsAcceptable(thrown.code.value)
            ==> SafeErrorCode(thrown) == thrown.code.value
    ensures (thrown.Object? && (thrown.name == Some(SafeErrorCode(thrown)) || thrown.code == Some(SafeErrorCode(thrown))))
            || SafeErrorCode(thrown) == if thrown.InvalidConfiguration? then "INVALID_CONFIGURATION" else "UNEXPECTED_ERROR"
  {
    ValidIfAcceptable(SafeErrorCode(thrown));
    if thrown.Object? {
      ValidIfAcceptable(thrown.name.GetOr(""));
      ValidIfAcceptable(thrown.code.GetOr(""));
    }
  }

  datatype Actions = Actions(launched: nat, terminated: nat, retainedBusy: nat, retainedUnknown: nat)

  datatype Status = Converged | Retained | Failed

  datatype Result = Result(status: Status, desiredRunners: int, currentRunners: int, actions: Actions, errors: seq<Error>)

  ghost predicate BoundedCount(n: int) {
    0 <= n <= MAX_COUNT
  }

  ghost predicate BoundedActions(a: Actions) {
    BoundedCount(a.launched) && BoundedCount(a.terminated) && BoundedCount(a.retainedBusy) && BoundedCount(a.retainedUnknown)
  }

  ghost predicate ValidMetadata(e: Error) {
    ValidCode(e.code) && OptionalBoundedText(e.runnerName) && OptionalBoundedText(e.resourceId)
  }

  /** An error as the provider records it. */
  type ReportedError = e: Error | ValidMetadata(e) witness Error(Reconcile, "E", None, None)

  function SafeError(operation: Operation, thrown: Thrown, runnerName: Option<string>, resourceId: Option<string>): (e: ReportedError)
    requires OptionalBoundedText(runnerName) && OptionalBoundedText(resourceId)
    ensures e.resourceId == resourceId
  {
    Error(operation, SafeErrorCode(thrown), runnerName, resourceId)
  }

  /** The controller does not throw on the provider's result. */
  ghost predicate ProviderResultAccepted(r: Result, desiredRunners: int) {
    && r.desiredRunners == desiredRunners && BoundedCount(r.currentRunners)
    && BoundedActions(r.actions)
    && |r.errors| <= MAX_ERRORS
    && (forall i :: 0 <= i < |r.errors| ==> ValidMetadata(r.errors[i]))
    && (r.status == Failed <==> |r.errors| > 0)
    && r.status == (if |r.errors| > 0 || r.currentRunners < desiredRunners then Failed
                    else if r.currentRunners > desiredRunners then Retained
                    else Converged)
  }

  datatype RemovalStatus = Removed | RetainedBusy | RetainedUnknown

  /** What a reconciliation asks of the outside world, in order, with the number of the call and its answer. */
  datatype Act =
    | Generate(resource: InstanceId, call: nat, ok: bool)
    | Tag(resource: InstanceId, call: nat, ok: bool)
    | Publish(resource: InstanceId, call: nat, ok: bool)
    | Remove(resource: InstanceId, runnerId: int, runnerName: string, call: nat, answer: Option<RemovalStatus>)
    | Terminate(resource: InstanceId, call: nat, ok: bool)

  ghost function TerminatedBy(acts: seq<Act>): seq<InstanceId> {
    if acts == [] then []
    else
      var last := acts[|acts| - 1];
      TerminatedBy(acts[..|acts| - 1]) + (if last.Terminate? && last.ok then [last.resource] else [])
  }

  lemma {:induction false} TerminatedByAppend(a: seq<Act>, b: seq<Act>)
    ensures TerminatedBy(a + b) == TerminatedBy(a) + TerminatedBy(b)
  {
    if b == [] {
      assert a + b == a;
    } else {
      assert (a + b)[..|a + b| - 1] == a + b[..|b| - 1];
      TerminatedByAppend(a, b[..|b| - 1]);
    }
  }

  lemma {:induction false} NothingTerminated(acts: seq<Act>)
    requires forall i :: 0 <= i < |acts| ==> !acts[i].Terminate?
    ensures TerminatedBy(acts) == []
  {
    if acts != [] {
      NothingTerminated(acts[..|acts| - 1]);
    }
  }

  /** When only the last act may end an instance, it alone decides. */
  lemma LastTerminates(acts: seq<Act>)
    requires acts != [] && forall i :: 0 <= i < |acts| - 1 ==> !acts[i].Terminate?
    ensures |TerminatedBy(acts)| == (if acts[|acts| - 1].Terminate? && acts[|acts| - 1].ok then 1 else 0)
  {
    NothingTerminated(acts[..|acts| - 1]);
  }

  ghost predicate Extends(before: seq<Error>, after: seq<Error>) {
    before <= after
  }

  function CapacityNotProvisioned(): ReportedError {
    Error(Reconcile, "CAPACITY_NOT_PROVISIONED", None, None)
  }

  /** The part of the state that one step is judged by. */
  datatype View = View(actions: Actions, retained: set<InstanceId>, errors: seq<Error>, acts: seq<Act>) {
    /** The same with these resources retained as well, each counted once. */
    ghost function Retaining(ids: set<InstanceId>): View {
      this.(retained := retained + ids, actions := actions.(retainedUnknown := |retained + ids|))
    }

    lemma RetainingMore(ids: set<InstanceId>, more: set<InstanceId>)
      ensures Retaining(ids).Retaining(more) == Retaining(ids + more)
    {
      assert retained + ids + more == retained + (ids + more);
    }
  }

  class ReconcileState {
    var currentRunners: int
    var retainedUnknownResourceIds: set<InstanceId>
    var actions: Actions
    var errors: seq<ReportedError>
    /** How many runners the inventory listed, what was created since, and every act so far. */
    ghost const owned: nat
    ghost var created: seq<InstanceId>
    ghost var acts: seq<Act>

    ghost predicate Valid()
      reads this
    {
      && currentRunners == owned + |created| - actions.terminated
      && actions.retainedUnknown == |retainedUnknownResourceIds|
    }

    ghost function Viewed(): View
      reads this
    {
      View(actions, retainedUnknownResourceIds, errors, acts)
    }

    constructor (current: nat)
      ensures Valid() && currentRunners == current == owned
      ensures created == [] && acts == [] && errors == []
      ensures actions == Actions(0, 0, 0, 0) && retainedUnknownResourceIds == {}
    {
      currentRunners := current;
      retainedUnknownResourceIds := {};
      actions := Actions(0, 0, 0, 0);
      errors := [];
      owned := current;
      created := [];
      acts := [];
    }

    /** A resource is counted once, however often it is retained. */
    method RetainUnknown(resourceId: InstanceId)
      requires Valid()
      modifies this`retainedUnknownResourceIds, this`actions
      ensures Valid() && Viewed() == old(Viewed()).Retaining({resourceId})
    {
      if resourceId in retainedUnknownResourceIds {
        assert retainedUnknownResourceIds == retainedUnknownResourceIds + {resourceId};
        return;
      }
      retainedUnknownResourceIds := retainedUnknownResourceIds + {resourceId};
      actions := actions.(retainedUnknown := actions.retainedUnknown + 1);
    }

    ghost method Note(more: seq<Act>)
      requires Valid()
      modifies this`acts
      ensures Valid() && acts == old(acts) + more
    {
      acts := acts + more;
    }

    method CountTermination()
      requires Valid()
      modifies this`currentRunners, this`actions
      ensures Valid() && actions == old(actions).(terminated := old(actions.terminated) + 1)
    {
      currentRunners := currentRunners - 1;
      actions := actions.(terminated := actions.terminated + 1);
    }

    method CountLaunch()
      requires Valid()
      modifies this`actions
      ensures Valid() && actions == old(actions).(launched := old(actions.launched) + 1)
    {
      actions := actions.(launched := actions.launched + 1);
    }

    method CountRetainedBusy()
      requires Valid()
      modifies this`actions
      ensures Valid() && actions == old(actions).(retainedBusy := old(actions.retainedBusy) + 1)
    {
      actions := actions.(retainedBusy := actions.retainedBusy + 1);
    }

    method Push(e: ReportedError)
      requires Valid()
      modifies this`errors
      ensures Valid() && errors == old(errors) + [e]
    {
      errors := errors + [e];
    }

    /**
     What is reported is what the controller recomputes: the result is accepted exactly when there
     are not too many errors and no counter has run out of bounds.
     */
    method Finish(desiredRunners: int) returns (r: Result)
      requires Valid()
      requires desiredRunners < 0 ==> errors != []
      modifies this`errors
      ensures Valid()
      ensures errors == if currentRunners < desiredRunners && old(errors) == []
                        then [CapacityNotProvisioned()] else old(errors)
      ensures r.currentRunners == currentRunners && r.actions == actions && r.errors == errors
      ensures r.status == Converged <==> errors == [] && currentRunners == desiredRunners
      ensures r.status == Failed <==> errors != []
      ensures ProviderResultAccepted(r, desiredRunners)
              <==> |errors| <= MAX_ERRORS && BoundedCount(currentRunners) && BoundedActions(actions)
    {
      if desiredRunners >= 0 && currentRunners < desiredRunners && |errors| == 0 {
        Push(CapacityNotProvisioned());
      }
      r := Result(ResultStatus(errors, currentRunners, desiredRunners), desiredRunners, currentRunners, actions, errors);
    }
  }

  function ResultStatus(errors: seq<Error>, current: int, desired: int): Status {
    if |errors| > 0 || current < desired then Failed else if current > desired then Retained else Converged
  }
}
