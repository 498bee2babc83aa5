/** What may become of the instances a launch creates, and how the counters record it. */
module ScaleSetScaleUp {
  import opened Prelude
  import opened RunnerStates
  import opened ReconcileState
  import opened ScaleSetInventory

  /** What became of a created instance. */
  datatype Fate = Launched | LaunchedUntagged | Discarded | Preserved

  ghost predicate WasLaunched(f: Fate) {
    f == Launched || f == LaunchedUntagged
  }

  // ---------------------------------------------------------------- the story of one instance

  ghost function EndAt(env: Environment, id: InstanceId, call: nat): Act {
    Terminate(id, call, env.terminate(call).Ok?)
  }

  ghost function TagAt(env: Environment, id: InstanceId, call: nat): Act {
    Tag(id, call, env.tag(call).Ok?)
  }

  ghost function RemovalAt(env: Environment, jit: Jit, id: InstanceId, call: nat): Act {
    Remove(id, jit.runnerId, jit.runnerName, call, StatusOf(env.remove(call)))
  }

  ghost function PublishStory(env: Environment, id: InstanceId, n: nat): seq<Act> {
    [Publish(id, n, env.publish(n).Ok?)] + (if env.publish(n).Ok? then [TagAt(env, id, n + 1)] else [])
  }

  ghost function TagStory(env: Environment, jit: Jit, id: InstanceId, n: nat): seq<Act> {
    [TagAt(env, id, n)]
    + (if env.tag(n).Ok? then PublishStory(env, id, n + 1) else [RemovalAt(env, jit, id, n + 1), EndAt(env, id, n + 2)])
  }

  /** What is asked for a created instance, given the answers from call `n` on. */
  ghost function Story(env: Environment, id: InstanceId, n: nat): seq<Act> {
    if |env.runnerNamePrefix + id| > 64 then [EndAt(env, id, n)]
    else
      [Generate(id, n, GeneratesGoodJit(env, id, n))]
      + (if GeneratesGoodJit(env, id, n) then TagStory(env, env.jit(n).value, id, n + 1) else [EndAt(env, id, n + 1)])
  }

  /** The last answer decides. */
  ghost function FateOf(acts: seq<Act>): Fate {
    if acts == [] then Preserved
    else
      match acts[|acts| - 1]
      case Terminate(_, _, ok) => if ok then Discarded else Preserved
      case Tag(_, _, ok) => if ok then Launched else LaunchedUntagged
      case _ => Preserved
  }

  ghost predicate TriesToPublish(acts: seq<Act>) {
    exists i :: 0 <= i < |acts| && acts[i].Publish?
  }

  ghost predicate TriesToEnd(acts: seq<Act>) {
    exists i :: 0 <= i < |acts| && acts[i].Terminate?
  }

  /** Every act of a story is true, on its instance, and made by one call after the other. */
  lemma StoryIsTrue(env: Environment, id: InstanceId, n: nat)
    ensures var s := Story(env, id, n); s != [] && TrueFrom(env, s, n) && forall i :: 0 <= i < |s| ==> s[i].resource == id
  {
  }

  lemma TagStoryIsSafe(env: Environment, jit: Jit, id: InstanceId, n: nat)
    ensures var s := TagStory(env, jit, id, n);
            && (env.tag(n).Ok? ==> TriesToPublish(s) && !TriesToEnd(s))
            && (!env.tag(n).Ok? ==> TriesToEnd(s) && !TriesToPublish(s))
            && (env.tag(n).Ok? ==> s[1] == Publish(id, n + 1, env.publish(n + 1).Ok?))
            && (!env.tag(n).Ok? ==> s[1] == RemovalAt(env, jit, id, n + 1) && |s| == 3 && s[2].Terminate?)
            && (WasLaunched(FateOf(s)) <==> env.tag(n).Ok? && env.publish(n + 1).Ok?)
            && (forall i :: 0 <= i < |s| - 1 ==> !s[i].Terminate?)
  {
    var s := TagStory(env, jit, id, n);
    if env.tag(n).Ok? {
      assert s[1] == Publish(id, n + 1, env.publish(n + 1).Ok?);
    } else {
      assert s[2] == EndAt(env, id, n + 2);
    }
  }

  /** Only the end of a story counts for the fate. */
  lemma FateOfTail(a: seq<Act>, b: seq<Act>)
    requires b != []
    ensures FateOf(a + b) == FateOf(b)
  {
  }

  /**
   A created instance is published or terminated, or that is tried, and never both: it is not terminated once
   publishing was tried. It counts as launched exactly when publishing succeeded.
   */
  lemma StoryIsSafe(env: Environment, id: InstanceId, n: nat)
    ensures var s := Story(env, id, n);
            && (TriesToPublish(s) <==> !TriesToEnd(s))
            && (WasLaunched(FateOf(s)) ==> TriesToPublish(s))
            && (forall i :: 0 <= i < |s| && s[i].Publish? ==> (s[i].ok <==> WasLaunched(FateOf(s))))
            && (forall i :: 0 <= i < |s| - 1 ==> !s[i].Terminate?)
  {
    var s := Story(env, id, n);
    if |env.runnerNamePrefix + id| <= GITHUB_RUNNER_NAME_MAX_LENGTH && GeneratesGoodJit(env, id, n) {
      var rest := TagStory(env, env.jit(n).value, id, n + 1);
      TagStoryIsSafe(env, env.jit(n).value, id, n + 1);
      assert s == [s[0]] + rest;
      if env.tag(n + 1).Ok? {
        assert s[2] == rest[1];
      } else {
        assert s[3] == rest[2];
      }
    } else {
      assert s[|s| - 1].Terminate?;
    }
  }

  /** Before the instance of a registered runner is terminated, GitHub is asked to remove exactly that registration. */
  lemma RegistrationIsRemoved(env: Environment, id: InstanceId, n: nat)
    requires TriesToEnd(Story(env, id, n)) && Story(env, id, n)[0].Generate? && Story(env, id, n)[0].ok
    ensures var s := Story(env, id, n); |s| == 4 && s[2] == RemovalAt(env, env.jit(n).value, id, n + 2) && s[3].Terminate?
  {
    TagStoryIsSafe(env, env.jit(n).value, id, n + 1);
    StoryIsSafe(env, id, n);
    var s := Story(env, id, n);
    assert s == [s[0]] + TagStory(env, env.jit(n).value, id, n + 1);
  }

  /** An instance ended exactly when its fate says so. */
  lemma StoryEnds(env: Environment, id: InstanceId, n: nat)
    ensures |TerminatedBy(Story(env, id, n))| == (if FateOf(Story(env, id, n)) == Discarded then 1 else 0)
  {
    StoryIsTrue(env, id, n);
    StoryIsSafe(env, id, n);
    LastTerminates(Story(env, id, n));
  }

  ghost predicate Blamed(errors: seq<Error>, id: InstanceId) {
    exists i :: 0 <= i < |errors| && errors[i].resourceId == Some(id)
  }

  /** What must show for an instance of the given fate: retained if it may run unseen, and an error unless it is fine. */
  ghost predicate Shows(f: Fate, id: InstanceId, retained: set<InstanceId>, errors: seq<Error>) {
    && (f == LaunchedUntagged || f == Preserved ==> id in retained)
    && (f != Launched ==> Blamed(errors, id))
  }

  lemma BlamedGrows(before: seq<Error>, after: seq<Error>, id: InstanceId)
    requires Blamed(before, id) && Extends(before, after)
    ensures Blamed(after, id)
  {
    var i :| 0 <= i < |before| && before[i].resourceId == Some(id);
    assert after[i] == before[i];
  }

  /** How a fate is recorded: by its counter, and in no other way than it must show. */
  ghost predicate Marks(f: Fate, id: InstanceId, was: View, now: View) {
    && now.actions == was.actions.(
         launched := was.actions.launched + (if WasLaunched(f) then 1 else 0),
         terminated := was.actions.terminated + (if f == Discarded then 1 else 0),
         retainedUnknown := now.actions.retainedUnknown)
    && was.retained <= now.retained <= was.retained + {id}
    && Extends(was.errors, now.errors) && Shows(f, id, now.retained, now.errors)
  }

  function NameTooLong(id: InstanceId): (e: ReportedError)
    requires BoundedText(id)
    ensures e.resourceId == Some(id)
  {
    Error(Operation.GenerateJit, "RUNNER_NAME_TOO_LONG", None, Some(id))
  }

  function LaunchFailed(): ReportedError {
    Error(Operation.Launch, "EC2_LAUNCH_FAILED", None, None)
  }

  // ---------------------------------------------------------------- all created instances

  /** What is asked for an instance from a call on. */
  type Teller = (InstanceId, nat) -> seq<Act>

  ghost function StoryTeller(env: Environment): Teller {
    (id: InstanceId, n: nat) => Story(env, id, n)
  }

  /** The acts on one instance, starting with the given call. */
  datatype Part = Part(call: nat, acts: seq<Act>)

  /** The call after all parts. */
  ghost function End(parts: seq<Part>, from: nat): nat {
    if parts == [] then from else parts[|parts| - 1].call + |parts[|parts| - 1].acts|
  }

  ghost function ActsIn(parts: seq<Part>): seq<Act> {
    if parts == [] then [] else ActsIn(parts[..|parts| - 1]) + parts[|parts| - 1].acts
  }

  /** One story after the other. */
  ghost predicate Told(tell: Teller, ids: seq<InstanceId>, parts: seq<Part>, from: nat) {
    && |parts| == |ids|
    && forall j :: 0 <= j < |parts| ==>
         parts[j].call == End(parts[..j], from) && parts[j].acts == tell(ids[j], parts[j].call)
  }

  lemma ToldStep(tell: Teller, ids: seq<InstanceId>, parts: seq<Part>, from: nat, id: InstanceId, p: Part)
    requires Told(tell, ids, parts, from) && p == Part(End(parts, from), tell(id, End(parts, from)))
    ensures Told(tell, ids + [id], parts + [p], from)
  {
    var more := parts + [p];
    forall j | 0 <= j < |more| ensures more[j].call == End(more[..j], from) && more[j].acts == tell((ids + [id])[j], more[j].call) {
      assert more[..j] == parts[..j];
      assert parts[..|parts|] == parts;
    }
  }

  lemma ActsSnoc(parts: seq<Part>, p: Part)
    ensures ActsIn(parts + [p]) == ActsIn(parts) + p.acts
  {
    assert (parts + [p])[..|parts|] == parts;
  }

  ghost function Launches(parts: seq<Part>): nat {
    |Filter((p: Part) => WasLaunched(FateOf(p.acts)), parts)|
  }

  ghost function Discards(parts: seq<Part>): nat {
    |Filter((p: Part) => FateOf(p.acts) == Discarded, parts)|
  }

  ghost predicate EachShows(ids: seq<InstanceId>, parts: seq<Part>, retained: set<InstanceId>, errors: seq<Error>) {
    && |ids| == |parts|
    && forall j :: 0 <= j < |ids| ==> Shows(FateOf(parts[j].acts), ids[j], retained, errors)
  }

  ghost predicate LaunchesCounted(parts: seq<Part>, was: Actions, now: Actions) {
    now == was.(
      launched := was.launched + Launches(parts),
      terminated := was.terminated + Discards(parts),
      retainedUnknown := now.retainedUnknown)
  }

  ghost predicate RetainsOnly(ids: seq<InstanceId>, was: set<InstanceId>, now: set<InstanceId>) {
    was <= now && forall x :: x in now ==> x in was || x in ids
  }

  ghost predicate ScaledUpBy(ids: seq<InstanceId>, parts: seq<Part>, was: View, now: View) {
    && now.acts == was.acts + ActsIn(parts)
    && LaunchesCounted(parts, was.actions, now.actions)
    && RetainsOnly(ids, was.retained, now.retained)
    && Extends(was.errors, now.errors)
    && EachShows(ids, parts, now.retained, now.errors)
  }

  /** Every created instance met the fate the answers gave it, and the counters say how many met which. */
  ghost predicate ScaledUp(tell: Teller, ids: seq<InstanceId>, parts: seq<Part>, from: nat, was: View, now: View) {
    Told(tell, ids, parts, from) && ScaledUpBy(ids, parts, was, now)
  }

  ghost predicate OneMore(acts: seq<Act>, id: InstanceId, was: View, now: View) {
    now.acts == was.acts + acts && Marks(FateOf(acts), id, was, now)
  }

  lemma LaunchesCountedStep(parts: seq<Part>, p: Part, was: Actions, mid: Actions, now: Actions)
    requires LaunchesCounted(parts, was, mid)
    requires now == mid.(
               launched := mid.launched + (if WasLaunched(FateOf(p.acts)) then 1 else 0),
               terminated := mid.terminated + (if FateOf(p.acts) == Discarded then 1 else 0),
               retainedUnknown := now.retainedUnknown)
    ensures LaunchesCounted(parts + [p], was, now)
  {
    FilterAppend((p: Part) => WasLaunched(FateOf(p.acts)), parts, [p]);
    FilterAppend((p: Part) => FateOf(p.acts) == Discarded, parts, [p]);
  }

  lemma EachShowsStep(ids: seq<InstanceId>, parts: seq<Part>, mid: View, id: InstanceId, p: Part, now: View)
    requires EachShows(ids, parts, mid.retained, mid.errors) && Marks(FateOf(p.acts), id, mid, now)
    ensures EachShows(ids + [id], parts + [p], now.retained, now.errors)
  {
    forall j | 0 <= j < |ids| ensures Shows(FateOf(parts[j].acts), ids[j], now.retained, now.errors) {
      if FateOf(parts[j].acts) != Launched {
        BlamedGrows(mid.errors, now.errors, ids[j]);
      }
    }
  }

  lemma ScaledUpByStep(ids: seq<InstanceId>, parts: seq<Part>, was: View, mid: View, id: InstanceId, p: Part, now: View)
    requires ScaledUpBy(ids, parts, was, mid)
    requires OneMore(p.acts, id, mid, now)
    ensures ScaledUpBy(ids + [id], parts + [p], was, now)
  {
    CountsStep(ids, parts, was, mid, id, p, now);
    EachShowsStep(ids, parts, mid, id, p, now);
    RetainsOnlyStep(ids, id, was.retained, mid.retained, now.retained);
    ActsSnoc(parts, p);
  }

  lemma CountsStep(ids: seq<InstanceId>, parts: seq<Part>, was: View, mid: View, id: InstanceId, p: Part, now: View)
    requires LaunchesCounted(parts, was.actions, mid.actions) && Marks(FateOf(p.acts), id, mid, now)
    ensures LaunchesCounted(parts + [p], was.actions, now.actions)
  {
    LaunchesCountedStep(parts, p, was.actions, mid.actions, now.actions);
  }

  lemma ScaledUpStep(tell: Teller, ids: seq<InstanceId>, parts: seq<Part>, from: nat, was: View, mid: View,
                     id: InstanceId, p: Part, now: View)
    requires ScaledUp(tell, ids, parts, from, was, mid)
    requires p == Part(End(parts, from), tell(id, End(parts, from))) && OneMore(p.acts, id, mid, now)
    ensures ScaledUp(tell, ids + [id], parts + [p], from, was, now)
  {
    ToldStep(tell, ids, parts, from, id, p);
    ScaledUpByStep(ids, parts, was, mid, id, p, now);
  }

  /** The same for the next of a sequence of instances. */
  lemma ScaledUpNext(tell: Teller, ids: seq<InstanceId>, k: nat, parts: seq<Part>, from: nat, was: View, mid: View,
                     p: Part, now: View)
    requires k < |ids| && ScaledUp(tell, ids[..k], parts, from, was, mid)
    requires p.call == End(parts, from) && p.acts == tell(ids[k], p.call) && OneMore(p.acts, ids[k], mid, now)
    ensures ScaledUp(tell, ids[..k + 1], parts + [p], from, was, now) && End(parts + [p], from) == p.call + |p.acts|
  {
    ScaledUpStep(tell, ids[..k], parts, from, was, mid, ids[k], p, now);
    assert ids[..k + 1] == ids[..k] + [ids[k]];
  }

  lemma RetainsOnlyStep(ids: seq<InstanceId>, id: InstanceId, was: set<InstanceId>, mid: set<InstanceId>, now: set<InstanceId>)
    requires RetainsOnly(ids, was, mid) && mid <= now <= mid + {id}
    ensures RetainsOnly(ids + [id], was, now)
  {
  }

  lemma EachShowsGrows(ids: seq<InstanceId>, parts: seq<Part>, retained: set<InstanceId>,
                       errors: seq<Error>, more: seq<Error>)
    requires EachShows(ids, parts, retained, errors) && Extends(errors, more)
    ensures EachShows(ids, parts, retained, more)
  {
    forall j | 0 <= j < |ids| ensures Shows(FateOf(parts[j].acts), ids[j], retained, more) {
      if FateOf(parts[j].acts) != Launched {
        BlamedGrows(errors, more, ids[j]);
      }
    }
  }

  lemma {:induction false} LaunchesAndDiscards(parts: seq<Part>)
    ensures Launches(parts) + Discards(parts) <= |parts|
  {
    if parts != [] {
      LaunchesAndDiscards(parts[1..]);
    }
  }

  lemma TrueAppend(env: Environment, a: seq<Act>, b: seq<Act>, from: nat)
    requires TrueFrom(env, a, from) && TrueFrom(env, b, from + |a|)
    ensures TrueFrom(env, a + b, from)
  {
  }

  ghost predicate TellsTruth(env: Environment, tell: Teller) {
    forall id, n :: TrueFrom(env, tell(id, n), n)
                    && |TerminatedBy(tell(id, n))| == (if FateOf(tell(id, n)) == Discarded then 1 else 0)
  }

  lemma StoriesTellTruth(env: Environment)
    ensures TellsTruth(env, StoryTeller(env))
  {
    forall id, n ensures TrueFrom(env, StoryTeller(env)(id, n), n)
      && |TerminatedBy(StoryTeller(env)(id, n))| == (if FateOf(StoryTeller(env)(id, n)) == Discarded then 1 else 0) {
      StoryIsTrue(env, id, n);
      StoryEnds(env, id, n);
    }
  }

  lemma ToldBefore(tell: Teller, ids: seq<InstanceId>, parts: seq<Part>, from: nat)
    requires Told(tell, ids, parts, from) && parts != []
    ensures var k := |parts| - 1;
            && Told(tell, ids[..k], parts[..k], from) && parts[k].call == End(parts[..k], from)
            && parts[k].acts == tell(ids[k], parts[k].call) && parts == parts[..k] + [parts[k]]
  {
    var k := |parts| - 1;
    var before := parts[..k];
    forall j | 0 <= j < k ensures before[j].call == End(before[..j], from) && before[j].acts == tell(ids[..k][j], before[j].call) {
      assert before[..j] == parts[..j] && before[j] == parts[j];
    }
  }

  lemma TruthOf(env: Environment, tell: Teller, id: InstanceId, n: nat, acts: seq<Act>)
    requires TellsTruth(env, tell) && acts == tell(id, n)
    ensures TrueFrom(env, acts, n) && |TerminatedBy(acts)| == (if FateOf(acts) == Discarded then 1 else 0)
  {
  }

  /** All acts of a launch are true, in the order of the calls, and as many instances ended as were discarded. */
  lemma {:induction false} StoriesAreTrue(env: Environment, tell: Teller, ids: seq<InstanceId>, parts: seq<Part>, from: nat)
    requires TellsTruth(env, tell) && Told(tell, ids, parts, from)
    ensures TrueFrom(env, ActsIn(parts), from) && from + |ActsIn(parts)| == End(parts, from)
    ensures |TerminatedBy(ActsIn(parts))| == Discards(parts)
  {
    if parts != [] {
      var k := |parts| - 1;
      var before, p := parts[..k], parts[k];
      ToldBefore(tell, ids, parts, from);
      StoriesAreTrue(env, tell, ids[..k], before, from);
      TruthOf(env, tell, ids[k], p.call, p.acts);
      NextIsTrue(env, before, p, from);
    }
  }

  lemma NextIsTrue(env: Environment, before: seq<Part>, p: Part, from: nat)
    requires TrueFrom(env, ActsIn(before), from) && |TerminatedBy(ActsIn(before))| == Discards(before)
    requires TrueFrom(env, p.acts, from + |ActsIn(before)|)
    requires |TerminatedBy(p.acts)| == (if FateOf(p.acts) == Discarded then 1 else 0)
    ensures TrueFrom(env, ActsIn(before) + p.acts, from)
    ensures |TerminatedBy(ActsIn(before) + p.acts)| == Discards(before + [p])
  {
    TrueAppend(env, ActsIn(before), p.acts, from);
    TerminatedByAppend(ActsIn(before), p.acts);
    FilterAppend((p: Part) => FateOf(p.acts) == Discarded, before, [p]);
  }

  /** Each act belongs to one created instance's story. */
  lemma {:induction false} ActsAreTold(tell: Teller, ids: seq<InstanceId>, parts: seq<Part>, from: nat, i: nat)
    returns (id: InstanceId, n: nat)
    requires Told(tell, ids, parts, from) && i < |ActsIn(parts)|
    ensures id in ids && ActsIn(parts)[i] in tell(id, n)
  {
    var k := |ids| - 1;
    ToldBefore(tell, ids, parts, from);
    if i < |ActsIn(parts[..k])| {
      id, n := ActsAreTold(tell, ids[..k], parts[..k], from, i);
    } else {
      id, n := ids[k], parts[k].call;
      assert ActsIn(parts)[i] == parts[k].acts[i - |ActsIn(parts[..k])|];
    }
  }

  /** An act on a created instance; if it may end the instance, publishing was never tried. */
  ghost predicate IsOnCreated(env: Environment, ids: seq<InstanceId>, act: Act) {
    exists id, n :: id in ids && act in Story(env, id, n) && act.resource == id
      && (act.Terminate? ==> !TriesToPublish(Story(env, id, n)))
  }

  lemma ActsAreOnCreated(env: Environment, ids: seq<InstanceId>, parts: seq<Part>, from: nat, i: nat)
    requires Told(StoryTeller(env), ids, parts, from) && i < |ActsIn(parts)|
    ensures IsOnCreated(env, ids, ActsIn(parts)[i])
  {
    var id, n := ActsAreTold(StoryTeller(env), ids, parts, from, i);
    StoryIsTrue(env, id, n);
    StoryIsSafe(env, id, n);
  }
}
