/**
 Reading the indexed instances back from EC2: which are classified, whose entry is released, and whose spot request
 is orphaned; then bringing the index in line.
 */
module StandbyRead {
  import opened Prelude
  import opened WarmIndex

  const WARM_ACTIVATION_GRACE_MS: int := 10 * 60 * 1000
  const ID_READ_CHUNK: nat := 200

  type SpotRequestId = string

  datatype StateName = Pending | Running | Stopping | Stopped | ShuttingDown | Terminated

  datatype SpotState = Open | Active | Disabled | Closed | Cancelled | Failed

  /** `stoppedByAws`: the status code is one of those AWS sets when it stops or reclaims the instance. */
  datatype SpotRequest = SpotRequest(state: Option<SpotState>, stoppedByAws: bool, instanceId: Option<InstanceId>)

  /** A recorded activation time, which may not parse as a date. */
  datatype Stamp = At(ms: int) | Unreadable

  /** What EC2 tells about an instance; `expires` is the expiry tag. */
  datatype Instance = Instance(
    launchTime: Option<int>,
    expires: Option<int>,
    instanceType: Option<string>,
    availabilityZone: Option<string>,
    state: Option<StateName>,
    selfStopped: bool, // the state reason is an instance-initiated shutdown
    spotRequestId: Option<SpotRequestId>,
    activated: Option<Stamp>)

  datatype Indexed = Indexed(instanceId: InstanceId, spotRequestId: Option<SpotRequestId>, activatedAt: Option<Stamp>)

  predicate LiveRequest(r: SpotRequest) {
    r.state.Some? && r.state.value in {Open, Active, Disabled}
  }

  /** The pool state of an instance; none for an activated one, which the pool calls ACTIVE. */
  function Classify(i: Instance, request: Option<SpotRequest>): Option<PoolState> {
    if i.activated.Some? then None
    else if i.state == Some(Stopped) then
      var spot := i.spotRequestId.Some?;
      var requestUsable := request.None? || request.value.state.None? || LiveRequest(request.value);
      var reclaimed := request.Some? && request.value.stoppedByAws;
      if i.selfStopped && !(spot && reclaimed) && (!spot || requestUsable) then Some(WARM) else Some(GARBAGE)
    else if i.state == Some(Pending) || i.state == Some(Running) || i.state == Some(Stopping) then Some(PRIMING)
    else Some(GARBAGE)
  }

  // ---------------------------------------------------------------- reading by ID

  datatype Answer = Found | NotFound(named: set<string>) | OtherError

  /** EC2: which IDs exist, and how the n-th failing call words its error. It never names an existing ID as missing. */
  datatype Directory = Directory(existing: set<string>, wording: nat -> set<string>, broken: nat -> bool) {
    function Describe(call: nat, ids: seq<string>): Answer {
      if broken(call) then OtherError
      else if forall id :: id in ids ==> id in existing then Found
      else NotFound(wording(call) - existing)
    }
  }

  ghost function Present(d: Directory, ids: seq<string>): seq<string> {
    Filter((id: string) => id in d.existing, ids)
  }

  function Named(named: set<string>, ids: seq<string>): seq<string> {
    Filter((id: string) => id in named, ids)
  }

  function Unnamed(named: set<string>, ids: seq<string>): seq<string> {
    Filter((id: string) => id !in named, ids)
  }

  datatype Listing = Listing(results: seq<string>, missing: seq<string>)

  /** The existing IDs in the order asked, and all the others as missing. */
  ghost predicate Answers(d: Directory, ids: seq<string>, r: Listing) {
    && r.results == Present(d, ids)
    && |r.results| + |r.missing| == |ids|
    && (forall i :: 0 <= i < |r.missing| ==> r.missing[i] in ids && r.missing[i] !in d.existing)
    && (forall i :: 0 <= i < |ids| && ids[i] !in d.existing ==> ids[i] in r.missing)
  }

  /** That call, for some of the ids, fails for another reason than a missing id, or names none of them. */
  ghost predicate Fails(d: Directory, call: nat, ids: seq<string>, rest: seq<string>) {
    && rest != [] && (forall i :: 0 <= i < |rest| ==> rest[i] in ids)
    && match d.Describe(call, rest)
       case Found => false
       case NotFound(named) => forall i :: 0 <= i < |rest| ==> rest[i] !in named
       case OtherError => true
  }

  /** One chunk: one unknown ID fails the whole call, so the named IDs are dropped and the rest is read again. */
  method DescribeChunk(d: Directory, ids: seq<string>, firstCall: nat)
    returns (r: Option<Listing>, nextCall: nat, ghost rest: seq<string>)
    ensures r.Some? ==> Answers(d, ids, r.value)
    ensures r.None? ==> nextCall > 0 && Fails(d, nextCall - 1, ids, rest)
  {
    rest := [];
    var remaining, missing := ids, [];
    nextCall := firstCall;
    while |remaining| > 0
      invariant Present(d, remaining) == Present(d, ids)
      invariant |remaining| + |missing| == |ids|
      invariant forall i :: 0 <= i < |remaining| ==> remaining[i] in ids
      invariant forall i :: 0 <= i < |missing| ==> missing[i] in ids && missing[i] !in d.existing
      invariant forall i :: 0 <= i < |ids| ==> ids[i] in remaining || ids[i] in missing
      decreases |remaining|
    {
      var answer := d.Describe(nextCall, remaining);
      nextCall := nextCall + 1;
      if answer.Found? {
        AllPresent(d, remaining);
        return Some(Listing(remaining, missing)), nextCall, rest;
      }
      rest := remaining;
      if answer.OtherError? {
        return None, nextCall, rest;
      }
      var gone := Named(answer.named, remaining);
      if |gone| == 0 {
        return None, nextCall, rest;
      }
      DropNamed(d, remaining, answer.named);
      missing, remaining := missing + gone, Unnamed(answer.named, remaining);
    }
    return Some(Listing([], missing)), nextCall, rest;
  }

  /** All chunks. */
  method DescribeById(d: Directory, ids: seq<string>) returns (r: Option<Listing>, ghost failed: (nat, seq<string>))
    ensures r.Some? ==> Answers(d, ids, r.value)
    ensures r.None? ==> Fails(d, failed.0, ids, failed.1)
  {
    failed := (0, []);
    var all, offset, call: nat := Listing([], []), 0, 0;
    while offset < |ids|
      invariant Answers(d, ids[..Min(offset, |ids|)], all)
    {
      var end := if offset + ID_READ_CHUNK < |ids| then offset + ID_READ_CHUNK else |ids|;
      var chunk;
      ghost var rest;
      chunk, call, rest := DescribeChunk(d, ids[offset..end], call);
      if chunk.None? {
        ChunkFails(d, call - 1, ids, offset, end, rest);
        return None, (call - 1, rest);
      }
      NextChunk(d, ids, offset, end, all, chunk.value);
      all := Listing(all.results + chunk.value.results, all.missing + chunk.value.missing);
      offset := offset + ID_READ_CHUNK;
    }
    assert ids[..|ids|] == ids;
    return Some(all), failed;
  }

  lemma ChunkFails(d: Directory, call: nat, ids: seq<string>, offset: nat, end: nat, rest: seq<string>)
    requires offset <= end <= |ids| && Fails(d, call, ids[offset..end], rest)
    ensures Fails(d, call, ids, rest)
  {
    forall i | 0 <= i < |rest| ensures rest[i] in ids {
      assert rest[i] in ids[offset..end];
    }
  }

  lemma NextChunk(d: Directory, ids: seq<string>, offset: nat, end: nat, all: Listing, chunk: Listing)
    requires offset <= end <= |ids| && Answers(d, ids[..offset], all) && Answers(d, ids[offset..end], chunk)
    ensures Answers(d, ids[..end], Listing(all.results + chunk.results, all.missing + chunk.missing))
  {
    assert ids[..end] == ids[..offset] + ids[offset..end];
    AnswersConcat(d, ids[..offset], ids[offset..end], all, chunk);
  }

  lemma AnswersConcat(d: Directory, a: seq<string>, b: seq<string>, x: Listing, y: Listing)
    requires Answers(d, a, x) && Answers(d, b, y)
    ensures Answers(d, a + b, Listing(x.results + y.results, x.missing + y.missing))
  {
    FilterAppend((id: string) => id in d.existing, a, b);
  }

  lemma {:induction false} AllPresent(d: Directory, ids: seq<string>)
    requires forall id :: id in ids ==> id in d.existing
    ensures Present(d, ids) == ids
  {
    if ids != [] {
      AllPresent(d, ids[1..]);
    }
  }

  lemma {:induction false} DropNamed(d: Directory, ids: seq<string>, named: set<string>)
    requires named !! d.existing
    ensures |Named(named, ids)| + |Unnamed(named, ids)| == |ids|
    ensures Present(d, Unnamed(named, ids)) == Present(d, ids)
  {
    if ids != [] {
      DropNamed(d, ids[1..], named);
      var rest := Unnamed(named, ids[1..]);
      if ids[0] in named {
        assert ids[0] !in d.existing;
        assert Unnamed(named, ids) == rest;
      } else {
        assert Unnamed(named, ids) == [ids[0]] + rest;
        FilterAppend((id: string) => id in d.existing, [ids[0]], rest);
        FilterAppend((id: string) => id in d.existing, [ids[0]], ids[1..]);
        assert ids == [ids[0]] + ids[1..];
      }
    }
  }

  // ---------------------------------------------------------------- the read-back

  /** What one read sees: the instances found by ID, the spot requests found by ID if that lookup worked, the clock. */
  datatype View = View(
    found: map<InstanceId, Instance>, requests: Option<map<SpotRequestId, SpotRequest>>, now: int)

  datatype Entry = Entry(
    instanceId: InstanceId, instance: Option<Instance>, gone: bool, activatedAt: Option<Stamp>, settled: bool,
    spotRequestId: Option<SpotRequestId>)

  function SettledActivation(at: Option<Stamp>, now: int): bool {
    at.Some? && at.value.At? && now - at.value.ms >= WARM_ACTIVATION_GRACE_MS
  }

  function ToEntry(view: View, item: Indexed): Entry {
    var instance := if item.instanceId in view.found then Some(view.found[item.instanceId]) else None;
    var activatedAt := if instance.Some? && instance.value.activated.Some? then instance.value.activated else item.activatedAt;
    Entry(item.instanceId, instance,
          instance.None? || instance.value.state == Some(ShuttingDown) || instance.value.state == Some(Terminated),
          activatedAt, SettledActivation(activatedAt, view.now),
          if instance.Some? && instance.value.spotRequestId.Some? then instance.value.spotRequestId else item.spotRequestId)
  }

  function StateOf(e: Entry): Option<StateName> {
    if e.instance.Some? then e.instance.value.state else None
  }

  predicate IsUp(e: Entry) {
    !e.gone && (StateOf(e) == Some(Pending) || StateOf(e) == Some(Running))
  }

  predicate Finished(e: Entry) {
    e.gone || (e.activatedAt.Some? && e.settled)
  }

  predicate IsClassified(e: Entry) {
    !e.gone && e.activatedAt.None?
  }

  /** The spot requests the read looks up: of finished entries, and of classified entries that are stopped. */
  predicate LooksUp(e: Entry) {
    Finished(e) || (IsClassified(e) && StateOf(e) == Some(Stopped))
  }

  function AskedFor(entries: seq<Entry>): set<SpotRequestId> {
    set i | 0 <= i < |entries| && LooksUp(entries[i]) && entries[i].spotRequestId.Some? :: entries[i].spotRequestId.value
  }

  function Requests(view: View, entries: seq<Entry>): map<SpotRequestId, SpotRequest> {
    if view.requests.None? then map[]
    else map id | id in view.requests.value && id in AskedFor(entries) :: view.requests.value[id]
  }

  datatype Orphan = Orphan(spotRequestId: SpotRequestId, instanceId: InstanceId, replacement: Option<InstanceId>)

  /** A classified instance as the index records it. */
  datatype Standby = Standby(instanceId: InstanceId, fields: Fields)

  datatype Read = Read(instances: seq<Standby>, orphans: seq<Orphan>, released: seq<InstanceId>, lookupFailed: bool)

  /** The four ways an indexed entry can go. */
  datatype Fate = Classified | Released | Orphaned | LeftAlone

  function FateOf(e: Entry, requests: map<SpotRequestId, SpotRequest>, lookupFailed: bool): Fate {
    if IsClassified(e) then Classified
    else if !Finished(e) then LeftAlone
    else if e.spotRequestId.GetOr("") == "" then Released
    else if lookupFailed then LeftAlone
    else if e.spotRequestId.value !in requests || !LiveRequest(requests[e.spotRequestId.value]) then Released
    else
      if IsUp(e) && requests[e.spotRequestId.value].state != Some(Active) then LeftAlone else Orphaned
  }

  /** The entries of one fate, in index order. */
  function WithFate(fate: Fate, entries: seq<Entry>, requests: map<SpotRequestId, SpotRequest>, lookupFailed: bool): (r: seq<Entry>)
    ensures forall k :: 0 <= k < |r| ==> r[k] in entries && FateOf(r[k], requests, lookupFailed) == fate
    ensures forall k :: 0 <= k < |entries| && FateOf(entries[k], requests, lookupFailed) == fate ==> entries[k] in r
  {
    if entries == [] then []
    else
      var last := entries[|entries| - 1];
      WithFate(fate, entries[..|entries| - 1], requests, lookupFailed)
        + (if FateOf(last, requests, lookupFailed) == fate then [last] else [])
  }

  ghost function EntryIds(entries: seq<Entry>): seq<InstanceId> {
    seq(|entries|, i requires 0 <= i < |entries| => entries[i].instanceId)
  }

  function Entries(view: View, indexed: seq<Indexed>): seq<Entry> {
    seq(|indexed|, i requires 0 <= i < |indexed| => ToEntry(view, indexed[i]))
  }

  function OrphanOf(e: Entry, requests: map<SpotRequestId, SpotRequest>): Orphan {
    var id := e.spotRequestId.GetOr("");
    var other := if id in requests then requests[id].instanceId else None;
    Orphan(id, e.instanceId, if other.Some? && other.value != e.instanceId then other else None)
  }

  ghost function Orphans(entries: seq<Entry>, requests: map<SpotRequestId, SpotRequest>): seq<Orphan> {
    seq(|entries|, i requires 0 <= i < |entries| => OrphanOf(entries[i], requests))
  }

  ghost function ReleasedIds(entries: seq<Entry>, requests: map<SpotRequestId, SpotRequest>, lookupFailed: bool): seq<InstanceId> {
    EntryIds(WithFate(Released, entries, requests, lookupFailed))
  }

  ghost function OrphanList(entries: seq<Entry>, requests: map<SpotRequestId, SpotRequest>, lookupFailed: bool): seq<Orphan> {
    Orphans(WithFate(Orphaned, entries, requests, lookupFailed), requests)
  }

  lemma FateStep(
      fate: Fate, entries: seq<Entry>, i: nat, requests: map<SpotRequestId, SpotRequest>, lookupFailed: bool)
    requires i < |entries|
    ensures WithFate(fate, entries[..i + 1], requests, lookupFailed)
      == WithFate(fate, entries[..i], requests, lookupFailed)
         + (if FateOf(entries[i], requests, lookupFailed) == fate then [entries[i]] else [])
  {
    assert entries[..i + 1][..i] == entries[..i];
  }

  lemma ListsStep(entries: seq<Entry>, i: nat, requests: map<SpotRequestId, SpotRequest>, lookupFailed: bool)
    requires i < |entries|
    ensures ReleasedIds(entries[..i + 1], requests, lookupFailed) == ReleasedIds(entries[..i], requests, lookupFailed)
      + (if FateOf(entries[i], requests, lookupFailed) == Released then [entries[i].instanceId] else [])
    ensures OrphanList(entries[..i + 1], requests, lookupFailed) == OrphanList(entries[..i], requests, lookupFailed)
      + (if FateOf(entries[i], requests, lookupFailed) == Orphaned then [OrphanOf(entries[i], requests)] else [])
  {
    FateStep(Released, entries, i, requests, lookupFailed);
    FateStep(Orphaned, entries, i, requests, lookupFailed);
  }

  /** The branches of the loop body. */
  method SortOne(e: Entry, requests: map<SpotRequestId, SpotRequest>, lookupFailed: bool)
    returns (released: seq<InstanceId>, orphans: seq<Orphan>)
    requires Finished(e)
    ensures released == if FateOf(e, requests, lookupFailed) == Released then [e.instanceId] else []
    ensures orphans == if FateOf(e, requests, lookupFailed) == Orphaned then [OrphanOf(e, requests)] else []
  {
    var id := e.spotRequestId.GetOr("");
    if id == "" {
      return [e.instanceId], [];
    }
    if lookupFailed {
      return [], [];
    }
    if id !in requests || !LiveRequest(requests[id]) {
      return [e.instanceId], [];
    }
    if IsUp(e) && requests[id].state != Some(Active) {
      return [], [];
    }
    return [], [OrphanOf(e, requests)];
  }

  /** The loop over the finished entries. */
  method SortFinished(entries: seq<Entry>, requests: map<SpotRequestId, SpotRequest>, lookupFailed: bool)
    returns (released: seq<InstanceId>, orphans: seq<Orphan>)
    ensures released == ReleasedIds(entries, requests, lookupFailed)
    ensures orphans == OrphanList(entries, requests, lookupFailed)
  {
    released, orphans := [], [];
    var i := 0;
    while i < |entries|
      invariant i <= |entries|
      invariant released == ReleasedIds(entries[..i], requests, lookupFailed)
      invariant orphans == OrphanList(entries[..i], requests, lookupFailed)
    {
      ListsStep(entries, i, requests, lookupFailed);
      if Finished(entries[i]) {
        var moreReleased, moreOrphans := SortOne(entries[i], requests, lookupFailed);
        released, orphans := released + moreReleased, orphans + moreOrphans;
      } else {
        assert FateOf(entries[i], requests, lookupFailed) in {Classified, LeftAlone};
      }
      i := i + 1;
    }
    assert entries[..i] == entries;
  }

  function ToStandby(e: Entry, requests: map<SpotRequestId, SpotRequest>): Standby
    requires e.instance.Some? && e.instance.value.activated.None?
  {
    var i, id := e.instance.value, e.spotRequestId.GetOr("");
    var request := if e.spotRequestId.Some? && id in requests then Some(requests[id]) else None;
    Standby(e.instanceId, Fields(Classify(i, request).value, i.launchTime, i.expires, i.instanceType, i.availabilityZone,
                                 i.spotRequestId))
  }

  /** What a read gives: every entry in the list of its fate, in index order. */
  ghost predicate IsRead(indexed: seq<Indexed>, view: View, r: Read) {
    var entries := Entries(view, indexed);
    var requests := Requests(view, entries);
    var failed := LookupFails(view, entries);
    var classified := WithFate(Classified, entries, requests, failed);
    && r.lookupFailed == failed
    && r.released == ReleasedIds(entries, requests, failed)
    && r.orphans == OrphanList(entries, requests, failed)
    && |r.instances| == |classified|
    && (forall i :: 0 <= i < |classified| ==>
          && classified[i].instance.Some? && classified[i].instance.value.activated.None?
          && r.instances[i] == ToStandby(classified[i], requests))
  }

  /** The lookup of spot requests fails only if there is something to look up. */
  predicate LookupFails(view: View, entries: seq<Entry>) {
    view.requests.None? && AskedFor(entries) != {}
  }

  method ReadStandbyInstances(indexed: seq<Indexed>, view: View) returns (r: Read)
    ensures IsRead(indexed, view, r)
  {
    var entries := Entries(view, indexed);
    var requests := Requests(view, entries);
    var failed := LookupFails(view, entries);
    var released, orphans := SortFinished(entries, requests, failed);
    var classified := WithFate(Classified, entries, requests, failed);
    forall i | 0 <= i < |classified| ensures classified[i].instance.Some? && classified[i].instance.value.activated.None? {
      assert classified[i] in entries;
      var k :| 0 <= k < |entries| && entries[k] == classified[i];
      assert entries[k] == ToEntry(view, indexed[k]);
    }
    var instances := seq(|classified|, i requires 0 <= i < |classified| => ToStandby(classified[i], requests));
    r := Read(instances, orphans, released, failed);
  }

  ghost predicate DistinctIndexed(indexed: seq<Indexed>) {
    forall j, k :: 0 <= j < k < |indexed| ==> indexed[j].instanceId != indexed[k].instanceId
  }

  /** EC2 does not know the instance, or it is on its way out. */
  ghost predicate IsGone(view: View, item: Indexed) {
    item.instanceId in view.found ==> view.found[item.instanceId].state in {Some(ShuttingDown), Some(Terminated)}
  }

  /** The activation time on record: the tag counts, and the index where EC2 shows no tag. */
  ghost predicate WasActivated(view: View, item: Indexed, t: Stamp) {
    var tag := if item.instanceId in view.found then view.found[item.instanceId].activated else None;
    tag == Some(t) || (tag == None && item.activatedAt == Some(t))
  }

  ghost predicate NeverActivated(view: View, item: Indexed) {
    item.activatedAt == None && (item.instanceId in view.found ==> view.found[item.instanceId].activated == None)
  }

  /** Activated ten minutes ago or earlier, by a time that can be read. */
  ghost predicate IsSettled(view: View, item: Indexed) {
    exists ms :: WasActivated(view, item, At(ms)) && ms + 600000 <= view.now
  }

  /** Live and never activated: a warm instance, or one on its way. */
  ghost predicate IsStandby(view: View, item: Indexed) {
    !IsGone(view, item) && NeverActivated(view, item)
  }

  /** Live, and activated more recently than the grace time: scale-up may still be at it. */
  ghost predicate IsYoungActivation(view: View, item: Indexed) {
    !IsGone(view, item) && !NeverActivated(view, item) && !IsSettled(view, item)
  }

  /** Gone, or activated and settled. */
  ghost predicate IsOver(view: View, item: Indexed) {
    IsGone(view, item) || IsSettled(view, item)
  }

  /** The spot request of the instance as EC2 shows it, or else as the index has it; an empty id is none. */
  ghost predicate HasRequest(view: View, item: Indexed, request: SpotRequestId) {
    var shown := if item.instanceId in view.found then view.found[item.instanceId].spotRequestId else None;
    request != "" && (shown == Some(request) || (shown == None && item.spotRequestId == Some(request)))
  }

  /** AWS tells that the spot request of the entry is live. */
  ghost predicate HasLiveRequest(view: View, item: Indexed) {
    exists id :: HasRequest(view, item, id) && view.requests != None && id in view.requests.value
                 && view.requests.value[id].state in {Some(Open), Some(Active), Some(Disabled)}
  }

  /** Nothing rules out that the spot request of the entry is live: AWS says so, or the lookup failed. */
  ghost predicate MayHaveLiveRequest(view: View, item: Indexed) {
    HasLiveRequest(view, item) || (view.requests == None && exists id :: HasRequest(view, item, id))
  }

  /** Cancelling the request of a running instance ends it, unless the request is active. */
  ghost predicate MayBeCancelled(view: View, item: Indexed) {
    var up := item.instanceId in view.found && view.found[item.instanceId].state in {Some(Pending), Some(Running)};
    up ==> exists id :: HasRequest(view, item, id) && view.requests != None && id in view.requests.value
                        && view.requests.value[id].state == Some(Active)
  }

  /** What the entry of an item says, in terms of EC2's answers. */
  lemma EntryTellsItem(view: View, item: Indexed)
    ensures var e := ToEntry(view, item);
            && (IsClassified(e) <==> IsStandby(view, item))
            && (Finished(e) <==> IsOver(view, item))
            && (forall id :: HasRequest(view, item, id) <==> e.spotRequestId == Some(id) && id != "")
            && (IsUp(e) <==> item.instanceId in view.found && view.found[item.instanceId].state in {Some(Pending), Some(Running)})
  {
    var e := ToEntry(view, item);
    if e.activatedAt.Some? {
      assert WasActivated(view, item, e.activatedAt.value);
    }
  }

  ghost function FateIn(view: View, indexed: seq<Indexed>, i: nat): Fate
    requires i < |indexed|
  {
    var entries := Entries(view, indexed);
    FateOf(entries[i], Requests(view, entries), LookupFails(view, entries))
  }

  function StandbyIds(instances: seq<Standby>): (ids: seq<InstanceId>)
    ensures |ids| == |instances| && forall k :: 0 <= k < |ids| ==> ids[k] == instances[k].instanceId
  {
    seq(|instances|, k requires 0 <= k < |instances| => instances[k].instanceId)
  }

  ghost function OrphanIds(orphans: seq<Orphan>): (ids: seq<InstanceId>)
    ensures |ids| == |orphans| && forall k :: 0 <= k < |ids| ==> ids[k] == orphans[k].instanceId
  {
    seq(|orphans|, k requires 0 <= k < |orphans| => orphans[k].instanceId)
  }

  ghost function IdsWithFate(fate: Fate, view: View, indexed: seq<Indexed>): seq<InstanceId> {
    var entries := Entries(view, indexed);
    EntryIds(WithFate(fate, entries, Requests(view, entries), LookupFails(view, entries)))
  }

  lemma ListsHoldFates(indexed: seq<Indexed>, view: View, r: Read)
    requires IsRead(indexed, view, r)
    ensures StandbyIds(r.instances) == IdsWithFate(Classified, view, indexed)
    ensures r.released == IdsWithFate(Released, view, indexed)
    ensures OrphanIds(r.orphans) == IdsWithFate(Orphaned, view, indexed)
  {
  }

  /** With distinct ids an id is listed under a fate if and only if that is the fate of its entry. */
  lemma OneFateEach(view: View, indexed: seq<Indexed>, i: nat, fate: Fate)
    requires i < |indexed| && DistinctIndexed(indexed)
    ensures indexed[i].instanceId in IdsWithFate(fate, view, indexed) <==> FateIn(view, indexed, i) == fate
  {
    var entries := Entries(view, indexed);
    var chosen := WithFate(fate, entries, Requests(view, entries), LookupFails(view, entries));
    var ids := IdsWithFate(fate, view, indexed);
    assert entries[i] == ToEntry(view, indexed[i]);
    if FateIn(view, indexed, i) == fate {
      assert entries[i] in chosen;
      var k :| 0 <= k < |chosen| && chosen[k] == entries[i];
      assert ids[k] == indexed[i].instanceId;
    }
    if indexed[i].instanceId in ids {
      var k :| 0 <= k < |ids| && ids[k] == indexed[i].instanceId;
      assert chosen[k] in entries;
      var j :| 0 <= j < |entries| && entries[j] == chosen[k];
      assert entries[j] == ToEntry(view, indexed[j]);
      assert j == i;
    }
  }

  /**
   Each indexed id is in at most one of the three lists of a read: in the first if and only if its instance is live and
   was never activated; in the second if and only if its instance is gone or its activation settled, and no live request
   is possible, be it that AWS says so or that there is none; in the third if and only if AWS tells of a live request that
   may be cancelled. A young activation is in none.
   */
  lemma ListsShareOut(indexed: seq<Indexed>, view: View, r: Read, i: nat)
    requires IsRead(indexed, view, r) && DistinctIndexed(indexed) && i < |indexed|
    ensures indexed[i].instanceId in StandbyIds(r.instances) <==> IsStandby(view, indexed[i])
    ensures indexed[i].instanceId in r.released <==>
              IsOver(view, indexed[i]) && !MayHaveLiveRequest(view, indexed[i])
    ensures indexed[i].instanceId in OrphanIds(r.orphans) <==>
              IsOver(view, indexed[i]) && HasLiveRequest(view, indexed[i]) && MayBeCancelled(view, indexed[i])
    ensures indexed[i].instanceId in r.released ==>
              indexed[i].instanceId !in StandbyIds(r.instances) && indexed[i].instanceId !in OrphanIds(r.orphans)
    ensures indexed[i].instanceId in OrphanIds(r.orphans) ==> indexed[i].instanceId !in StandbyIds(r.instances)
    ensures IsYoungActivation(view, indexed[i]) ==>
              && indexed[i].instanceId !in StandbyIds(r.instances) && indexed[i].instanceId !in OrphanIds(r.orphans)
              && indexed[i].instanceId !in r.released
  {
    ListsHoldFates(indexed, view, r);
    OneFateEach(view, indexed, i, Classified);
    OneFateEach(view, indexed, i, Released);
    OneFateEach(view, indexed, i, Orphaned);
    FateIsSafe(view, indexed, i);
  }

  /** What the fate of an entry says about its instance and its request. */
  lemma FateIsSafe(view: View, indexed: seq<Indexed>, i: nat)
    requires i < |indexed|
    ensures FateIn(view, indexed, i) == Classified <==> IsStandby(view, indexed[i])
    ensures IsYoungActivation(view, indexed[i]) ==> FateIn(view, indexed, i) == LeftAlone
    ensures FateIn(view, indexed, i) == Released <==>
              IsOver(view, indexed[i]) && !MayHaveLiveRequest(view, indexed[i])
    ensures FateIn(view, indexed, i) == Orphaned <==>
              IsOver(view, indexed[i]) && HasLiveRequest(view, indexed[i]) && MayBeCancelled(view, indexed[i])
  {
    var e := ToEntry(view, indexed[i]);
    assert Entries(view, indexed)[i] == e;
    EntryTellsItem(view, indexed[i]);
    if Finished(e) && e.spotRequestId.Some? {
      LookupSeesAll(view, indexed, i);
    }
  }

  /** The lookup asks for the request of every finished entry, so it sees a live one. */
  lemma LookupSeesAll(view: View, indexed: seq<Indexed>, i: nat)
    requires i < |indexed| && IsOver(view, indexed[i]) && ToEntry(view, indexed[i]).spotRequestId.Some?
    ensures var entries := Entries(view, indexed);
            var id := ToEntry(view, indexed[i]).spotRequestId.value;
            && (LookupFails(view, entries) <==> view.requests.None?)
            && (HasLiveRequest(view, indexed[i]) <==>
                  id != "" && id in Requests(view, entries) && LiveRequest(Requests(view, entries)[id]))
            && (HasLiveRequest(view, indexed[i]) ==> Requests(view, entries)[id] == view.requests.value[id])
  {
    EntryTellsItem(view, indexed[i]);
    var entries := Entries(view, indexed);
    assert LooksUp(entries[i]);
    assert entries[i].spotRequestId.value in AskedFor(entries);
  }

  /** Ready: it stopped itself, and its spot request, as far as AWS tells of it, is live and was not reclaimed. */
  ghost predicate IsReady(view: View, i: Instance) {
    && i.state == Some(Stopped) && i.selfStopped
    && forall id :: i.spotRequestId == Some(id) && view.requests != None && id in view.requests.value ==>
         && !view.requests.value[id].stoppedByAws
         && view.requests.value[id].state in {None, Some(Open), Some(Active), Some(Disabled)}
  }

  /** What EC2 shows of the instance, as fields of the index. */
  ghost predicate IsReading(view: View, i: Instance, f: Fields) {
    && f.launchTime == i.launchTime && f.expiresAt == i.expires && f.instanceType == i.instanceType
    && f.availabilityZone == i.availabilityZone && f.spotInstanceRequestId == i.spotRequestId
    && (f.state == WARM <==> IsReady(view, i))
    && (f.state == PRIMING <==> i.state in {Some(Pending), Some(Running), Some(Stopping)})
  }

  lemma StandbyTellsInstance(view: View, entries: seq<Entry>, e: Entry)
    requires e in entries && IsClassified(e) && e.instance.Some? && e.instance.value.activated.None?
    requires e.instance.value.spotRequestId.Some? ==> e.spotRequestId == e.instance.value.spotRequestId
    ensures IsReading(view, e.instance.value, ToStandby(e, Requests(view, entries)).fields)
  {
    var i := e.instance.value;
    var k :| 0 <= k < |entries| && entries[k] == e;
    if i.state == Some(Stopped) && i.spotRequestId.Some? {
      assert LooksUp(entries[k]);
      assert i.spotRequestId.value in AskedFor(entries);
    }
  }

  /** Each listed instance is a live one never activated, with EC2's data; it is WARM exactly if it is ready. */
  lemma StandbysAreRead(indexed: seq<Indexed>, view: View, r: Read, k: nat)
    requires IsRead(indexed, view, r) && k < |r.instances|
    ensures exists i :: 0 <= i < |indexed| && indexed[i].instanceId == r.instances[k].instanceId && IsStandby(view, indexed[i])
    ensures r.instances[k].instanceId in view.found
    ensures IsReading(view, view.found[r.instances[k].instanceId], r.instances[k].fields)
  {
    var entries := Entries(view, indexed);
    var classified := WithFate(Classified, entries, Requests(view, entries), LookupFails(view, entries));
    assert classified[k] in entries;
    var i :| 0 <= i < |entries| && entries[i] == classified[k];
    EntryTellsItem(view, indexed[i]);
    StandbyTellsInstance(view, entries, entries[i]);
  }

  /** Each orphan names the request of an indexed instance, and the other instance that AWS gave this request, if any. */
  lemma OrphansAreRead(indexed: seq<Indexed>, view: View, r: Read, k: nat)
    requires IsRead(indexed, view, r) && k < |r.orphans|
    ensures var o := r.orphans[k];
            && (exists i :: 0 <= i < |indexed| && indexed[i].instanceId == o.instanceId && HasRequest(view, indexed[i], o.spotRequestId))
            && view.requests != None && o.spotRequestId in view.requests.value
            && forall x :: o.replacement == Some(x) <==>
                 view.requests.value[o.spotRequestId].instanceId == Some(x) && x != o.instanceId
  {
    var entries := Entries(view, indexed);
    var orphaned := WithFate(Orphaned, entries, Requests(view, entries), LookupFails(view, entries));
    assert orphaned[k] in entries;
    var i :| 0 <= i < |entries| && entries[i] == orphaned[k];
    EntryTellsItem(view, indexed[i]);
    assert HasRequest(view, indexed[i], r.orphans[k].spotRequestId);
  }

  /** The first list names nobody twice. */
  lemma InstancesAreDistinct(indexed: seq<Indexed>, view: View, r: Read)
    requires IsRead(indexed, view, r) && DistinctIndexed(indexed)
    ensures Distinct(StandbyIds(r.instances))
  {
    var entries := Entries(view, indexed);
    ListsHoldFates(indexed, view, r);
    forall j, k | 0 <= j < k < |entries| ensures EntryIds(entries)[j] != EntryIds(entries)[k] {
      assert entries[j] == ToEntry(view, indexed[j]) && entries[k] == ToEntry(view, indexed[k]);
    }
    ChosenAreDistinct(Classified, entries, Requests(view, entries), LookupFails(view, entries));
  }

  lemma {:induction false} ChosenAreDistinct(
      fate: Fate, entries: seq<Entry>, requests: map<SpotRequestId, SpotRequest>, lookupFailed: bool)
    requires Distinct(EntryIds(entries))
    ensures Distinct(EntryIds(WithFate(fate, entries, requests, lookupFailed)))
  {
    if entries != [] {
      var front, last := entries[..|entries| - 1], entries[|entries| - 1];
      assert EntryIds(front) == EntryIds(entries)[..|entries| - 1];
      ChosenAreDistinct(fate, front, requests, lookupFailed);
      var r := WithFate(fate, front, requests, lookupFailed);
      forall j | 0 <= j < |r| ensures EntryIds(r)[j] != last.instanceId {
        assert r[j] in front;
        var k :| 0 <= k < |front| && front[k] == r[j];
        assert EntryIds(entries)[k] != EntryIds(entries)[|entries| - 1];
      }
      assert EntryIds(r + [last]) == EntryIds(r) + [last.instanceId];
      assert WithFate(fate, entries, requests, lookupFailed) == r || WithFate(fate, entries, requests, lookupFailed) == r + [last];
    }
  }

  // ---------------------------------------------------------------- bringing the index in line

  predicate Changed(item: Option<Item>, f: Fields) {
    item.None? || item.value.state != f.state || item.value.launchTime != f.launchTime
    || item.value.expiresAt != f.expiresAt || item.value.instanceType != f.instanceType
    || item.value.availabilityZone != f.availabilityZone || item.value.spotInstanceRequestId != f.spotInstanceRequestId
  }

  /** The queried entry has exactly the fields of the reading. */
  ghost predicate Agrees(items: map<InstanceId, Item>, s: Standby) {
    s.instanceId in items && exists i ::
      && items[s.instanceId] == i && i.state != ACTIVATED
      && s.fields == Fields(i.state, i.launchTime, i.expiresAt, i.instanceType, i.availabilityZone, i.spotInstanceRequestId)
  }

  lemma ChangedUnlessAgrees(items: map<InstanceId, Item>, s: Standby)
    ensures Changed(if s.instanceId in items then Some(items[s.instanceId]) else None, s.fields) <==> !Agrees(items, s)
  {
  }

  /**
   An entry that agreed with its reading is left alone; after a write that worked, one that did not carries it, unless
   it is activated.
   */
  ghost predicate Synced(before: Table, items: map<InstanceId, Item>, after: Table, s: Standby) {
    if Agrees(items, s) then Untouched(before, after, s.instanceId)
    else
      (s.instanceId in before ==> before[s.instanceId].state != ACTIVATED)
      ==> s.instanceId in after && after[s.instanceId] == Overlay(WarmIndex.Entry(before, s.instanceId), s.fields)
  }

  ghost predicate Untouched(before: Table, after: Table, id: InstanceId) {
    (id in after <==> id in before) && (id in before ==> after[id] == before[id])
  }

  /**
   `items` is the index as this run queried it, possibly stale; `works` says which best-effort writes succeed.
   Nothing but released entries disappears, activated entries are never written, nobody the read does not list is
   touched, and when every write works each other classified entry that differed from its reading now carries it.
   */
  method SyncIndex(store: WarmIndexStore, items: map<InstanceId, Item>, read: Read, now: int, works: nat -> bool)
    modifies store.table
    ensures forall id :: id in old(store.table.items) && id !in read.released ==> id in store.table.items
    ensures forall id :: id in old(store.table.items) && id !in read.released && old(store.table.items)[id].state == ACTIVATED
              ==> store.table.items[id] == old(store.table.items)[id]
    ensures forall id :: id !in StandbyIds(read.instances) && id !in read.released ==> Untouched(old(store.table.items), store.table.items, id)
    ensures (forall n :: works(n)) ==> forall id :: id in read.released ==> id !in store.table.items
    ensures (forall n :: works(n)) && Distinct(StandbyIds(read.instances)) ==>
              forall k :: 0 <= k < |read.instances| && read.instances[k].instanceId !in read.released ==>
                Synced(old(store.table.items), items, store.table.items, read.instances[k])
  {
    var writes := WriteChanged(store, items, read.instances, now, works);
    RemoveReleased(store, read.released, now, works, writes);
  }

  /**
   The read and the write-back together, on whatever the index has become in the meantime. The entry of a live instance
   that was never activated stays, and carries its reading if every write works; the entry of a young activation is as
   it was; and an entry disappears only if its instance is gone or its activation settled, and no live request is possible.
   */
  method ReadAndSync(
      store: WarmIndexStore, items: map<InstanceId, Item>, indexed: seq<Indexed>, view: View, now: int, works: nat -> bool)
    returns (r: Read)
    requires DistinctIndexed(indexed)
    modifies store.table
    ensures IsRead(indexed, view, r)
    ensures forall i :: 0 <= i < |indexed| ==>
              SyncedSafely(old(store.table.items), store.table.items, view, indexed[i])
    ensures (forall n :: works(n)) ==>
              forall k :: 0 <= k < |r.instances| ==> Synced(old(store.table.items), items, store.table.items, r.instances[k])
  {
    r := ReadStandbyInstances(indexed, view);
    InstancesAreDistinct(indexed, view, r);
    SyncIndex(store, items, r, now, works);
    forall i | 0 <= i < |indexed| ensures SyncedSafely(old(store.table.items), store.table.items, view, indexed[i]) {
      ListsShareOut(indexed, view, r, i);
    }
    forall k | 0 <= k < |r.instances| ensures r.instances[k].instanceId !in r.released {
      InstancesAreIndexed(indexed, view, r, k);
    }
  }

  /** One indexed entry, before and after. */
  ghost predicate SyncedSafely(before: Table, after: Table, view: View, item: Indexed) {
    var id := item.instanceId;
    && (IsStandby(view, item) && id in before ==> id in after)
    && (IsYoungActivation(view, item) ==> Untouched(before, after, id))
    && (id in before && id !in after ==> IsOver(view, item) && !MayHaveLiveRequest(view, item))
  }

  lemma InstancesAreIndexed(indexed: seq<Indexed>, view: View, r: Read, k: nat)
    requires IsRead(indexed, view, r) && DistinctIndexed(indexed) && k < |r.instances|
    ensures r.instances[k].instanceId !in r.released
  {
    var entries := Entries(view, indexed);
    var classified := WithFate(Classified, entries, Requests(view, entries), LookupFails(view, entries));
    assert classified[k] in entries;
    var i :| 0 <= i < |entries| && entries[i] == classified[k];
    assert indexed[i].instanceId == r.instances[k].instanceId;
    ListsShareOut(indexed, view, r, i);
  }

  method WriteChanged(
      store: WarmIndexStore, items: map<InstanceId, Item>, instances: seq<Standby>, now: int, works: nat -> bool)
    returns (n: nat)
    modifies store.table
    ensures old(store.table.items.Keys) <= store.table.items.Keys
    ensures forall id :: id in old(store.table.items) && old(store.table.items)[id].state == ACTIVATED
              ==> store.table.items[id] == old(store.table.items)[id]
    ensures forall id :: id !in StandbyIds(instances) ==> Untouched(old(store.table.items), store.table.items, id)
    ensures (forall m :: works(m)) && Distinct(StandbyIds(instances)) ==>
              forall k :: 0 <= k < |instances| ==> Synced(old(store.table.items), items, store.table.items, instances[k])
  {
    ghost var before, ids := store.table.items, StandbyIds(instances);
    n := 0;
    var k := 0;
    while k < |instances|
      invariant k <= |instances|
      invariant before.Keys <= store.table.items.Keys
      invariant forall id :: id in before && before[id].state == ACTIVATED ==> store.table.items[id] == before[id]
      invariant forall id :: id !in ids[..k] ==> Untouched(before, store.table.items, id)
      invariant (forall m :: works(m)) && Distinct(StandbyIds(instances)) ==>
                  forall j :: 0 <= j < k ==> Synced(before, items, store.table.items, instances[j])
    {
      var id, f := instances[k].instanceId, instances[k].fields;
      assert ids[..k + 1] == ids[..k] + [id];
      assert Distinct(ids) ==> id !in ids[..k];
      assert forall j :: 0 <= j < k ==> instances[j].instanceId == ids[..k][j];
      ChangedUnlessAgrees(items, instances[k]);
      if Changed(if id in items then Some(items[id]) else None, f) {
        if works(n) {
          store.Update(id, f, now);
        }
        n := n + 1;
      }
      k := k + 1;
    }
    assert ids[..k] == ids;
  }

  method RemoveReleased(store: WarmIndexStore, released: seq<InstanceId>, now: int, works: nat -> bool, from: nat)
    modifies store.table
    ensures store.table.items.Keys <= old(store.table.items.Keys)
    ensures forall id :: id in old(store.table.items) && id !in released ==> id in store.table.items
    ensures forall id :: id in store.table.items ==> store.table.items[id] == old(store.table.items)[id]
    ensures (forall n :: works(n)) ==> forall id :: id in released ==> id !in store.table.items
  {
    var k := 0;
    while k < |released|
      invariant k <= |released|
      invariant store.table.items.Keys <= old(store.table.items.Keys)
      invariant forall id :: id in old(store.table.items) && id !in released ==> id in store.table.items
      invariant forall id :: id in store.table.items ==> store.table.items[id] == old(store.table.items)[id]
      invariant (forall n :: works(n)) ==> forall id :: id in released[..k] ==> id !in store.table.items
    {
      if works(from + k) {
        store.Remove(released[k], now);
      }
      k := k + 1;
    }
  }
}
