/**
 The warm-pool index: a DynamoDB table shared by every scale-up invocation, the pool and the stop-event
 consumer. Each store method is one conditional write, so a history of the table is a sequence of
 guarded events. Times are epoch seconds on one clock, as `nowSeconds` reads it.
 */
module WarmIndex {
  import opened Prelude

  type InstanceId = string
  type Owner = string

  const WARM_CLAIM_TTL_SECONDS: int := 10 * 60
  const WARM_START_COOLDOWN_SECONDS: int := 10 * 60
  const RECONCILE_MARKER: InstanceId := "#reconcile"

  datatype WarmState = PRIMING | WARM | GARBAGE | ACTIVATED

  /** What the pool writes: it classifies from EC2 and never writes ACTIVATED. */
  type PoolState = s: WarmState | s != ACTIVATED witness PRIMING

  /** Attribute values that are ISO dates are kept as their parsed value, milliseconds. */
  datatype Item = Item(
    state: WarmState,
    launchTime: Option<int>,
    expiresAt: Option<int>,
    instanceType: Option<string>,
    availabilityZone: Option<string>,
    spotInstanceRequestId: Option<string>,
    spotRequestBound: bool,
    spotBindFailures: nat,
    activatedAt: Option<int>,
    claimOwner: Option<Owner>,
    claimUntil: Option<int>,
    startFailures: nat,
    cooldownUntil: Option<int>)

  datatype Fields = Fields(
    state: PoolState,
    launchTime: Option<int>,
    expiresAt: Option<int>,
    instanceType: Option<string>,
    availabilityZone: Option<string>,
    spotInstanceRequestId: Option<string>)

  type Table = map<InstanceId, Item>

  const BLANK: Item := Item(PRIMING, None, None, None, None, None, false, 0, None, None, None, 0, None)

  function Or<T>(a: Option<T>, b: Option<T>): (r: Option<T>)
    ensures a != None ==> r == a
    ensures a == None ==> r == b
  {
    if a.Some? then a else b
  }

  ghost function Entry(t: Table, id: InstanceId): Item {
    if id in t then t[id] else BLANK
  }

  /** `SET` of the given fields; an absent field keeps its stored value. */
  function Overlay(item: Item, f: Fields): Item {
    item.(state := f.state,
          launchTime := Or(f.launchTime, item.launchTime),
          expiresAt := Or(f.expiresAt, item.expiresAt),
          instanceType := Or(f.instanceType, item.instanceType),
          availabilityZone := Or(f.availabilityZone, item.availabilityZone),
          spotInstanceRequestId := Or(f.spotInstanceRequestId, item.spotInstanceRequestId))
  }

  datatype Op =
    | Update(id: InstanceId, fields: Fields)
    | MarkWarm(id: InstanceId, fields: Fields)
    | Remove(id: InstanceId)
    | RemoveUnclaimed(id: InstanceId)
    | Claim(id: InstanceId)
    | Release(id: InstanceId)
    | ReleaseWithCooldown(id: InstanceId)
    | MarkActivated(id: InstanceId, at: int)
    | MarkUnusable(id: InstanceId)
    | MarkSpotRequestBound(id: InstanceId)
    | RecordSpotBindFailure(id: InstanceId)

  /** One write that reached the table: which store issued it, and when. */
  datatype Event = Event(caller: Owner, op: Op, now: int)

  predicate Unleased(item: Item, now: int) {
    item.claimUntil.None? || item.claimUntil.value < now
  }

  ghost predicate ClaimedBy(t: Table, id: InstanceId, owner: Owner) {
    id in t && t[id].claimOwner == Some(owner)
  }

  /** The condition expression of the write. */
  ghost predicate Admits(t: Table, e: Event) {
    var id := e.op.id;
    match e.op
    case Update(_, _) => id !in t || t[id].state != ACTIVATED
    case MarkWarm(_, _) => id in t && t[id].state == PRIMING
    case RemoveUnclaimed(_) => id !in t || Unleased(t[id], e.now)
    case Claim(_) => id in t && t[id].state == WARM && Unleased(t[id], e.now)
    case Release(_) => ClaimedBy(t, id, e.caller)
    case ReleaseWithCooldown(_) => ClaimedBy(t, id, e.caller)
    case MarkUnusable(_) => ClaimedBy(t, id, e.caller)
    case MarkSpotRequestBound(_) => id in t
    case RecordSpotBindFailure(_) => id in t
    case Remove(_) => true
    case MarkActivated(_, _) => true
  }

  ghost predicate IsDeletion(op: Op) {
    op.Remove? || op.RemoveUnclaimed?
  }

  /** The item an admitted write leaves behind. */
  ghost function Rewritten(t: Table, e: Event): Item
    requires !IsDeletion(e.op)
  {
    var item := Entry(t, e.op.id);
    match e.op
    case Update(_, f) => Overlay(item, f)
    case MarkWarm(_, f) => Overlay(item, f).(state := WARM)
    case Claim(_) => item.(claimOwner := Some(e.caller), claimUntil := Some(e.now + WARM_CLAIM_TTL_SECONDS))
    case Release(_) => item.(claimOwner := None, claimUntil := None)
    case ReleaseWithCooldown(_) =>
      item.(cooldownUntil := Some(e.now + WARM_START_COOLDOWN_SECONDS), startFailures := item.startFailures + 1,
            claimOwner := None, claimUntil := None)
    case MarkActivated(_, at) =>
      item.(state := ACTIVATED, activatedAt := Some(at), claimOwner := None, claimUntil := None)
    case MarkUnusable(_) => item.(state := GARBAGE, claimOwner := None, claimUntil := None)
    case MarkSpotRequestBound(_) => item.(spotRequestBound := true, spotBindFailures := 0)
    case RecordSpotBindFailure(_) => item.(spotBindFailures := item.spotBindFailures + 1)
  }

  ghost function Apply(t: Table, e: Event): Table {
    if !Admits(t, e) then t
    else if IsDeletion(e.op) then t - {e.op.id}
    else t[e.op.id := Rewritten(t, e)]
  }

  // ---------------------------------------------------------------- the store

  type Row = (InstanceId, Item)

  ghost predicate IsInstanceRow(row: Row) {
    row.0 != "" && row.0 != RECONCILE_MARKER
  }

  ghost function InstanceRows(rows: seq<Row>): (r: seq<Row>)
    ensures forall row :: row in r <==> row in rows && row.0 != "" && row.0 != "#reconcile"
  {
    Filter(IsInstanceRow, rows)
  }

  lemma InstanceRowsOfNextPage(pages: seq<seq<Row>>, next: nat)
    requires next < |pages|
    ensures InstanceRows(Flatten(pages[..next + 1])) == InstanceRows(Flatten(pages[..next])) + InstanceRows(pages[next])
  {
    assert pages[..next + 1] == pages[..next] + [pages[next]];
    FlattenAppend(pages[..next], [pages[next]]);
    assert Flatten([pages[next]]) == pages[next];
    FilterAppend(IsInstanceRow, Flatten(pages[..next]), pages[next]);
  }

  class DynamoTable {
    var items: Table

    constructor ()
      ensures items == map[]
    {
      items := map[];
    }
  }

  /** One invocation's view of the shared table; `owner` is the UUID drawn at creation. */
  class WarmIndexStore {
    const table: DynamoTable
    const owner: Owner

    constructor (table: DynamoTable, owner: Owner)
      ensures this.table == table && this.owner == owner
    {
      this.table := table;
      this.owner := owner;
    }

    /** Reads every page and skips the marker row that carries no instance. */
    method Query(pages: seq<seq<Row>>) returns (items: seq<Row>)
      ensures items == InstanceRows(Flatten(pages))
    {
      items := [];
      var next := 0;
      while next < |pages|
        invariant next <= |pages|
        invariant items == InstanceRows(Flatten(pages[..next]))
      {
        var page := ReadPage(pages[next]);
        items := items + page;
        InstanceRowsOfNextPage(pages, next);
        next := next + 1;
      }
      assert pages[..next] == pages;
    }

    method ReadPage(page: seq<Row>) returns (items: seq<Row>)
      ensures items == InstanceRows(page)
    {
      items := [];
      var k := 0;
      while k < |page|
        invariant k <= |page|
        invariant items == InstanceRows(page[..k])
      {
        if page[k].0 != "" && page[k].0 != RECONCILE_MARKER {
          items := items + [page[k]];
        }
        assert page[..k + 1] == page[..k] + [page[k]];
        FilterAppend(IsInstanceRow, page[..k], [page[k]]);
        k := k + 1;
      }
      assert page[..k] == page;
    }

    method Update(id: InstanceId, fields: Fields, now: int)
      modifies table
      ensures table.items == Apply(old(table.items), Event(owner, Op.Update(id, fields), now))
    {
      if id !in table.items {
        table.items := table.items[id := Overlay(BLANK, fields)];
      } else if table.items[id].state != ACTIVATED {
        table.items := table.items[id := Overlay(table.items[id], fields)];
      }
    }

    method MarkWarm(id: InstanceId, fields: Fields, now: int) returns (ok: bool)
      modifies table
      ensures ok == Admits(old(table.items), Event(owner, Op.MarkWarm(id, fields), now))
      ensures table.items == Apply(old(table.items), Event(owner, Op.MarkWarm(id, fields), now))
    {
      ok := id in table.items && table.items[id].state == PRIMING;
      if ok {
        table.items := table.items[id := Overlay(table.items[id], fields.(state := WARM))];
      }
    }

    method Remove(id: InstanceId, now: int)
      modifies table
      ensures table.items == Apply(old(table.items), Event(owner, Op.Remove(id), now))
    {
      table.items := table.items - {id};
    }

    method RemoveUnclaimed(id: InstanceId, now: int) returns (ok: bool)
      modifies table
      ensures ok == Admits(old(table.items), Event(owner, Op.RemoveUnclaimed(id), now))
      ensures table.items == Apply(old(table.items), Event(owner, Op.RemoveUnclaimed(id), now))
    {
      ok := id !in table.items || table.items[id].claimUntil.None? || table.items[id].claimUntil.value < now;
      if ok {
        table.items := table.items - {id};
      }
    }

    method Claim(id: InstanceId, now: int) returns (ok: bool)
      modifies table
      ensures ok == Admits(old(table.items), Event(owner, Op.Claim(id), now))
      ensures table.items == Apply(old(table.items), Event(owner, Op.Claim(id), now))
    {
      ok := id in table.items && table.items[id].state == WARM && Unleased(table.items[id], now);
      if ok {
        var leased := table.items[id].(claimOwner := Some(owner), claimUntil := Some(now + WARM_CLAIM_TTL_SECONDS));
        table.items := table.items[id := leased];
      }
    }

    method Release(id: InstanceId, now: int)
      modifies table
      ensures table.items == Apply(old(table.items), Event(owner, Op.Release(id), now))
    {
      if id in table.items && table.items[id].claimOwner == Some(owner) {
        table.items := table.items[id := table.items[id].(claimOwner := None, claimUntil := None)];
      }
    }

    method ReleaseWithCooldown(id: InstanceId, now: int)
      modifies table
      ensures table.items == Apply(old(table.items), Event(owner, Op.ReleaseWithCooldown(id), now))
    {
      if id in table.items && table.items[id].claimOwner == Some(owner) {
        var item := table.items[id];
        table.items := table.items[id := item.(cooldownUntil := Some(now + WARM_START_COOLDOWN_SECONDS),
                                               startFailures := item.startFailures + 1,
                                               claimOwner := None, claimUntil := None)];
      }
    }

    method MarkActivated(id: InstanceId, activatedAt: int, now: int)
      modifies table
      ensures table.items == Apply(old(table.items), Event(owner, Op.MarkActivated(id, activatedAt), now))
    {
      var item := if id in table.items then table.items[id] else BLANK;
      table.items := table.items[id := item.(state := ACTIVATED, activatedAt := Some(activatedAt),
                                             claimOwner := None, claimUntil := None)];
    }

    method MarkUnusable(id: InstanceId, now: int)
      modifies table
      ensures table.items == Apply(old(table.items), Event(owner, Op.MarkUnusable(id), now))
    {
      if id in table.items && table.items[id].claimOwner == Some(owner) {
        table.items := table.items[id := table.items[id].(state := GARBAGE, claimOwner := None, claimUntil := None)];
      }
    }

    method MarkSpotRequestBound(id: InstanceId, now: int)
      modifies table
      ensures table.items == Apply(old(table.items), Event(owner, Op.MarkSpotRequestBound(id), now))
    {
      if id in table.items {
        table.items := table.items[id := table.items[id].(spotRequestBound := true, spotBindFailures := 0)];
      }
    }

    method RecordSpotBindFailure(id: InstanceId, now: int)
      modifies table
      ensures table.items == Apply(old(table.items), Event(owner, Op.RecordSpotBindFailure(id), now))
    {
      if id in table.items {
        var item := table.items[id];
        table.items := table.items[id := item.(spotBindFailures := item.spotBindFailures + 1)];
      }
    }
  }

  // ---------------------------------------------------------------- histories

  ghost function After(t: Table, run: seq<Event>): Table {
    if run == [] then t else Apply(After(t, run[..|run| - 1]), run[|run| - 1])
  }

  /** The table the i-th event of the run meets. */
  ghost function Before(t: Table, run: seq<Event>, i: nat): Table
    requires i <= |run|
  {
    After(t, run[..i])
  }

  /** One clock, read by every store. */
  ghost predicate Timed(run: seq<Event>) {
    forall i, j :: 0 <= i <= j < |run| ==> run[i].now <= run[j].now
  }

  ghost predicate Succeeds(t: Table, run: seq<Event>, i: nat)
    requires i < |run|
  {
    Admits(Before(t, run, i), run[i])
  }

  ghost predicate Deletes(t: Table, run: seq<Event>, i: nat, id: InstanceId)
    requires i < |run|
  {
    IsDeletion(run[i].op) && run[i].op.id == id && Succeeds(t, run, i)
  }

  ghost predicate DeletedBetween(t: Table, run: seq<Event>, i: nat, j: nat, id: InstanceId)
    requires j <= |run|
  {
    exists k :: i <= k < j && Deletes(t, run, k, id)
  }

  /** The owner ends its own claim: release, release with cooldown, or marking the entry unusable. */
  ghost predicate GivesUp(e: Event, id: InstanceId, owner: Owner) {
    e.caller == owner && e.op.id == id && (e.op.Release? || e.op.ReleaseWithCooldown? || e.op.MarkUnusable?)
  }

  lemma BeforeStep(t: Table, run: seq<Event>, i: nat)
    requires i < |run|
    ensures Before(t, run, i + 1) == Apply(Before(t, run, i), run[i])
  {
    assert run[..i + 1][..i] == run[..i];
  }

  ghost predicate Consistent(t: Table) {
    forall id :: id in t ==>
      && (t[id].claimOwner.Some? <==> t[id].claimUntil.Some?)
      && (t[id].activatedAt.Some? <==> t[id].state == ACTIVATED)
      && (t[id].state == ACTIVATED ==> t[id].claimOwner.None?)
  }

  /** Every write keeps the three pairings, whatever it was decided on. */
  lemma ApplyKeepsConsistent(t: Table, e: Event)
    requires Consistent(t)
    ensures Consistent(Apply(t, e))
  {
  }

  lemma {:induction false} RunKeepsConsistent(t: Table, run: seq<Event>)
    requires Consistent(t)
    ensures Consistent(After(t, run))
  {
    if run != [] {
      RunKeepsConsistent(t, run[..|run| - 1]);
      ApplyKeepsConsistent(After(t, run[..|run| - 1]), run[|run| - 1]);
    }
  }

  /** ACTIVATED is absorbing: from then on the entry is there, activated and unclaimed, exactly until it is deleted. */
  lemma {:induction false} ActivatedUntilDeleted(t: Table, run: seq<Event>, i: nat, j: nat, id: InstanceId)
    requires Consistent(t) && i <= j <= |run|
    requires id in Before(t, run, i) && Before(t, run, i)[id].state == ACTIVATED
    requires !DeletedBetween(t, run, i, j, id)
    ensures id in Before(t, run, j) && Before(t, run, j)[id].state == ACTIVATED
    ensures Before(t, run, j)[id].claimUntil.None?
    decreases j
  {
    RunKeepsConsistent(t, run[..j]);
    if i < j {
      ActivatedUntilDeleted(t, run, i, j - 1, id);
      BeforeStep(t, run, j - 1);
      RunKeepsConsistent(t, run[..j - 1]);
      assert !Deletes(t, run, j - 1, id);
    }
  }

  /** Leaving ACTIVATED is deleting, in one step and for every kind of write. */
  lemma LeavesActivatedIffDeleted(t: Table, e: Event, id: InstanceId)
    requires Consistent(t) && id in t && t[id].state == ACTIVATED
    ensures (id in Apply(t, e) && Apply(t, e)[id].state == ACTIVATED)
       <==> !(IsDeletion(e.op) && e.op.id == id)
  {
  }

  /** A live lease is private: an unconditional delete, an activation or the owner's own giving up aside, no write moves it. */
  lemma LiveLeaseIsPrivate(t: Table, e: Event, id: InstanceId, owner: Owner)
    requires ClaimedBy(t, id, owner) && t[id].claimUntil.Some? && e.now <= t[id].claimUntil.value
    requires e.op.id == id ==> !e.op.Remove? && !e.op.MarkActivated? && !GivesUp(e, id, owner)
    ensures ClaimedBy(Apply(t, e), id, owner) && Apply(t, e)[id].claimUntil == t[id].claimUntil
  {
  }

  /** The entry still blocks every claim: leased to `owner` until `until`, or activated. */
  ghost predicate Blocked(t: Table, id: InstanceId, owner: Owner, until: int) {
    id in t &&
    (|| (t[id].claimOwner == Some(owner) && t[id].claimUntil == Some(until))
     || t[id].state == ACTIVATED)
  }

  lemma {:induction false} BlockedUntilGivenUp(
      t: Table, run: seq<Event>, i: nat, j: nat, id: InstanceId, owner: Owner, until: int)
    requires Consistent(t) && Timed(run) && i <= j < |run|
    requires Blocked(Before(t, run, i), id, owner, until)
    requires run[j].now <= until
    requires forall k :: i <= k < j ==> !GivesUp(run[k], id, owner)
    requires !DeletedBetween(t, run, i, j, id)
    ensures Blocked(Before(t, run, j), id, owner, until)
    decreases j
  {
    if i < j {
      BlockedUntilGivenUp(t, run, i, j - 1, id, owner, until);
      BeforeStep(t, run, j - 1);
      RunKeepsConsistent(t, run[..j - 1]);
      assert !GivesUp(run[j - 1], id, owner) && !Deletes(t, run, j - 1, id);
    }
  }

  /**
   Mutual exclusion of the lease. Two successful claims of one instance, by any two owners and with any
   events of any owners between them: either the instance was deleted from the index in between, or the first
   owner gave its claim up in between, or more than the lease time passed. And no activation lies between.
   */
  lemma LeaseMutualExclusion(t: Table, run: seq<Event>, i: nat, j: nat, id: InstanceId)
    requires Consistent(t) && Timed(run) && i < j < |run|
    requires run[i].op == Claim(id) && Succeeds(t, run, i)
    requires run[j].op == Claim(id) && Succeeds(t, run, j)
    requires !DeletedBetween(t, run, i + 1, j, id)
    ensures (exists k :: i < k < j && GivesUp(run[k], id, run[i].caller))
         || run[j].now > run[i].now + 600
    ensures forall k :: i < k < j ==> !(run[k].op.MarkActivated? && run[k].op.id == id)
  {
    BeforeStep(t, run, i);
    var owner, until := run[i].caller, run[i].now + WARM_CLAIM_TTL_SECONDS;
    if (forall k :: i < k < j ==> !GivesUp(run[k], id, owner)) && run[j].now <= until {
      RunKeepsConsistent(t, run[..j]);
      BlockedUntilGivenUp(t, run, i + 1, j, id, owner, until);
      assert false;
    }
    forall k | i < k < j && run[k].op.MarkActivated? && run[k].op.id == id ensures false {
      BeforeStep(t, run, k);
      ActivatedUntilDeleted(t, run, k + 1, j, id);
    }
  }

  /** Once the pool's conditional delete wins, a claim succeeds only after an update has written the entry again. */
  lemma {:induction false} NoClaimBeforeRewrite(t: Table, run: seq<Event>, i: nat, j: nat, id: InstanceId)
    requires i < j < |run|
    requires run[i].op == RemoveUnclaimed(id) && Succeeds(t, run, i)
    requires run[j].op == Claim(id) && Succeeds(t, run, j)
    ensures exists k :: i < k < j && run[k].op.Update? && run[k].op.id == id && Succeeds(t, run, k)
  {
    if forall k :: i < k < j ==> !(run[k].op.Update? && run[k].op.id == id && Succeeds(t, run, k)) {
      BeforeStep(t, run, i);
      var k := i + 1;
      while k < j
        invariant i < k <= j
        invariant id in Before(t, run, k) ==> Before(t, run, k)[id].state == ACTIVATED && Before(t, run, k)[id].claimOwner.None?
      {
        BeforeStep(t, run, k);
        k := k + 1;
      }
      assert false;
    }
  }

  /**
   A failed start leaves a mark: whatever anybody writes from then on, until the entry is deleted it cools down for at
   least ten minutes from the failure, and the failure stays counted.
   */
  lemma {:induction false} FailedStartLeavesMark(t: Table, run: seq<Event>, i: nat, j: nat, id: InstanceId)
    requires Timed(run) && i < j <= |run| && run[i].op == ReleaseWithCooldown(id)
    requires ClaimedBy(Before(t, run, i), id, run[i].caller) && !DeletedBetween(t, run, i + 1, j, id)
    ensures id in Before(t, run, j) && Before(t, run, j)[id].cooldownUntil.Some?
    ensures Before(t, run, j)[id].cooldownUntil.value >= run[i].now + 600
    ensures Before(t, run, j)[id].startFailures > Before(t, run, i)[id].startFailures
    ensures j == i + 1 ==>
              && Before(t, run, j)[id].cooldownUntil == Some(run[i].now + 600)
              && Before(t, run, j)[id].startFailures == Before(t, run, i)[id].startFailures + 1
              && Before(t, run, j)[id].claimOwner == None
    decreases j
  {
    BeforeStep(t, run, j - 1);
    if i + 1 < j {
      FailedStartLeavesMark(t, run, i, j - 1, id);
      assert !Deletes(t, run, j - 1, id);
    }
  }

  // ---------------------------------------------------------------- what one owner holds

  /** A call as its caller sees it: the operation and the boolean it resolved to. */
  datatype Call = Call(op: Op, ok: bool)

  /** The successful-write calls of one store within a history of everybody's writes. */
  ghost function OwnCalls(t: Table, run: seq<Event>, owner: Owner): seq<Call> {
    if run == [] then []
    else
      var last := run[|run| - 1];
      var earlier := run[..|run| - 1];
      OwnCalls(t, earlier, owner) +
      (if last.caller == owner then [Call(last.op, Admits(After(t, earlier), last))] else [])
  }

  ghost function HoldingAfter(held: set<InstanceId>, call: Call): set<InstanceId> {
    if call.op.Claim? && call.ok then held + {call.op.id}
    else if call.op.Release? || call.op.ReleaseWithCooldown? || call.op.MarkUnusable? || call.op.MarkActivated?
      then held - {call.op.id}
    else held
  }

  /** Instances a caller claimed and has neither given up nor activated, judged from its own calls alone. */
  ghost function Holding(calls: seq<Call>): set<InstanceId> {
    if calls == [] then {} else HoldingAfter(Holding(calls[..|calls| - 1]), calls[|calls| - 1])
  }

  lemma HoldingSnoc(calls: seq<Call>, call: Call)
    ensures Holding(calls + [call]) == HoldingAfter(Holding(calls), call)
  {
    assert (calls + [call])[..|calls|] == calls;
  }

  /** Whatever the other owners do, an entry carries this owner's claim only if the owner's own calls left it so. */
  lemma {:induction false} ClaimsAreOwnDoing(t: Table, run: seq<Event>, owner: Owner)
    requires forall id :: id in t ==> t[id].claimOwner != Some(owner)
    ensures forall id :: ClaimedBy(After(t, run), id, owner) ==> id in Holding(OwnCalls(t, run, owner))
  {
    if run != [] {
      var earlier, last := run[..|run| - 1], run[|run| - 1];
      ClaimsAreOwnDoing(t, earlier, owner);
      var calls := OwnCalls(t, earlier, owner);
      if last.caller == owner {
        var call := Call(last.op, Admits(After(t, earlier), last));
        HoldingSnoc(calls, call);
      } else {
        assert OwnCalls(t, run, owner) == calls;
      }
    }
  }
}
