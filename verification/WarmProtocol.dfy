/**
 The warm-pool protocol: any number of scale-up invocations, pool runs and scale-down sweeps acting on the
 shared index and on EC2, one step at a time in any order. `Allowed` is what the code checks before a step,
 `Next` is what the step does. Times are milliseconds on one clock.
 */
module WarmProtocol {
  import opened Prelude
  import opened WarmIndex
  import WarmActivation

  const WARM_ACTIVATION_GRACE_MS: int := WarmActivation.WARM_ACTIVATION_GRACE_MS

  datatype Ec2State = Stopped | Running | Gone

  /** An EC2 instance of the warm pool and its two time tags, `ghr:warm-activated` and `ghr:warm-expires-at`. */
  datatype Instance = Instance(ec2: Ec2State, activated: Option<int>, expires: Option<int>)

  /** Where an invocation stands with an instance it claimed: tagging comes before starting. */
  datatype Phase = Claimed | Tagged | Started

  /** A scale-up invocation: when it read its candidates, which they were, and what it has claimed and not given up. */
  datatype Invocation = Invocation(t0: int, candidates: set<InstanceId>, held: map<InstanceId, Phase>)

  datatype World = World(
    now: int,
    items: Table,
    ec2: map<InstanceId, Instance>,
    invocations: map<Owner, Invocation>,
    released: set<InstanceId>,          // entries a pool run decided to drop
    condemned: set<InstanceId>,         // instances a pool run won from the index and is about to destroy
    doomed: set<InstanceId>,            // stopped instances a sweep decided to destroy
    activations: set<(InstanceId, int)>, // every activation ever recorded in the index
    predecessor: map<InstanceId, InstanceId>, // the instances AWS launched for the request of another one
    orphaned: set<InstanceId>           // replacements a pool run is about to destroy with their request
  )

  datatype GiveUp = ReleaseClaim | Cooldown | Unusable

  datatype Action =
    | Tick(to: int)
    | Ec2Launch(id: InstanceId, expires: Option<int>)
    | Ec2Replace(id: InstanceId, of: InstanceId, expires: Option<int>)
    | Ec2Stop(id: InstanceId)
    | Ec2Terminate(id: InstanceId)
    // the pool
    | PoolUpdate(id: InstanceId, state: PoolState)
    | PoolIndexLaunch(id: InstanceId)
    | MarkPrimed(id: InstanceId)
    | PoolRelease(ids: set<InstanceId>)
    | PoolRemove(id: InstanceId)
    | PoolRemoveUnclaimed(id: InstanceId)
    | PoolDestroy(id: InstanceId)
    | PoolAbandon(id: InstanceId)
    | PoolOrphan(id: InstanceId)
    | PoolDestroyReplacement(id: InstanceId)
    | PoolCancelRequest(id: InstanceId)
    // the stopped-instance sweep
    | SweepDecide(ids: set<InstanceId>)
    | SweepDestroy(id: InstanceId)
    // scale-up
    | Begin(v: Owner)
    | ClaimOne(v: Owner, id: InstanceId)
    | TagActivated(v: Owner, id: InstanceId, at: int)
    | Untag(v: Owner, id: InstanceId)
    | Start(v: Owner, id: InstanceId)
    | Relinquish(v: Owner, id: InstanceId, how: GiveUp)
    | DestroyOwn(v: Owner, id: InstanceId)
    | RecordActivation(v: Owner, id: InstanceId, at: int)

  ghost function Seconds(ms: int): int {
    ms / 1000
  }

  ghost predicate Live(w: World, id: InstanceId) {
    id in w.ec2 && w.ec2[id].ec2 != Gone
  }

  ghost function Tag(w: World, id: InstanceId): Option<int>
    requires id in w.ec2
  {
    w.ec2[id].activated
  }

  ghost predicate Settled(tag: Option<int>, now: int) {
    tag.Some? && now - tag.value >= WARM_ACTIVATION_GRACE_MS
  }

  /** The read of the index by the pool drops an entry whose instance is gone or whose activation has settled. */
  ghost predicate Releasable(w: World, id: InstanceId) {
    && id in w.ec2
    && (|| !Live(w, id)
        || Settled(Tag(w, id), w.now)
        || (Tag(w, id).None? && exists a | a in w.activations :: a.0 == id))
  }

  /** The sweep destroys a stopped instance that expired, or that was activated and has settled. */
  ghost predicate Sweepable(w: World, id: InstanceId) {
    && Live(w, id) && w.ec2[id].ec2 == Stopped
    && (if Tag(w, id).Some? then Settled(Tag(w, id), w.now)
        else w.ec2[id].expires.Some? && w.ec2[id].expires.value <= w.now)
  }

  ghost predicate Holds(w: World, v: Owner, id: InstanceId) {
    v in w.invocations && id in w.invocations[v].held
  }

  ghost predicate InTime(w: World, v: Owner) {
    v in w.invocations && w.now < w.invocations[v].t0 + WARM_ACTIVATION_GRACE_MS
  }

  /** The index write a step issues, if any; the store's owner is the invocation, or "" for the pool. */
  ghost function IndexWrite(w: World, a: Action): Option<Event> {
    var now := Seconds(w.now);
    var expires := (id: InstanceId) => if id in w.ec2 then w.ec2[id].expires else None;
    match a
    case PoolUpdate(id, s) => Some(Event("", Update(id, Fields(s, None, expires(id), None, None, None)), now))
    case PoolIndexLaunch(id) => Some(Event("", Update(id, Fields(PRIMING, None, None, None, None, None)), now))
    case MarkPrimed(id) => Some(Event("", MarkWarm(id, Fields(WARM, None, expires(id), None, None, None)), now))
    case PoolRemove(id) => Some(Event("", Remove(id), now))
    case PoolRemoveUnclaimed(id) => Some(Event("", RemoveUnclaimed(id), now))
    case ClaimOne(v, id) => Some(Event(v, Op.Claim(id), now))
    case Relinquish(v, id, ReleaseClaim) => Some(Event(v, Release(id), now))
    case Relinquish(v, id, Cooldown) => Some(Event(v, ReleaseWithCooldown(id), now))
    case Relinquish(v, id, Unusable) => Some(Event(v, MarkUnusable(id), now))
    case RecordActivation(v, id, at) => Some(Event(v, MarkActivated(id, at), now))
    case _ => None
  }

  ghost predicate Allowed(w: World, a: Action) {
    match a
    case Tick(to) => to >= w.now
    case Ec2Launch(id, _) => id !in w.ec2
    case Ec2Replace(id, of, _) => id !in w.ec2 && of in w.ec2
    case Ec2Stop(id) => Live(w, id)
    case Ec2Terminate(id) => Live(w, id)
    case PoolUpdate(id, _) => id in w.ec2
    case PoolIndexLaunch(id) => id in w.ec2
    case MarkPrimed(id) => id in w.ec2
    case PoolRelease(ids) => forall id :: id in ids ==> Releasable(w, id)
    case PoolRemove(id) => id in w.released
    case PoolRemoveUnclaimed(id) => id in w.ec2 && Admits(w.items, IndexWrite(w, a).value)
    case PoolDestroy(id) => id in w.condemned
    case PoolAbandon(id) => id in w.condemned
    case PoolOrphan(id) => id in w.predecessor && Releasable(w, w.predecessor[id])
    case PoolDestroyReplacement(id) => id in w.orphaned
    case PoolCancelRequest(id) =>
      id in w.released || (id in w.predecessor && w.predecessor[id] in w.released + w.condemned)
    case SweepDecide(ids) => forall id :: id in ids ==> Sweepable(w, id)
    case SweepDestroy(id) => id in w.doomed
    case Begin(v) => v != "" && v !in w.invocations
    case ClaimOne(v, id) =>
      && v in w.invocations && id in w.invocations[v].candidates && !Holds(w, v, id)
      && Admits(w.items, IndexWrite(w, a).value)
    case TagActivated(v, id, at) =>
      Holds(w, v, id) && w.invocations[v].held[id] == Claimed && w.invocations[v].t0 <= at <= w.now && Live(w, id)
    case Untag(v, id) => Holds(w, v, id) && w.invocations[v].held[id] != Started && Live(w, id)
    case Start(v, id) =>
      Holds(w, v, id) && w.invocations[v].held[id] == Tagged && Live(w, id) && w.ec2[id].ec2 == Stopped
    case Relinquish(v, id, how) => Holds(w, v, id) && (w.invocations[v].held[id] == Started ==> how == Unusable)
    case DestroyOwn(v, id) => Holds(w, v, id) && w.invocations[v].held[id] == Started
    case RecordActivation(v, id, _) => Holds(w, v, id) && w.invocations[v].held[id] == Started
  }

  // What a step makes of each part of the world.

  ghost function WithState(ec2: map<InstanceId, Instance>, id: InstanceId, s: Ec2State): map<InstanceId, Instance> {
    if id in ec2 then ec2[id := ec2[id].(ec2 := s)] else ec2
  }

  ghost function WithTag(ec2: map<InstanceId, Instance>, id: InstanceId, tag: Option<int>): map<InstanceId, Instance> {
    if id in ec2 then ec2[id := ec2[id].(activated := tag)] else ec2
  }

  ghost function Ec2After(ec2: map<InstanceId, Instance>, a: Action): map<InstanceId, Instance> {
    match a
    case Ec2Launch(id, expires) => ec2[id := Instance(Running, None, expires)]
    case Ec2Replace(id, _, expires) => ec2[id := Instance(Running, None, expires)]
    case Ec2Stop(id) => WithState(ec2, id, Stopped)
    case Ec2Terminate(id) => WithState(ec2, id, Gone)
    case PoolDestroy(id) => WithState(ec2, id, Gone)
    case PoolDestroyReplacement(id) => WithState(ec2, id, Gone)
    case PoolCancelRequest(id) => WithState(ec2, id, Gone) // AWS ends the instance that a disabled request has come to
    case SweepDestroy(id) => WithState(ec2, id, Gone)
    case TagActivated(_, id, at) => WithTag(ec2, id, Some(at))
    case Untag(_, id) => WithTag(ec2, id, None)
    case Start(_, id) => WithState(ec2, id, Running)
    case DestroyOwn(_, id) => WithState(ec2, id, Gone)
    case _ => ec2
  }

  ghost function SetPhase(invocations: map<Owner, Invocation>, v: Owner, id: InstanceId, phase: Phase): map<Owner, Invocation> {
    if v in invocations then invocations[v := invocations[v].(held := invocations[v].held[id := phase])] else invocations
  }

  ghost function Drop(invocations: map<Owner, Invocation>, v: Owner, id: InstanceId): map<Owner, Invocation> {
    if v in invocations then invocations[v := invocations[v].(held := invocations[v].held - {id})] else invocations
  }

  ghost function Candidates(w: World): set<InstanceId> {
    set id | id in w.items && WarmActivation.IsCandidate(w.items[id], w.now)
  }

  ghost function InvocationsAfter(w: World, a: Action): map<Owner, Invocation> {
    match a
    case Begin(v) => w.invocations[v := Invocation(w.now, Candidates(w), map[])]
    case ClaimOne(v, id) => SetPhase(w.invocations, v, id, Claimed)
    case TagActivated(v, id, _) => SetPhase(w.invocations, v, id, Tagged)
    case Untag(v, id) => SetPhase(w.invocations, v, id, Claimed)
    case Start(v, id) => SetPhase(w.invocations, v, id, Started)
    case Relinquish(v, id, _) => Drop(w.invocations, v, id)
    case RecordActivation(v, id, _) => Drop(w.invocations, v, id)
    case _ => w.invocations
  }

  ghost function ReleasedAfter(w: World, a: Action): set<InstanceId> {
    match a
    case PoolRelease(ids) => w.released + ids
    case PoolRemove(id) => w.released - {id}
    case PoolOrphan(id) => if id in w.predecessor then w.released + {w.predecessor[id]} else w.released
    case _ => w.released
  }

  ghost function CondemnedAfter(condemned: set<InstanceId>, a: Action): set<InstanceId> {
    match a
    case PoolRemoveUnclaimed(id) => condemned + {id}
    case PoolDestroy(id) => condemned - {id}
    case PoolAbandon(id) => condemned - {id}
    case _ => condemned
  }

  ghost function DoomedAfter(doomed: set<InstanceId>, a: Action): set<InstanceId> {
    match a
    case SweepDecide(ids) => doomed + ids
    case SweepDestroy(id) => doomed - {id}
    case _ => doomed
  }

  ghost function OrphanedAfter(orphaned: set<InstanceId>, a: Action): set<InstanceId> {
    match a
    case PoolOrphan(id) => orphaned + {id}
    case PoolDestroyReplacement(id) => orphaned - {id}
    case _ => orphaned
  }

  ghost function ItemsAfter(w: World, a: Action): Table {
    match IndexWrite(w, a)
    case None => w.items
    case Some(e) => Apply(w.items, e)
  }

  ghost function Next(w: World, a: Action): World {
    World(
      if a.Tick? then a.to else w.now,
      ItemsAfter(w, a),
      Ec2After(w.ec2, a),
      InvocationsAfter(w, a),
      ReleasedAfter(w, a),
      CondemnedAfter(w.condemned, a),
      DoomedAfter(w.doomed, a),
      if a.RecordActivation? then w.activations + {(a.id, a.at)} else w.activations,
      if a.Ec2Replace? then w.predecessor[a.id := a.of] else w.predecessor,
      OrphanedAfter(w.orphaned, a))
  }

  // ---------------------------------------------------------------- assumptions

  /** Scale-up acts on the instance only within the lease time of its read: its Lambda timeout is far shorter. */
  ghost predicate Punctual(w: World, a: Action, id: InstanceId) {
    match a
    case ClaimOne(v, i) => i == id ==> InTime(w, v)
    case TagActivated(v, i, _) => i == id ==> InTime(w, v)
    case Untag(v, i) => i == id ==> InTime(w, v)
    case Start(v, i) => i == id ==> InTime(w, v)
    case Relinquish(v, i, _) => i == id ==> InTime(w, v)
    case DestroyOwn(v, i) => i == id ==> InTime(w, v)
    case RecordActivation(v, i, _) => i == id ==> InTime(w, v)
    case _ => true
  }

  /** When the instance is claimed, no earlier activation has left its tag on it. */
  ghost predicate NoLeftoverTag(w: World, a: Action, id: InstanceId) {
    a.ClaimOne? && a.id == id && Live(w, id) ==> Tag(w, id).None?
  }

  /** No pool run writes the entry between another run's winning it and destroying the instance. */
  ghost predicate NoRewriteWhileCondemned(w: World, a: Action, id: InstanceId) {
    (a.PoolUpdate? || a.PoolIndexLaunch?) && a.id == id ==> id !in w.condemned
  }

  /** The instance is not claimed if AWS launched it to replace another one. */
  ghost predicate NoReplacementClaim(w: World, a: Action, id: InstanceId) {
    a.ClaimOne? && a.id == id ==> id !in w.predecessor
  }

  datatype Assumption = PunctualScaleUp | NoLeftoverTags | NoRewrites | NoReplacementClaims

  const ALL: set<Assumption> := {PunctualScaleUp, NoLeftoverTags, NoRewrites, NoReplacementClaims}

  /** What is assumed of a step, as far as it concerns the one instance. */
  ghost predicate Respects(which: set<Assumption>, w: World, a: Action, id: InstanceId) {
    && (PunctualScaleUp in which ==> Punctual(w, a, id))
    && (NoLeftoverTags in which ==> NoLeftoverTag(w, a, id))
    && (NoRewrites in which ==> NoRewriteWhileCondemned(w, a, id))
    && (NoReplacementClaims in which ==> NoReplacementClaim(w, a, id))
  }

  ghost predicate Assumed(w: World, a: Action, id: InstanceId) {
    Punctual(w, a, id) && NoLeftoverTag(w, a, id) && NoRewriteWhileCondemned(w, a, id) && NoReplacementClaim(w, a, id)
  }

  // ---------------------------------------------------------------- the invariant

  /** Some invocation that still has time holds the instance. */
  ghost predicate Active(w: World, id: InstanceId) {
    exists v :: InTime(w, v) && Holds(w, v, id)
  }

  /** A WARM entry expires when the instance's tag says. */
  ghost predicate ExpiryAgrees(w: World) {
    forall id :: id in w.items ==>
      && (w.items[id].expiresAt.Some? ==> id in w.ec2 && w.items[id].expiresAt == w.ec2[id].expires)
      && (w.items[id].state == WARM ==> id in w.ec2 && w.items[id].expiresAt == w.ec2[id].expires)
  }

  /** Candidates outlive the activation window of the invocation that read them. */
  ghost predicate CandidatesOutlive(w: World) {
    forall v, id :: v in w.invocations && id in w.invocations[v].candidates ==>
      && id in w.ec2
      && w.invocations[v].t0 <= w.now
      && (w.ec2[id].expires.Some? ==> w.ec2[id].expires.value > w.invocations[v].t0 + WARM_ACTIVATION_GRACE_MS)
  }

  /** The instance, when held in time, carries its holder's lease, and its holder's tag or none. */
  ghost predicate HeldIsLeased(w: World, id: InstanceId) {
    forall v :: InTime(w, v) && Holds(w, v, id) ==>
      && id in w.invocations[v].candidates
      && (Live(w, id) ==>
            && ClaimedBy(w.items, id, v)
            && w.items[id].claimUntil.Some?
            && w.items[id].claimUntil.value >= Seconds(w.invocations[v].t0) + WARM_CLAIM_TTL_SECONDS
            && (if w.invocations[v].held[id] == Claimed then Tag(w, id).None?
                else Tag(w, id).Some? && w.invocations[v].t0 <= Tag(w, id).value))
  }

  /** Whatever is decided about an instance or recorded of it, the instance is known. */
  ghost predicate DecisionsKnown(w: World) {
    && w.released + w.condemned + w.doomed <= w.ec2.Keys
    && w.orphaned <= w.predecessor.Keys <= w.ec2.Keys
    && (forall id :: id in w.predecessor ==> w.predecessor[id] in w.ec2)
    && (forall a :: a in w.activations ==> a.0 in w.ec2)
  }

  ghost predicate HeldAreCandidates(w: World) {
    forall v :: v in w.invocations ==> w.invocations[v].held.Keys <= w.invocations[v].candidates
  }

  /** What the pool and the sweep decided, and what the index recorded, stays true of the instance while it lives. */
  ghost predicate DecisionsStand(w: World, id: InstanceId) {
    Live(w, id) ==>
      && (id in w.released ==> Settled(Tag(w, id), w.now))
      && (id in w.doomed ==> Settled(Tag(w, id), w.now) || (w.ec2[id].expires.Some? && w.ec2[id].expires.value <= w.now))
      && (id in w.condemned ==> (id !in w.items || w.items[id].state == ACTIVATED) && !Active(w, id))
      && (id in w.predecessor ==> !Active(w, id))
      && (WasActivated(w, id) ==> Tag(w, id).Some? && !Active(w, id))
  }

  ghost predicate WasActivated(w: World, id: InstanceId) {
    exists a | a in w.activations :: a.0 == id
  }

  /** What holds of every world that can be reached, with no assumption. */
  ghost predicate Sane(w: World) {
    Consistent(w.items) && ExpiryAgrees(w) && CandidatesOutlive(w) && HeldAreCandidates(w) && DecisionsKnown(w)
  }

  /** What moreover holds of an instance, as long as the assumptions are met for it. */
  ghost predicate Inv(w: World, id: InstanceId) {
    Sane(w) && HeldIsLeased(w, id) && DecisionsStand(w, id)
  }

  ghost predicate Initial(w: World) {
    w.items == map[] && w.ec2 == map[] && w.invocations == map[]
    && w.released == {} && w.condemned == {} && w.doomed == {} && w.activations == {}
    && w.predecessor == map[] && w.orphaned == {}
  }

  // ---------------------------------------------------------------- every step keeps the invariant

  /** What a step leaves alone: instances only appear and die, their expiry never changes, and time moves on. */
  lemma StepFrame(w: World, a: Action, id: InstanceId)
    requires Allowed(w, a)
    ensures Next(w, a).now >= w.now
    ensures id in w.ec2 ==> id in Next(w, a).ec2 && Next(w, a).ec2[id].expires == w.ec2[id].expires
    ensures id in w.ec2 && Live(Next(w, a), id) ==> Live(w, id)
    ensures id in w.ec2 && !(a.TagActivated? && a.id == id) && !(a.Untag? && a.id == id) ==>
              Tag(Next(w, a), id) == Tag(w, id)
  {
  }

  lemma InvocationFrame(w: World, a: Action, v: Owner)
    requires Allowed(w, a) && v in Next(w, a).invocations
    ensures v in w.invocations ==>
              && Next(w, a).invocations[v].t0 == w.invocations[v].t0
              && Next(w, a).invocations[v].candidates == w.invocations[v].candidates
              && (InTime(Next(w, a), v) ==> InTime(w, v))
    ensures v !in w.invocations ==> a == Begin(v)
  {
  }

  lemma ExpiryKept(w: World, a: Action)
    requires ExpiryAgrees(w) && Allowed(w, a)
    ensures ExpiryAgrees(Next(w, a))
  {
    var w' := Next(w, a);
    forall id | id in w'.items
      ensures (w'.items[id].expiresAt.Some? ==> id in w'.ec2 && w'.items[id].expiresAt == w'.ec2[id].expires)
      ensures (w'.items[id].state == WARM ==> id in w'.ec2 && w'.items[id].expiresAt == w'.ec2[id].expires)
    {
      StepFrame(w, a, id);
      if IndexWrite(w, a).Some? && IndexWrite(w, a).value.op.id == id {
        EntryExpiry(w, a, id);
      } else {
        assert id in w.items && w'.items[id] == w.items[id];
      }
    }
  }

  lemma EntryExpiry(w: World, a: Action, id: InstanceId)
    requires ExpiryAgrees(w) && Allowed(w, a)
    requires IndexWrite(w, a).Some? && IndexWrite(w, a).value.op.id == id
    requires id in Apply(w.items, IndexWrite(w, a).value)
    ensures var item := Apply(w.items, IndexWrite(w, a).value)[id];
            && (item.expiresAt.Some? ==> id in w.ec2 && item.expiresAt == w.ec2[id].expires)
            && (item.state == WARM ==> id in w.ec2 && item.expiresAt == w.ec2[id].expires)
  {
  }

  lemma CandidatesKept(w: World, a: Action)
    requires ExpiryAgrees(w) && CandidatesOutlive(w) && Allowed(w, a)
    ensures CandidatesOutlive(Next(w, a))
  {
    var w' := Next(w, a);
    forall v, id | v in w'.invocations && id in w'.invocations[v].candidates
      ensures && id in w'.ec2 && w'.invocations[v].t0 <= w'.now
              && (w'.ec2[id].expires.Some? ==>
                    w'.ec2[id].expires.value > w'.invocations[v].t0 + WARM_ACTIVATION_GRACE_MS)
    {
      StepFrame(w, a, id);
      InvocationFrame(w, a, v);
    }
  }

  /** A lease taken at or after the read outlasts the window of the read. */
  lemma LeaseOutlastsWindow(t0: int, now: int, until: int)
    requires now < t0 + WARM_ACTIVATION_GRACE_MS && until >= Seconds(t0) + WARM_CLAIM_TTL_SECONDS
    ensures until >= Seconds(now)
  {
  }

  /** The condition `HeldIsLeased` asks of one holding. */
  ghost predicate LeasedTo(w: World, v: Owner, id: InstanceId)
    requires v in w.invocations && id in w.invocations[v].held && id in w.ec2
  {
    Live(w, id) ==>
      && ClaimedBy(w.items, id, v)
      && w.items[id].claimUntil.Some?
      && w.items[id].claimUntil.value >= Seconds(w.invocations[v].t0) + WARM_CLAIM_TTL_SECONDS
      && (if w.invocations[v].held[id] == Claimed then Tag(w, id).None?
          else Tag(w, id).Some? && w.invocations[v].t0 <= Tag(w, id).value)
  }

  /** A claim that succeeds in time gives the lease. */
  lemma ClaimGivesLease(w: World, v: Owner, id: InstanceId)
    requires Inv(w, id) && Allowed(w, ClaimOne(v, id)) && Assumed(w, ClaimOne(v, id), id)
    ensures var w' := Next(w, ClaimOne(v, id));
            v in w'.invocations && id in w'.invocations[v].candidates && id in w'.ec2 && Holds(w', v, id) && LeasedTo(w', v, id)
  {
    assert w.invocations[v].t0 <= w.now;
  }

  /** A later step by the holder itself. */
  lemma HeldKeptByHolder(w: World, a: Action, v: Owner, id: InstanceId)
    requires Inv(w, id) && Allowed(w, a) && Assumed(w, a, id)
    requires InTime(Next(w, a), v) && Holds(Next(w, a), v, id)
    requires (a.TagActivated? && a.v == v && a.id == id) || a == Untag(v, id) || a == Start(v, id) || a == DestroyOwn(v, id)
    ensures id in Next(w, a).invocations[v].candidates && id in Next(w, a).ec2 && LeasedTo(Next(w, a), v, id)
  {
    InvocationFrame(w, a, v);
    StepFrame(w, a, id);
    assert ItemsAfter(w, a) == w.items;
  }

  lemma OneActiveHolder(w: World, v1: Owner, v2: Owner, id: InstanceId)
    requires Inv(w, id) && Live(w, id)
    requires InTime(w, v1) && Holds(w, v1, id) && InTime(w, v2) && Holds(w, v2, id)
    ensures v1 == v2
  {
  }

  lemma HolderHasLiveLease(w: World, v: Owner, id: InstanceId)
    requires Inv(w, id) && Live(w, id) && InTime(w, v) && Holds(w, v, id)
    ensures ClaimedBy(w.items, id, v) && !Unleased(w.items[id], Seconds(w.now))
  {
    LeaseOutlastsWindow(w.invocations[v].t0, w.now, w.items[id].claimUntil.value);
  }

  /** No step issues an index write that could end the lease of an in-time holder who keeps holding. */
  lemma NoEndingWrite(w: World, a: Action, v: Owner, id: InstanceId)
    requires Inv(w, id) && Allowed(w, a) && Assumed(w, a, id)
    requires Live(w, id) && InTime(w, v) && Holds(w, v, id) && Holds(Next(w, a), v, id)
    ensures a.PoolRemove? ==> a.id != id
    ensures a.RecordActivation? ==> a.id != id
    ensures a.Relinquish? ==> a.id != id || a.v != v
  {
  }

  /** While an invocation holds an instance in time, no index write of anybody else moves its lease. */
  lemma LeaseUndisturbed(w: World, a: Action, v: Owner, id: InstanceId)
    requires Inv(w, id) && Allowed(w, a) && Assumed(w, a, id)
    requires Live(w, id) && InTime(w, v) && Holds(w, v, id) && Holds(Next(w, a), v, id)
    ensures ClaimedBy(Next(w, a).items, id, v)
    ensures Next(w, a).items[id].claimUntil == w.items[id].claimUntil
  {
    ItemsOf(w, a);
    HolderHasLiveLease(w, v, id);
    NoEndingWrite(w, a, v, id);
    if IndexWrite(w, a).Some? {
      WriteIdentity(w, a);
      LiveLeaseIsPrivate(w.items, IndexWrite(w, a).value, id, v);
    }
  }

  /** Which step a write comes from. */
  lemma WriteIdentity(w: World, a: Action)
    requires IndexWrite(w, a).Some?
    ensures var e := IndexWrite(w, a).value;
            && e.now == Seconds(w.now)
            && (e.op.Remove? ==> a == PoolRemove(e.op.id))
            && (e.op.MarkActivated? ==> a.RecordActivation? && a.id == e.op.id)
            && (e.op.Release? || e.op.ReleaseWithCooldown? || e.op.MarkUnusable? ==>
                  a.Relinquish? && a.id == e.op.id && a.v == e.caller)
  {
  }

  lemma ItemsOf(w: World, a: Action)
    requires Allowed(w, a)
    ensures Next(w, a).items == if IndexWrite(w, a).Some? then Apply(w.items, IndexWrite(w, a).value) else w.items
  {
  }

  lemma HeldKept(w: World, a: Action, id: InstanceId)
    requires Inv(w, id) && Allowed(w, a) && Assumed(w, a, id)
    ensures HeldIsLeased(Next(w, a), id)
  {
    var w' := Next(w, a);
    forall v | InTime(w', v) && Holds(w', v, id)
      ensures id in w'.invocations[v].candidates && id in w'.ec2 && LeasedTo(w', v, id)
    {
      InvocationFrame(w, a, v);
      StepFrame(w, a, id);
      if a == ClaimOne(v, id) {
        ClaimGivesLease(w, v, id);
      } else if (a.TagActivated? && a.v == v && a.id == id) || a == Untag(v, id) || a == Start(v, id) || a == DestroyOwn(v, id) {
        HeldKeptByHolder(w, a, v, id);
      } else {
        HeldKeptByOthers(w, a, v, id);
      }
    }
  }

  ghost predicate ConcernsInvocations(a: Action) {
    || a.Begin? || a.ClaimOne? || a.TagActivated? || a.Untag? || a.Start? || a.Relinquish? || a.RecordActivation?
  }

  lemma InvocationsUntouched(w: World, a: Action)
    requires Allowed(w, a) && !ConcernsInvocations(a)
    ensures Next(w, a).invocations == w.invocations
  {
  }

  /** Only its own steps change what an invocation holds. */
  lemma PhaseFrame(w: World, a: Action, v: Owner, id: InstanceId)
    requires Allowed(w, a) && Holds(Next(w, a), v, id)
    requires !(a == ClaimOne(v, id) || (a.TagActivated? && a.v == v && a.id == id)
               || a == Untag(v, id) || a == Start(v, id))
    ensures Holds(w, v, id) && Next(w, a).invocations[v].held[id] == w.invocations[v].held[id]
  {
    if !ConcernsInvocations(a) {
      InvocationsUntouched(w, a);
    }
  }

  lemma NoForeignTagging(w: World, a: Action, v: Owner, id: InstanceId)
    requires Inv(w, id) && Allowed(w, a) && Assumed(w, a, id)
    requires Live(w, id) && InTime(w, v) && Holds(w, v, id)
    ensures a.TagActivated? || a.Untag? ==> a.id != id || a.v == v
  {
  }

  lemma HeldKeptByOthers(w: World, a: Action, v: Owner, id: InstanceId)
    requires Inv(w, id) && Allowed(w, a) && Assumed(w, a, id)
    requires InTime(Next(w, a), v) && Holds(Next(w, a), v, id)
    requires !(a == ClaimOne(v, id) || (a.TagActivated? && a.v == v && a.id == id)
               || a == Untag(v, id) || a == Start(v, id) || a == DestroyOwn(v, id))
    ensures id in Next(w, a).invocations[v].candidates && id in Next(w, a).ec2 && LeasedTo(Next(w, a), v, id)
  {
    InvocationFrame(w, a, v);
    StepFrame(w, a, id);
    PhaseFrame(w, a, v, id);
    var w' := Next(w, a);
    if Live(w', id) {
      LeaseUndisturbed(w, a, v, id);
      NoForeignTagging(w, a, v, id);
      assert Tag(w', id) == Tag(w, id);
    }
  }

  /** A settled activation tag is never removed or replaced: whoever could do that tagged less than the grace ago. */
  lemma SettledStays(w: World, a: Action, id: InstanceId)
    requires Inv(w, id) && Allowed(w, a) && Assumed(w, a, id)
    requires Live(w, id) && Settled(Tag(w, id), w.now)
    ensures Settled(Tag(Next(w, a), id), Next(w, a).now)
  {
    StepFrame(w, a, id);
    assert a.TagActivated? || a.Untag? ==> a.id != id;
  }

  lemma ReleasedStand(w: World, a: Action, id: InstanceId)
    requires Inv(w, id) && Allowed(w, a) && Assumed(w, a, id)
    requires id in Next(w, a).released && Live(Next(w, a), id) && id in w.ec2
    ensures Settled(Tag(Next(w, a), id), Next(w, a).now)
  {
    StepFrame(w, a, id);
    assert id in w.released || (a.PoolRelease? && id in a.ids) || (a.PoolOrphan? && w.predecessor[a.id] == id);
    if id !in w.released {
      assert Releasable(w, id);
    }
    assert Settled(Tag(w, id), w.now);
    SettledStays(w, a, id);
  }

  lemma DoomedStand(w: World, a: Action, id: InstanceId)
    requires Inv(w, id) && Allowed(w, a) && Assumed(w, a, id)
    requires id in Next(w, a).doomed && Live(Next(w, a), id) && id in w.ec2
    ensures var w' := Next(w, a);
            || Settled(Tag(w', id), w'.now)
            || (w'.ec2[id].expires.Some? && w'.ec2[id].expires.value <= w'.now)
  {
    StepFrame(w, a, id);
    assert id in w.doomed || (a.SweepDecide? && id in a.ids);
    if Settled(Tag(w, id), w.now) {
      SettledStays(w, a, id);
    }
  }

  /** A new in-time holding starts with a successful claim. */
  lemma ActiveOnlyByClaim(w: World, a: Action, id: InstanceId)
    requires Allowed(w, a) && Active(Next(w, a), id)
    ensures Active(w, id) || (a.ClaimOne? && a.id == id)
  {
    var v :| InTime(Next(w, a), v) && Holds(Next(w, a), v, id);
    InvocationFrame(w, a, v);
    if a != ClaimOne(v, id) {
      assert InTime(w, v) && Holds(w, v, id);
    }
  }

  /** An entry the pool wins has no holder in time. */
  lemma WonMeansUnheld(w: World, id: InstanceId)
    requires Inv(w, id) && Allowed(w, PoolRemoveUnclaimed(id)) && Live(w, id)
    ensures !Active(w, id)
  {
    forall v | InTime(w, v) && Holds(w, v, id) ensures false {
      HolderHasLiveLease(w, v, id);
    }
  }

  /** A condemned entry that is absent or activated stays so under the assumptions. */
  lemma CondemnedEntryStays(w: World, a: Action, id: InstanceId)
    requires Allowed(w, a) && NoRewriteWhileCondemned(w, a, id) && id in w.condemned
    requires id !in w.items || w.items[id].state == ACTIVATED
    requires Consistent(w.items)
    ensures id !in Next(w, a).items || Next(w, a).items[id].state == ACTIVATED
    ensures !(a.ClaimOne? && a.id == id)
  {
  }

  lemma CondemnedStand(w: World, a: Action, id: InstanceId)
    requires Inv(w, id) && Allowed(w, a) && Assumed(w, a, id)
    requires id in Next(w, a).condemned && Live(Next(w, a), id) && id in w.ec2
    ensures id !in Next(w, a).items || Next(w, a).items[id].state == ACTIVATED
    ensures !Active(Next(w, a), id)
  {
    StepFrame(w, a, id);
    if a == PoolRemoveUnclaimed(id) {
      WonMeansUnheld(w, id);
    } else {
      assert id in w.condemned;
      CondemnedEntryStays(w, a, id);
    }
    if Active(Next(w, a), id) {
      ActiveOnlyByClaim(w, a, id);
    }
  }

  /** A replacement has no holder in time: nobody held it when AWS launched it, and nobody claims it. */
  lemma ReplacementsStand(w: World, a: Action, id: InstanceId)
    requires Inv(w, id) && Allowed(w, a) && Assumed(w, a, id)
    requires id in Next(w, a).predecessor && Live(Next(w, a), id) && id in w.ec2
    ensures !Active(Next(w, a), id)
  {
    StepFrame(w, a, id);
    assert id in w.predecessor;
    if Active(Next(w, a), id) {
      ActiveOnlyByClaim(w, a, id);
    }
  }

  lemma ActivationsStand(w: World, a: Action, id: InstanceId)
    requires Inv(w, id) && Allowed(w, a) && Assumed(w, a, id)
    requires WasActivated(Next(w, a), id) && Live(Next(w, a), id) && id in w.ec2
    ensures Tag(Next(w, a), id).Some? && !Active(Next(w, a), id)
  {
    StepFrame(w, a, id);
    if WasActivated(w, id) {
      assert Tag(w, id).Some? && !Active(w, id);
      assert a.Untag? ==> a.id != id;
    } else {
      assert a.RecordActivation? && a.id == id;
    }
    if Active(Next(w, a), id) {
      if a.RecordActivation? && a.id == id {
        SoleHolderLeaves(w, a, id);
      } else {
        ActiveOnlyByClaim(w, a, id);
      }
    }
  }

  lemma SoleHolderLeaves(w: World, a: Action, id: InstanceId)
    requires Inv(w, id) && Allowed(w, a) && Assumed(w, a, id) && a.RecordActivation? && a.id == id && Live(w, id)
    ensures !Active(Next(w, a), id)
  {
    forall v | InTime(Next(w, a), v) ensures !Holds(Next(w, a), v, id) {
      InvocationFrame(w, a, v);
    }
  }

  lemma KnownKept(w: World, a: Action)
    requires CandidatesOutlive(w) && HeldAreCandidates(w) && DecisionsKnown(w) && Allowed(w, a)
    ensures DecisionsKnown(Next(w, a))
  {
    assert w.ec2.Keys <= Ec2After(w.ec2, a).Keys;
    DecidedAreKnown(w, a);
    ActivatedAreKnown(w, a);
  }

  lemma DecidedAreKnown(w: World, a: Action)
    requires DecisionsKnown(w) && Allowed(w, a)
    ensures ReleasedAfter(w, a) + CondemnedAfter(w.condemned, a) + DoomedAfter(w.doomed, a) <= w.ec2.Keys
    ensures OrphanedAfter(w.orphaned, a) <= w.predecessor.Keys
  {
    assert ReleasedAfter(w, a) <= w.ec2.Keys;
    assert CondemnedAfter(w.condemned, a) <= w.ec2.Keys;
    assert DoomedAfter(w.doomed, a) <= w.ec2.Keys;
  }

  lemma ActivatedAreKnown(w: World, a: Action)
    requires CandidatesOutlive(w) && HeldAreCandidates(w) && DecisionsKnown(w) && Allowed(w, a)
    ensures forall e :: e in Next(w, a).activations ==> e.0 in w.ec2
  {
    if a.RecordActivation? {
      assert a.id in w.invocations[a.v].held.Keys;
    }
  }

  lemma HeldStayCandidates(w: World, a: Action)
    requires HeldAreCandidates(w) && Allowed(w, a)
    ensures HeldAreCandidates(Next(w, a))
  {
    forall v | v in Next(w, a).invocations
      ensures Next(w, a).invocations[v].held.Keys <= Next(w, a).invocations[v].candidates
    {
      InvocationFrame(w, a, v);
      if v in w.invocations {
        assert w.invocations[v].held.Keys <= w.invocations[v].candidates;
      }
    }
  }

  lemma SaneKept(w: World, a: Action)
    requires Sane(w) && Allowed(w, a)
    ensures Sane(Next(w, a))
  {
    if IndexWrite(w, a).Some? {
      ApplyKeepsConsistent(w.items, IndexWrite(w, a).value);
    }
    ItemsOf(w, a);
    ExpiryKept(w, a);
    CandidatesKept(w, a);
    HeldStayCandidates(w, a);
    KnownKept(w, a);
  }

  /** An instance that only now appears is held by nobody, and nothing has been decided about it. */
  lemma NewInstanceIsFree(w: World, a: Action, id: InstanceId)
    requires CandidatesOutlive(w) && HeldAreCandidates(w) && DecisionsKnown(w)
    requires Allowed(w, a) && id !in w.ec2 && Live(Next(w, a), id)
    ensures DecisionsStand(Next(w, a), id)
  {
    assert a.Ec2Launch? || a.Ec2Replace?;
    assert Next(w, a).invocations == w.invocations;
    forall v | v in w.invocations ensures !Holds(Next(w, a), v, id) {
      assert w.invocations[v].held.Keys <= w.invocations[v].candidates;
    }
  }

  lemma DecisionsKept(w: World, a: Action, id: InstanceId)
    requires Inv(w, id) && Allowed(w, a) && Assumed(w, a, id)
    ensures DecisionsStand(Next(w, a), id)
  {
    var w' := Next(w, a);
    if Live(w', id) && id !in w.ec2 {
      NewInstanceIsFree(w, a, id);
    } else if Live(w', id) {
      if id in w'.released {
        ReleasedStand(w, a, id);
      }
      if id in w'.doomed {
        DoomedStand(w, a, id);
      }
      if id in w'.condemned {
        CondemnedStand(w, a, id);
      }
      if id in w'.predecessor {
        ReplacementsStand(w, a, id);
      }
      if WasActivated(w', id) {
        ActivationsStand(w, a, id);
      }
    }
  }

  lemma NextKeepsInv(w: World, a: Action, id: InstanceId)
    requires Inv(w, id) && Allowed(w, a) && Assumed(w, a, id)
    ensures Inv(Next(w, a), id)
  {
    SaneKept(w, a);
    HeldKept(w, a, id);
    DecisionsKept(w, a, id);
  }

  // ---------------------------------------------------------------- safety over whole runs

  /** A run: every step is one the code allows in the world the previous steps left. */
  ghost predicate IsRun(w: World, actions: seq<Action>)
    decreases |actions|
  {
    actions == [] || (Allowed(w, actions[0]) && IsRun(Next(w, actions[0]), actions[1..]))
  }

  /** Every step of the run respects the assumptions, as far as it concerns the one instance. */
  ghost predicate RespectsAll(which: set<Assumption>, w: World, actions: seq<Action>, id: InstanceId)
    requires IsRun(w, actions)
    decreases |actions|
  {
    actions == [] || (Respects(which, w, actions[0], id) && RespectsAll(which, Next(w, actions[0]), actions[1..], id))
  }

  ghost function Final(w: World, actions: seq<Action>): World
    requires IsRun(w, actions)
    decreases |actions|
  {
    if actions == [] then w else Final(Next(w, actions[0]), actions[1..])
  }

  /** The steps of the pool and of the sweep that end an instance. */
  ghost predicate Ends(a: Action, id: InstanceId) {
    a in {PoolDestroy(id), PoolDestroyReplacement(id), PoolCancelRequest(id), SweepDestroy(id)}
  }

  /** The pool or the sweep ends a live instance that an invocation holds in time. */
  ghost predicate Strikes(w: World, a: Action, v: Owner, id: InstanceId) {
    Ends(a, id) && Live(w, id) && InTime(w, v) && Holds(w, v, id)
  }

  lemma {:induction false} RunKeepsInv(w: World, actions: seq<Action>, id: InstanceId)
    requires Inv(w, id) && IsRun(w, actions) && RespectsAll(ALL, w, actions, id)
    ensures Inv(Final(w, actions), id)
    decreases |actions|
  {
    if actions != [] {
      NextKeepsInv(w, actions[0], id);
      RunKeepsInv(Next(w, actions[0]), actions[1..], id);
    }
  }

  /** In every run, with no assumption at all, a WARM entry expires when the tag of its instance says. */
  lemma {:induction false} WarmEntriesExpireAsTagged(w: World, actions: seq<Action>)
    requires ExpiryAgrees(w) && IsRun(w, actions)
    ensures var f := Final(w, actions);
            forall id :: id in f.items && f.items[id].state == WARM ==>
              id in f.ec2 && f.items[id].expiresAt == f.ec2[id].expires
    ensures ExpiryAgrees(Final(w, actions))
    decreases |actions|
  {
    if actions != [] {
      ExpiryKept(w, actions[0]);
      WarmEntriesExpireAsTagged(Next(w, actions[0]), actions[1..]);
    }
  }

  lemma HeldIsNeverDecidedAgainst(w: World, v: Owner, id: InstanceId)
    requires Inv(w, id) && Live(w, id) && InTime(w, v) && Holds(w, v, id)
    ensures id !in w.condemned && id !in w.doomed && id !in w.released && id !in w.orphaned && id !in w.predecessor
  {
    assert Active(w, id);
    assert id in w.invocations[v].candidates;
  }

  lemma EndsOnlyByDecision(w: World, a: Action, id: InstanceId)
    requires Allowed(w, a) && Ends(a, id)
    ensures id in w.condemned || id in w.doomed || id in w.released || id in w.orphaned || id in w.predecessor
  {
  }

  lemma NoStrike(w: World, a: Action, v: Owner, id: InstanceId)
    requires Inv(w, id) && Allowed(w, a)
    ensures !Strikes(w, a, v, id)
  {
    if Ends(a, id) {
      EndsOnlyByDecision(w, a, id);
      if Live(w, id) && InTime(w, v) && Holds(w, v, id) {
        HeldIsNeverDecidedAgainst(w, v, id);
      }
    }
  }

  lemma InitiallySo(w: World, id: InstanceId)
    requires Initial(w)
    ensures Inv(w, id)
  {
  }

  /**
   Claimed instances are not destroyed while they are being activated. After any interleaving of any number of
   invocations, pool runs and sweeps, no allowed step of the pool or the sweep ends an instance that an invocation
   claimed and still holds, before the grace time since that invocation's read is over. The assumptions are about the
   steps that concern this one instance; whatever happens to the others does not matter.
   */
  lemma ClaimedInstancesAreSafe(w: World, actions: seq<Action>, a: Action, v: Owner, id: InstanceId)
    requires Initial(w) && IsRun(w, actions) && RespectsAll(ALL, w, actions, id)
    requires Allowed(Final(w, actions), a)
    ensures !Strikes(Final(w, actions), a, v, id)
  {
    InitiallySo(w, id);
    RunKeepsInv(w, actions, id);
    NoStrike(Final(w, actions), a, v, id);
  }

  /** Two invocations never hold, and so never start, the same live instance in time. */
  lemma AtMostOneHolder(w: World, actions: seq<Action>, v1: Owner, v2: Owner, id: InstanceId)
    requires Initial(w) && IsRun(w, actions) && RespectsAll(ALL, w, actions, id)
    requires var f := Final(w, actions);
             Live(f, id) && InTime(f, v1) && Holds(f, v1, id) && InTime(f, v2) && Holds(f, v2, id)
    ensures v1 == v2
  {
    InitiallySo(w, id);
    RunKeepsInv(w, actions, id);
    OneActiveHolder(Final(w, actions), v1, v2, id);
  }

  // ---------------------------------------------------------------- none of the assumptions can be dropped

  const EMPTY: World := World(0, map[], map[], map[], {}, {}, {}, {}, map[], {})

  lemma {:induction false} Extend(which: set<Assumption>, w: World, actions: seq<Action>, a: Action, id: InstanceId)
    requires IsRun(w, actions) && RespectsAll(which, w, actions, id)
    requires Allowed(Final(w, actions), a) && Respects(which, Final(w, actions), a, id)
    ensures IsRun(w, actions + [a]) && RespectsAll(which, w, actions + [a], id)
    ensures Final(w, actions + [a]) == Next(Final(w, actions), a)
    decreases |actions|
  {
    if actions == [] {
      assert (actions + [a])[1..] == [];
    } else {
      Extend(which, Next(w, actions[0]), actions[1..], a, id);
      assert (actions + [a])[1..] == actions[1..] + [a];
    }
  }

  lemma Then(which: set<Assumption>, run: seq<Action>, a: Action, id: InstanceId) returns (more: seq<Action>)
    requires IsRun(EMPTY, run) && RespectsAll(which, EMPTY, run, id)
    requires Allowed(Final(EMPTY, run), a) && Respects(which, Final(EMPTY, run), a, id)
    ensures more == run + [a] && IsRun(EMPTY, more) && RespectsAll(which, EMPTY, more, id)
    ensures Final(EMPTY, more) == Next(Final(EMPTY, run), a)
  {
    Extend(which, EMPTY, run, a, id);
    more := run + [a];
  }

  /** An invocation reads the index and claims one of the candidates. */
  lemma ReadAndClaim(which: set<Assumption>, run: seq<Action>, w: World, v: Owner, id: InstanceId)
    returns (more: seq<Action>)
    requires IsRun(EMPTY, run) && RespectsAll(which, EMPTY, run, id) && w == Final(EMPTY, run)
    requires v != "" && v !in w.invocations && id in Candidates(w) && Unleased(w.items[id], Seconds(w.now))
    requires NoLeftoverTags in which && Live(w, id) ==> Tag(w, id).None?
    requires NoReplacementClaims in which ==> id !in w.predecessor
    ensures IsRun(EMPTY, more) && RespectsAll(which, EMPTY, more, id)
    ensures Final(EMPTY, more) == Claiming(w, v, id)
  {
    more := Then(which, run, Begin(v), id);
    var read := Next(w, Begin(v));
    assert read == Reading(w, v);
    ClaimStep(w, v, id);
    more := Then(which, more, ClaimOne(v, id), id);
  }

  ghost function Reading(w: World, v: Owner): World {
    w.(invocations := w.invocations[v := Invocation(w.now, Candidates(w), map[])])
  }

  lemma ClaimStep(w: World, v: Owner, id: InstanceId)
    requires v != "" && v !in w.invocations && id in Candidates(w) && Unleased(w.items[id], Seconds(w.now))
    ensures Allowed(Reading(w, v), ClaimOne(v, id))
    ensures Next(Reading(w, v), ClaimOne(v, id)) == Claiming(w, v, id)
  {
    var held: map<InstanceId, Phase> := map[];
    assert held[id := Claimed] == map[id := Claimed];
    assert InvocationsAfter(Reading(w, v), ClaimOne(v, id)) == Claiming(w, v, id).invocations;
  }

  /** The world after that. */
  ghost function Claiming(w: World, v: Owner, id: InstanceId): World
    requires id in w.items
  {
    w.(invocations := w.invocations[v := Invocation(w.now, Candidates(w), map[id := Claimed])],
       items := w.items[id := w.items[id].(claimOwner := Some(v), claimUntil := Some(Seconds(w.now) + WARM_CLAIM_TTL_SECONDS))])
  }

  /** One warm instance, stopped and indexed. */
  lemma OneWarmInstance(which: set<Assumption>) returns (run: seq<Action>)
    ensures IsRun(EMPTY, run) && RespectsAll(which, EMPTY, run, "i")
    ensures Final(EMPTY, run) == EMPTY.(ec2 := map["i" := Instance(Stopped, None, None)],
                                        items := map["i" := BLANK.(state := WARM)])
  {
    run := [];
    run := Then(which, run, Ec2Launch("i", None), "i");
    run := Then(which, run, Ec2Stop("i"), "i");
    run := Then(which, run, PoolUpdate("i", WARM), "i");
  }

  /** The instance won from the index by one pool run, and written again by another. */
  lemma RewrittenInstance(which: set<Assumption>) returns (run: seq<Action>)
    requires NoRewrites !in which
    ensures IsRun(EMPTY, run) && RespectsAll(which, EMPTY, run, "i")
    ensures Final(EMPTY, run) == EMPTY.(ec2 := map["i" := Instance(Stopped, None, None)],
                                        items := map["i" := BLANK.(state := WARM)], condemned := {"i"})
  {
    run := OneWarmInstance(which);
    run := Then(which, run, PoolRemoveUnclaimed("i"), "i");
    run := Then(which, run, PoolUpdate("i", WARM), "i");
  }

  /** A second pool run that writes a stale reading of a condemned instance lets the first destroy a claimed one. */
  lemma StaleRewriteStrikes() returns (run: seq<Action>)
    ensures IsRun(EMPTY, run) && RespectsAll({PunctualScaleUp, NoLeftoverTags, NoReplacementClaims}, EMPTY, run, "i")
    ensures Allowed(Final(EMPTY, run), PoolDestroy("i")) && Strikes(Final(EMPTY, run), PoolDestroy("i"), "v", "i")
  {
    var which := {PunctualScaleUp, NoLeftoverTags, NoReplacementClaims};
    run := RewrittenInstance(which);
    run := ReadAndClaim(which, run, Final(EMPTY, run), "v", "i");
  }

  const LEASED_TO_U: Item := BLANK.(state := WARM, claimOwner := Some("u"), claimUntil := Some(600))

  ghost function UsInvocation(phase: Phase): Invocation {
    Invocation(0, {"i"}, map["i" := phase])
  }

  lemma ClaimByU(which: set<Assumption>) returns (run: seq<Action>)
    ensures IsRun(EMPTY, run) && RespectsAll(which, EMPTY, run, "i")
    ensures Final(EMPTY, run) == EMPTY.(ec2 := map["i" := Instance(Stopped, None, None)],
                                        items := map["i" := LEASED_TO_U],
                                        invocations := map["u" := UsInvocation(Claimed)])
  {
    run := OneWarmInstance(which);
    assert Candidates(Final(EMPTY, run)) == {"i"};
    run := ReadAndClaim(which, run, Final(EMPTY, run), "u", "i");
  }

  /** Invocation u claimed the instance, tagged it or not, and then stood still until its lease had expired. */
  lemma StalledClaim(which: set<Assumption>, tagged: bool) returns (run: seq<Action>)
    ensures IsRun(EMPTY, run) && RespectsAll(which, EMPTY, run, "i")
    ensures Final(EMPTY, run) == EMPTY.(now := 700000,
                                        ec2 := map["i" := Instance(Stopped, if tagged then Some(0) else None, None)],
                                        items := map["i" := LEASED_TO_U],
                                        invocations := map["u" := UsInvocation(if tagged then Tagged else Claimed)])
  {
    run := ClaimByU(which);
    if tagged {
      run := Then(which, run, TagActivated("u", "i", 0), "i");
    }
    var w := Final(EMPTY, run);
    assert w.ec2 == map["i" := Instance(Stopped, if tagged then Some(0) else None, None)];
    assert w.invocations == map["u" := UsInvocation(if tagged then Tagged else Claimed)] by {
      assert map["i" := Claimed]["i" := Tagged] == map["i" := Tagged];
    }
    run := Then(which, run, Tick(700000), "i");
  }

  /** Invocation v then claims the same instance: the lease of u has run out. */
  lemma SecondClaim(which: set<Assumption>, tagged: bool) returns (run: seq<Action>)
    requires tagged ==> NoLeftoverTags !in which
    ensures IsRun(EMPTY, run) && RespectsAll(which, EMPTY, run, "i")
    ensures var w := Final(EMPTY, run);
            && w.now == 700000
            && w.ec2 == map["i" := Instance(Stopped, if tagged then Some(0) else None, None)]
            && w.invocations == map["u" := UsInvocation(if tagged then Tagged else Claimed),
                                    "v" := Invocation(700000, {"i"}, map["i" := Claimed])]
  {
    run := StalledClaim(which, tagged);
    assert Candidates(Final(EMPTY, run)) == {"i"};
    run := ReadAndClaim(which, run, Final(EMPTY, run), "v", "i");
  }

  /** A tag left by an invocation that died makes the sweep destroy the instance under its next claimant. */
  lemma LeftoverTagStrikes() returns (run: seq<Action>)
    ensures IsRun(EMPTY, run) && RespectsAll({PunctualScaleUp, NoRewrites, NoReplacementClaims}, EMPTY, run, "i")
    ensures Allowed(Final(EMPTY, run), SweepDestroy("i")) && Strikes(Final(EMPTY, run), SweepDestroy("i"), "v", "i")
  {
    var which := {PunctualScaleUp, NoRewrites, NoReplacementClaims};
    run := SecondClaim(which, true);
    run := Then(which, run, SweepDecide({"i"}), "i");
  }

  /** An invocation that tags after its lease time makes the sweep destroy the instance under the new claimant. */
  lemma LateTagStrikes() returns (run: seq<Action>)
    ensures IsRun(EMPTY, run) && RespectsAll({NoLeftoverTags, NoRewrites, NoReplacementClaims}, EMPTY, run, "i")
    ensures Allowed(Final(EMPTY, run), SweepDestroy("i")) && Strikes(Final(EMPTY, run), SweepDestroy("i"), "v", "i")
  {
    var which := {NoLeftoverTags, NoRewrites, NoReplacementClaims};
    run := SecondClaim(which, false);
    run := Then(which, run, TagActivated("u", "i", 0), "i");
    run := Then(which, run, SweepDecide({"i"}), "i");
  }

  /** The instance "r", launched by AWS when "i" was gone. */
  lemma LaunchedReplacement(which: set<Assumption>) returns (run: seq<Action>)
    ensures IsRun(EMPTY, run) && RespectsAll(which, EMPTY, run, "r")
    ensures Final(EMPTY, run) == EMPTY.(ec2 := map["i" := Instance(Gone, None, None), "r" := Instance(Running, None, None)],
                                        predecessor := map["r" := "i"])
  {
    run := [];
    run := Then(which, run, Ec2Launch("i", None), "r");
    run := Then(which, run, Ec2Terminate("i"), "r");
    run := Then(which, run, Ec2Replace("r", "i", None), "r");
  }

  /** It stopped itself and was adopted into the index. */
  lemma AdoptedReplacement(which: set<Assumption>) returns (run: seq<Action>)
    ensures IsRun(EMPTY, run) && RespectsAll(which, EMPTY, run, "r")
    ensures Final(EMPTY, run) == EMPTY.(ec2 := map["i" := Instance(Gone, None, None), "r" := Instance(Stopped, None, None)],
                                        items := map["r" := BLANK.(state := WARM)], predecessor := map["r" := "i"])
  {
    run := LaunchedReplacement(which);
    run := Then(which, run, Ec2Stop("r"), "r");
    run := Then(which, run, PoolUpdate("r", WARM), "r");
  }

  /** The pool that cancels the request of a gone instance destroys the instance that replaced it under its claimant. */
  lemma ReplacementStrikes() returns (run: seq<Action>)
    ensures IsRun(EMPTY, run) && RespectsAll({PunctualScaleUp, NoLeftoverTags, NoRewrites}, EMPTY, run, "r")
    ensures Allowed(Final(EMPTY, run), PoolDestroyReplacement("r"))
    ensures Strikes(Final(EMPTY, run), PoolDestroyReplacement("r"), "v", "r")
  {
    var which := {PunctualScaleUp, NoLeftoverTags, NoRewrites};
    run := AdoptedReplacement(which);
    run := ReadAndClaim(which, run, Final(EMPTY, run), "v", "r");
    run := Then(which, run, PoolOrphan("r"), "r");
  }
}
