/**
 One SQS batch of scale-up requests: group the messages, launch at most as many runners as allowed,
 and decide which messages come back through the batch and which through a retry message.
 */
module ScaleUpBatch {
  import opened Prelude

  type MessageId = string

  /** `key` stands for the runner owner, extended with the hash of the dynamic labels when there are any. */
  datatype Message = Message(messageId: MessageId, isWorkflowJob: bool, ownerIsValid: bool, key: string)

  datatype QueuedAnswer = StillQueued | NoLongerQueued | UnsupportedEvent | CheckFailed

  datatype Creation = Creation(created: int, retryableErrorCount: int, nonRetryableErrorCount: int)

  datatype Config = Config(ephemeral: bool, jobQueuedCheck: bool, maximumRunners: int)

  /** The answers: by message, by group, or by the number of the call. A creation that throws answers nothing. */
  datatype Environment = Environment(
    queued: MessageId -> QueuedAnswer,
    labelsAreValid: string -> bool,
    currentRunners: nat -> nat,
    create: (nat, int) -> Option<Creation>)

  /** The compute provider accounts for every runner it was asked for. */
  ghost predicate CreationConserves(env: Environment) {
    forall call: nat, n: nat :: env.create(call, n).Some? ==>
      var c := env.create(call, n).value;
      && c.created >= 0 && c.retryableErrorCount >= 0 && c.nonRetryableErrorCount >= 0
      && c.created + c.retryableErrorCount + c.nonRetryableErrorCount == n
  }

  datatype Group = Group(key: string, messages: seq<Message>)

  ghost predicate IsUnsupported(config: Config, m: Message) {
    config.ephemeral && !m.isWorkflowJob
  }

  ghost predicate IsAccepted(config: Config, m: Message) {
    !IsUnsupported(config, m) && m.ownerIsValid
  }

  ghost function MessagesOf(config: Config, payloads: seq<Message>, key: string): seq<Message> {
    Filter((m: Message) => IsAccepted(config, m) && m.key == key, payloads)
  }

  ghost function Ids(ms: seq<Message>): set<MessageId> {
    set m | m in ms :: m.messageId
  }

  ghost function UnsupportedIds(config: Config, payloads: seq<Message>): set<MessageId> {
    if payloads == [] then {}
    else
      var last := payloads[|payloads| - 1];
      UnsupportedIds(config, payloads[..|payloads| - 1]) + (if IsUnsupported(config, last) then {last.messageId} else {})
  }

  ghost predicate DistinctIds(ms: seq<Message>) {
    forall i, j :: 0 <= i < j < |ms| ==> ms[i].messageId != ms[j].messageId
  }

  ghost predicate DistinctKeys(groups: seq<Group>) {
    forall i, j :: 0 <= i < j < |groups| ==> groups[i].key != groups[j].key
  }

  /** One group per key that occurs among the accepted messages, holding all of them in order. */
  ghost predicate IsGrouping(config: Config, payloads: seq<Message>, groups: seq<Group>) {
    && DistinctKeys(groups)
    && (forall g :: g in groups ==> g.messages == MessagesOf(config, payloads, g.key))
    && (forall m :: m in payloads && IsAccepted(config, m) ==> exists g :: g in groups && g.key == m.key)
  }

  /** Would the message's job still need a runner, as far as can be told? */
  ghost predicate NeedsRunner(env: Environment, config: Config, m: Message) {
    config.jobQueuedCheck ==> env.queued(m.messageId) == StillQueued || env.queued(m.messageId) == CheckFailed
  }

  ghost function QueuedOf(env: Environment, config: Config, ms: seq<Message>): seq<Message> {
    Filter((m: Message) => NeedsRunner(env, config, m), ms)
  }

  function NewRunners(config: Config, scaleUp: nat, current: nat): nat {
    if config.maximumRunners == -1 then scaleUp else Max(0, Min(scaleUp, config.maximumRunners - current))
  }

  /** A group's turn: how many runners it needs, and the first call made for it. */
  datatype Turn = Turn(scaleUp: nat, from: nat)

  /** A group's turn, and how many of its messages return. */
  datatype Decision = Decision(turn: Turn, returned: nat)

  /** The runners there are, as that call answers; nobody asks when there is no limit. */
  ghost function Current(env: Environment, config: Config, t: Turn): nat {
    if config.maximumRunners == -1 then 0 else env.currentRunners(t.from)
  }

  /** How many runners are requested for the group. */
  ghost function Requested(env: Environment, config: Config, t: Turn): nat {
    NewRunners(config, t.scaleUp, Current(env, config, t))
  }

  ghost function CreateCall(config: Config, t: Turn): nat {
    if config.maximumRunners == -1 then t.from else t.from + 1
  }

  /** What the provider made of the request; one that throws leaves every runner to be retried. */
  ghost function Answered(env: Environment, call: nat, requested: nat): Creation {
    if requested == 0 then Creation(0, 0, 0) else env.create(call, requested).GetOr(Creation(0, requested, 0))
  }

  ghost function CreationOf(env: Environment, config: Config, t: Turn): Creation {
    Answered(env, CreateCall(config, t), Requested(env, config, t))
  }

  /** The call after the last one made for the group. */
  ghost function NextCall(env: Environment, config: Config, t: Turn): nat {
    if t.scaleUp == 0 then t.from
    else CreateCall(config, t) + (if Requested(env, config, t) > 0 then 1 else 0)
  }

  /** The number of messages that return, from what the provider answered. */
  ghost function ReturnedOf(env: Environment, config: Config, t: Turn): int {
    var c := CreationOf(env, config, t);
    if config.ephemeral then t.scaleUp - c.created - c.nonRetryableErrorCount else c.retryableErrorCount
  }

  /** No group takes its owner above the maximum, and runners are withheld only when the maximum is reached. */
  lemma MaximumIsKept(env: Environment, config: Config, t: Turn)
    requires CreationConserves(env)
    ensures var c, current := CreationOf(env, config, t), Current(env, config, t);
            && c.created >= 0 && c.retryableErrorCount >= 0 && c.nonRetryableErrorCount >= 0
            && c.created + c.retryableErrorCount + c.nonRetryableErrorCount == Requested(env, config, t) <= t.scaleUp
            && (config.maximumRunners != -1 ==> current + c.created <= Max(current, config.maximumRunners))
            && (Requested(env, config, t) < t.scaleUp ==>
                  config.maximumRunners != -1 && current + Requested(env, config, t) >= config.maximumRunners)
  {
    var call, n := CreateCall(config, t), Requested(env, config, t);
    if n > 0 && env.create(call, n).Some? {
      var c := env.create(call, n).value;
      assert c.created + c.retryableErrorCount + c.nonRetryableErrorCount == n;
    }
  }

  /**
   The messages skipped for the limit, with ephemeral runners, and those of retryable failures: all that were requested
   if the creation throws.
   */
  lemma ReturnedAddUp(env: Environment, config: Config, t: Turn)
    requires CreationConserves(env)
    ensures 0 <= CreationOf(env, config, t).retryableErrorCount <= Requested(env, config, t) <= t.scaleUp
    ensures ReturnedOf(env, config, t)
            == (if config.ephemeral then t.scaleUp - Requested(env, config, t) else 0) + CreationOf(env, config, t).retryableErrorCount
    ensures Requested(env, config, t) > 0 && env.create(CreateCall(config, t), Requested(env, config, t)) == None ==>
              ReturnedOf(env, config, t) == if config.ephemeral then t.scaleUp else Requested(env, config, t)
  {
    MaximumIsKept(env, config, t);
  }

  lemma ReturnedInParts(env: Environment, config: Config, t: Turn, newRunners: nat)
    requires CreationConserves(env) && t.scaleUp > 0 && newRunners == Requested(env, config, t)
    ensures var retryable := Answered(env, CreateCall(config, t), newRunners).retryableErrorCount;
            && 0 <= retryable <= newRunners <= t.scaleUp
            && ReturnedOf(env, config, t) == (if config.ephemeral then t.scaleUp - newRunners else 0) + retryable
    ensures NextCall(env, config, t) == CreateCall(config, t) + (if newRunners > 0 then 1 else 0)
  {
    ReturnedAddUp(env, config, t);
  }

  /** The ids of the messages that do not return through the batch, in order. */
  ghost function Others(ms: seq<Message>, returned: set<MessageId>): seq<MessageId> {
    if ms == [] then []
    else
      var last := ms[|ms| - 1];
      Others(ms[..|ms| - 1], returned) + (if last.messageId in returned then [] else [last.messageId])
  }

  lemma GroupingStep(config: Config, payloads: seq<Message>, m: Message, key: string)
    ensures MessagesOf(config, payloads + [m], key)
            == MessagesOf(config, payloads, key) + (if IsAccepted(config, m) && m.key == key then [m] else [])
  {
    FilterAppend((m: Message) => IsAccepted(config, m) && m.key == key, payloads, [m]);
  }

  lemma {:induction false} UnsupportedIdsAre(config: Config, payloads: seq<Message>, x: MessageId)
    ensures x in UnsupportedIds(config, payloads)
            <==> config.ephemeral && exists u :: u in payloads && !u.isWorkflowJob && u.messageId == x
  {
    if payloads != [] {
      var k := |payloads| - 1;
      UnsupportedIdsAre(config, payloads[..k], x);
      assert payloads == payloads[..k] + [payloads[k]];
      assert payloads[k] in payloads;
    }
  }

  lemma IdsAppend(a: seq<Message>, b: seq<Message>)
    ensures Ids(a + b) == Ids(a) + Ids(b)
  {
  }

  /** Where the group of `key` is, if there is one: `Map.get`. */
  function Find(groups: seq<Group>, key: string): (i: nat)
    ensures i <= |groups|
    ensures i < |groups| ==> groups[i].key == key
    ensures i == |groups| ==> forall g :: g in groups ==> g.key != key
  {
    if groups == [] then 0
    else if groups[0].key == key then 0
    else 1 + Find(groups[1..], key)
  }

  /** The message joins its group, or opens one at the end. */
  function Joined(groups: seq<Group>, m: Message): seq<Group> {
    var i := Find(groups, m.key);
    if i == |groups| then groups + [Group(m.key, [m])]
    else groups[i := Group(m.key, groups[i].messages + [m])]
  }

  lemma RejectedKeepsGrouping(config: Config, payloads: seq<Message>, groups: seq<Group>, m: Message)
    requires IsGrouping(config, payloads, groups) && !IsAccepted(config, m)
    ensures IsGrouping(config, payloads + [m], groups)
  {
    forall g | g in groups ensures g.messages == MessagesOf(config, payloads + [m], g.key) {
      GroupingStep(config, payloads, m, g.key);
    }
  }

  lemma JoinedHasAllMessages(config: Config, payloads: seq<Message>, groups: seq<Group>, m: Message, g: Group)
    requires IsGrouping(config, payloads, groups) && IsAccepted(config, m) && g in Joined(groups, m)
    ensures g.messages == MessagesOf(config, payloads + [m], g.key)
  {
    GroupingStep(config, payloads, m, g.key);
    var i := Find(groups, m.key);
    if i == |groups| {
      NobodyHasKey(config, payloads, groups, m.key);
    } else {
      assert groups[i] in groups;
    }
  }

  lemma JoinedHasAllKeys(config: Config, payloads: seq<Message>, groups: seq<Group>, m: Message, x: Message)
    requires IsGrouping(config, payloads, groups) && x in payloads + [m] && IsAccepted(config, x)
    ensures exists g :: g in Joined(groups, m) && g.key == x.key
  {
    var i := Find(groups, m.key);
    var now := Joined(groups, m);
    if x.key == m.key {
      assert now[i] in now;
    } else {
      var k :| 0 <= k < |groups| && groups[k].key == x.key;
      assert now[k] == groups[k];
    }
  }

  lemma JoinedIsGrouping(config: Config, payloads: seq<Message>, groups: seq<Group>, m: Message)
    requires IsGrouping(config, payloads, groups) && IsAccepted(config, m)
    ensures IsGrouping(config, payloads + [m], Joined(groups, m))
  {
    var now := Joined(groups, m);
    assert DistinctKeys(now);
    forall g | g in now ensures g.messages == MessagesOf(config, payloads + [m], g.key) {
      JoinedHasAllMessages(config, payloads, groups, m, g);
    }
    forall x | x in payloads + [m] && IsAccepted(config, x) ensures exists g :: g in now && g.key == x.key {
      JoinedHasAllKeys(config, payloads, groups, m, x);
    }
  }

  /** The groups in the order in which their first messages come. */
  ghost function GroupsOf(config: Config, payloads: seq<Message>): seq<Group> {
    if payloads == [] then []
    else
      var k := |payloads| - 1;
      var groups := GroupsOf(config, payloads[..k]);
      if IsAccepted(config, payloads[k]) then Joined(groups, payloads[k]) else groups
  }

  lemma {:induction false} GroupsOfIsGrouping(config: Config, payloads: seq<Message>)
    ensures IsGrouping(config, payloads, GroupsOf(config, payloads))
  {
    if payloads != [] {
      var k := |payloads| - 1;
      var groups := GroupsOf(config, payloads[..k]);
      GroupsOfIsGrouping(config, payloads[..k]);
      assert payloads == payloads[..k] + [payloads[k]];
      if IsAccepted(config, payloads[k]) {
        JoinedIsGrouping(config, payloads[..k], groups, payloads[k]);
      } else {
        RejectedKeepsGrouping(config, payloads[..k], groups, payloads[k]);
      }
    }
  }

  lemma NobodyHasKey(config: Config, payloads: seq<Message>, groups: seq<Group>, key: string)
    requires IsGrouping(config, payloads, groups) && forall g :: g in groups ==> g.key != key
    ensures MessagesOf(config, payloads, key) == []
  {
    assert forall i :: 0 <= i < |payloads| && IsAccepted(config, payloads[i]) ==> payloads[i].key != key by {
      forall i | 0 <= i < |payloads| && IsAccepted(config, payloads[i]) ensures payloads[i].key != key {
        assert payloads[i] in payloads;
      }
    }
    FilterNone((m: Message) => IsAccepted(config, m) && m.key == key, payloads);
  }

  /** The ids of the messages that return, group by group. */
  ghost function Returned(groups: seq<Group>, ds: seq<Decision>): set<MessageId>
    requires |groups| == |ds|
    requires forall j :: 0 <= j < |ds| ==> ds[j].returned <= |groups[j].messages|
  {
    if groups == [] then {}
    else
      var k := |groups| - 1;
      Returned(groups[..k], ds[..k]) + Ids(groups[k].messages[..ds[k].returned])
  }

  ghost function TotalReturned(ds: seq<Decision>): nat {
    if ds == [] then 0 else TotalReturned(ds[..|ds| - 1]) + ds[|ds| - 1].returned
  }

  /** The queued messages that do not return, of the groups that are served at all. */
  ghost function Republished(env: Environment, config: Config, groups: seq<Group>, returned: set<MessageId>): seq<MessageId> {
    if groups == [] then []
    else
      var last := groups[|groups| - 1];
      Republished(env, config, groups[..|groups| - 1], returned)
      + (if env.labelsAreValid(last.key) then Others(QueuedOf(env, config, last.messages), returned) else [])
  }

  /** The first call that comes after all decisions. */
  ghost function CallAfter(env: Environment, config: Config, start: nat, ds: seq<Decision>): nat {
    if ds == [] then start else NextCall(env, config, ds[|ds| - 1].turn)
  }

  /** The decision on a group is what the messages and the answers make of it. */
  ghost predicate Decides(env: Environment, config: Config, g: Group, d: Decision, from: nat) {
    && d.turn == Turn(if env.labelsAreValid(g.key) then |QueuedOf(env, config, g.messages)| else 0, from)
    && d.returned == ReturnedOf(env, config, d.turn)
    && d.returned <= |g.messages|
  }

  /** The groups are decided one after the other, each from its own calls. */
  ghost predicate AllDecide(env: Environment, config: Config, start: nat, groups: seq<Group>, ds: seq<Decision>) {
    && |ds| == |groups|
    && forall j :: 0 <= j < |ds| ==> Decides(env, config, groups[j], ds[j], CallAfter(env, config, start, ds[..j]))
  }

  /**
   The books of a batch after some of its groups: so many messages return as the answers demand, exactly the
   first ones of each group, and exactly the other queued ones are published again.
   */
  ghost predicate Settled(env: Environment, config: Config, start: nat, payloads: seq<Message>, groups: seq<Group>,
                          ds: seq<Decision>, retry: set<MessageId>, published: seq<MessageId>) {
    && AllDecide(env, config, start, groups, ds)
    && RetryIs(config, payloads, groups, ds, retry)
    && published == Republished(env, config, groups, retry)
  }

  /** In a batch of distinct messages an id tells the message. */
  lemma IdTellsMessage(payloads: seq<Message>, a: Message, b: Message)
    requires DistinctIds(payloads) && a in payloads && b in payloads && a.messageId == b.messageId
    ensures a == b
  {
  }

  lemma {:induction false} FilterKeepsIds(p: Message -> bool, ms: seq<Message>)
    requires DistinctIds(ms)
    ensures DistinctIds(Filter(p, ms))
  {
    if ms != [] {
      FilterKeepsIds(p, ms[1..]);
      forall m | m in Filter(p, ms[1..]) ensures m.messageId != ms[0].messageId {
        assert m in ms[1..];
      }
    }
  }

  lemma {:induction false} IdsCount(ms: seq<Message>)
    requires DistinctIds(ms)
    ensures |Ids(ms)| == |ms|
  {
    if ms != [] {
      IdsCount(ms[1..]);
      assert ms == [ms[0]] + ms[1..];
      IdsAppend([ms[0]], ms[1..]);
      assert Ids([ms[0]]) == {ms[0].messageId};
    }
  }

  lemma GroupsShareNoId(config: Config, payloads: seq<Message>, groups: seq<Group>, k: nat, j: nat, m: Message, o: Message)
    requires DistinctIds(payloads) && IsGrouping(config, payloads, groups) && k < |groups| && j < |groups| && j != k
    requires m in groups[k].messages && o in groups[j].messages
    ensures m.messageId != o.messageId
  {
    assert groups[k] in groups && groups[j] in groups;
    assert m in payloads && o in payloads && m.key == groups[k].key && o.key == groups[j].key;
    if m.messageId == o.messageId {
      IdTellsMessage(payloads, m, o);
    }
  }

  lemma AcceptedIsSupported(config: Config, payloads: seq<Message>, m: Message, u: Message)
    requires DistinctIds(payloads) && m in payloads && IsAccepted(config, m)
    requires u in payloads && IsUnsupported(config, u)
    ensures m.messageId != u.messageId
  {
    if m.messageId == u.messageId {
      IdTellsMessage(payloads, m, u);
    }
  }

  /** The messages of a group are apart from the unsupported ones and from every other group. */
  lemma GroupsAreApart(config: Config, payloads: seq<Message>, groups: seq<Group>, k: nat, x: MessageId)
    requires DistinctIds(payloads) && IsGrouping(config, payloads, groups) && k < |groups|
    requires x in Ids(groups[k].messages)
    ensures x !in UnsupportedIds(config, payloads)
    ensures forall j :: 0 <= j < |groups| && j != k ==> x !in Ids(groups[j].messages)
  {
    assert groups[k] in groups;
    var m :| m in groups[k].messages && m.messageId == x;
    assert m in payloads && IsAccepted(config, m);
    UnsupportedIdsAre(config, payloads, x);
    forall u | u in payloads && IsUnsupported(config, u) ensures u.messageId != x {
      AcceptedIsSupported(config, payloads, m, u);
    }
    forall j, o | 0 <= j < |groups| && j != k && o in groups[j].messages ensures o.messageId != x {
      GroupsShareNoId(config, payloads, groups, k, j, m, o);
    }
  }

  lemma {:induction false} OnlyGroupsReturn(groups: seq<Group>, ds: seq<Decision>, x: MessageId)
    requires |groups| == |ds| && forall j :: 0 <= j < |ds| ==> ds[j].returned <= |groups[j].messages|
    requires forall j :: 0 <= j < |groups| ==> x !in Ids(groups[j].messages)
    ensures x !in Returned(groups, ds)
  {
    if groups != [] {
      var k := |groups| - 1;
      OnlyGroupsReturn(groups[..k], ds[..k], x);
      assert x !in Ids(groups[k].messages);
    }
  }

  lemma {:induction false} OthersAgree(ms: seq<Message>, a: set<MessageId>, b: set<MessageId>)
    requires forall m :: m in ms ==> (m.messageId in a <==> m.messageId in b)
    ensures Others(ms, a) == Others(ms, b)
  {
    if ms != [] {
      assert ms[|ms| - 1] in ms;
      OthersAgree(ms[..|ms| - 1], a, b);
    }
  }

  /** Returning messages of a later group does not change what earlier groups published. */
  lemma {:induction false} RepublishedAgrees(env: Environment, config: Config, groups: seq<Group>,
                                             a: set<MessageId>, b: set<MessageId>)
    requires forall j, x :: 0 <= j < |groups| && x in Ids(groups[j].messages) ==> (x in a <==> x in b)
    ensures Republished(env, config, groups, a) == Republished(env, config, groups, b)
  {
    if groups != [] {
      var k := |groups| - 1;
      RepublishedAgrees(env, config, groups[..k], a, b);
      forall m | m in QueuedOf(env, config, groups[k].messages) ensures m.messageId in a <==> m.messageId in b {
        assert m.messageId in Ids(groups[k].messages);
      }
      OthersAgree(QueuedOf(env, config, groups[k].messages), a, b);
    }
  }

  /** Nothing settled so far has to do with the next group. */
  lemma NextGroupIsNew(config: Config, payloads: seq<Message>, groups: seq<Group>, k: nat, ds: seq<Decision>)
    requires DistinctIds(payloads) && IsGrouping(config, payloads, groups) && k < |groups| && |ds| == k
    requires forall j :: 0 <= j < k ==> ds[j].returned <= |groups[j].messages|
    ensures UnsupportedIds(config, payloads) + Returned(groups[..k], ds) !! Ids(groups[k].messages)
  {
    forall x | x in Ids(groups[k].messages) ensures x !in UnsupportedIds(config, payloads) + Returned(groups[..k], ds) {
      GroupsAreApart(config, payloads, groups, k, x);
      OnlyGroupsReturn(groups[..k], ds, x);
    }
  }

  lemma GroupIdsAreDistinct(config: Config, payloads: seq<Message>, groups: seq<Group>, k: nat, n: nat)
    requires DistinctIds(payloads) && IsGrouping(config, payloads, groups) && k < |groups| && n <= |groups[k].messages|
    ensures |Ids(groups[k].messages[..n])| == n && Ids(groups[k].messages[..n]) <= Ids(groups[k].messages)
  {
    assert groups[k] in groups;
    FilterKeepsIds((m: Message) => IsAccepted(config, m) && m.key == groups[k].key, payloads);
    IdsCount(groups[k].messages[..n]);
  }

  /** What a group's turn does to the books. */
  ghost predicate GroupSettles(env: Environment, config: Config, g: Group, d: Decision, from: nat,
                               was: set<MessageId>, now: set<MessageId>, more: seq<MessageId>) {
    && Decides(env, config, g, d, from)
    && now == was + Ids(g.messages[..d.returned])
    && more == (if env.labelsAreValid(g.key) then Others(QueuedOf(env, config, g.messages), now) else [])
  }

  ghost predicate RetryIs(config: Config, payloads: seq<Message>, groups: seq<Group>, ds: seq<Decision>, retry: set<MessageId>) {
    && |ds| == |groups|
    && (forall j :: 0 <= j < |ds| ==> ds[j].returned <= |groups[j].messages|)
    && retry == UnsupportedIds(config, payloads) + Returned(groups, ds)
    && |retry| == |UnsupportedIds(config, payloads)| + TotalReturned(ds)
  }

  lemma DisjointUnionCounts(a: set<MessageId>, b: set<MessageId>, c: set<MessageId>)
    requires a + b !! c
    ensures a + b + c == a + (b + c) && |a + b + c| == |a + b| + |c|
  {
  }

  lemma RetryGrows(config: Config, payloads: seq<Message>, groups: seq<Group>, ds: seq<Decision>, was: set<MessageId>,
                   g: Group, d: Decision)
    requires RetryIs(config, payloads, groups, ds, was) && d.returned <= |g.messages|
    requires was !! Ids(g.messages[..d.returned]) && |Ids(g.messages[..d.returned])| == d.returned
    ensures RetryIs(config, payloads, groups + [g], ds + [d], was + Ids(g.messages[..d.returned]))
  {
    var k := |groups|;
    assert (groups + [g])[..k] == groups && (ds + [d])[..k] == ds;
    DisjointUnionCounts(UnsupportedIds(config, payloads), Returned(groups, ds), Ids(g.messages[..d.returned]));
  }

  lemma PrefixIsNew(config: Config, payloads: seq<Message>, groups: seq<Group>, k: nat, ds: seq<Decision>, n: nat, was: set<MessageId>)
    requires DistinctIds(payloads) && IsGrouping(config, payloads, groups) && k < |groups| && n <= |groups[k].messages|
    requires RetryIs(config, payloads, groups[..k], ds, was)
    ensures was !! Ids(groups[k].messages[..n]) && |Ids(groups[k].messages[..n])| == n
  {
    forall j | 0 <= j < k ensures ds[j].returned <= |groups[j].messages| {
      assert groups[..k][j] == groups[j];
    }
    GroupIdsAreDistinct(config, payloads, groups, k, n);
    NextGroupIsNew(config, payloads, groups, k, ds);
  }

  lemma RepublishedStays(env: Environment, config: Config, payloads: seq<Message>, groups: seq<Group>, k: nat,
                         was: set<MessageId>, n: nat, now: set<MessageId>)
    requires DistinctIds(payloads) && IsGrouping(config, payloads, groups) && k < |groups|
    requires n <= |groups[k].messages| && now == was + Ids(groups[k].messages[..n])
    ensures Republished(env, config, groups[..k], now) == Republished(env, config, groups[..k], was)
  {
    forall j, x | 0 <= j < k && x in Ids(groups[..k][j].messages) ensures x in was <==> x in now {
      GroupsAreApart(config, payloads, groups, j, x);
      assert x !in Ids(groups[k].messages);
    }
    RepublishedAgrees(env, config, groups[..k], was, now);
  }

  lemma AllDecideNext(env: Environment, config: Config, start: nat, groups: seq<Group>, ds: seq<Decision>, g: Group, d: Decision)
    requires AllDecide(env, config, start, groups, ds) && Decides(env, config, g, d, CallAfter(env, config, start, ds))
    ensures AllDecide(env, config, start, groups + [g], ds + [d])
  {
    var all := ds + [d];
    forall j | 0 <= j < |all| ensures Decides(env, config, (groups + [g])[j], all[j], CallAfter(env, config, start, all[..j])) {
      assert all[..j] == if j < |ds| then ds[..j] else ds;
    }
  }

  /** The books stay right when a group is settled that has nothing to do with the ones before. */
  lemma SettledStep(env: Environment, config: Config, start: nat, payloads: seq<Message>, groups: seq<Group>, ds: seq<Decision>,
                    was: set<MessageId>, before: seq<MessageId>,
                    g: Group, d: Decision, now: set<MessageId>, more: seq<MessageId>)
    requires Settled(env, config, start, payloads, groups, ds, was, before)
    requires GroupSettles(env, config, g, d, CallAfter(env, config, start, ds), was, now, more)
    requires was !! Ids(g.messages[..d.returned]) && |Ids(g.messages[..d.returned])| == d.returned
    requires Republished(env, config, groups, now) == before
    ensures Settled(env, config, start, payloads, groups + [g], ds + [d], now, before + more)
  {
    AllDecideNext(env, config, start, groups, ds, g, d);
    RetryGrows(config, payloads, groups, ds, was, g, d);
    assert (groups + [g])[..|groups|] == groups;
  }

  lemma NextSettles(env: Environment, config: Config, start: nat, payloads: seq<Message>, groups: seq<Group>, k: nat,
                    ds: seq<Decision>, was: set<MessageId>, before: seq<MessageId>,
                    d: Decision, now: set<MessageId>, more: seq<MessageId>)
    requires DistinctIds(payloads) && IsGrouping(config, payloads, groups) && k < |groups|
    requires Settled(env, config, start, payloads, groups[..k], ds, was, before)
    requires GroupSettles(env, config, groups[k], d, CallAfter(env, config, start, ds), was, now, more)
    ensures Settled(env, config, start, payloads, groups[..k + 1], ds + [d], now, before + more)
    ensures CallAfter(env, config, start, ds + [d]) == NextCall(env, config, d.turn)
  {
    assert groups[..k + 1] == groups[..k] + [groups[k]];
    PrefixIsNew(config, payloads, groups, k, ds, d.returned, was);
    RepublishedStays(env, config, payloads, groups, k, was, d.returned, now);
    SettledStep(env, config, start, payloads, groups[..k], ds, was, before, groups[k], d, now, more);
  }

  class Batch {
    const env: Environment
    const config: Config
    var step: nat
    var retryMessageIds: set<MessageId>
    var published: seq<MessageId>

    constructor (env: Environment, config: Config)
      ensures this.env == env && this.config == config && retryMessageIds == {} && published == [] && step == 0
    {
      this.env, this.config := env, config;
      step, retryMessageIds, published := 0, {}, [];
    }

    method GroupMessages(payloads: seq<Message>) returns (groups: seq<Group>)
      modifies this`retryMessageIds
      ensures groups == GroupsOf(config, payloads)
      ensures retryMessageIds == old(retryMessageIds) + UnsupportedIds(config, payloads)
    {
      groups := [];
      var k := 0;
      while k < |payloads|
        invariant k <= |payloads|
        invariant groups == GroupsOf(config, payloads[..k])
        invariant retryMessageIds == old(retryMessageIds) + UnsupportedIds(config, payloads[..k])
      {
        var m := payloads[k];
        assert payloads[..k + 1][..k] == payloads[..k];
        if config.ephemeral && !m.isWorkflowJob {
          retryMessageIds := retryMessageIds + {m.messageId};
        } else if m.ownerIsValid {
          groups := Joined(groups, m);
        }
        k := k + 1;
      }
      assert payloads[..k] == payloads;
    }

    method CheckQueued(ms: seq<Message>) returns (scaleUp: nat, queuedMessages: seq<Message>)
      ensures queuedMessages == QueuedOf(env, config, ms) && scaleUp == |queuedMessages|
      ensures !config.jobQueuedCheck ==> queuedMessages == ms
      ensures config.jobQueuedCheck ==> forall m ::
                m in queuedMessages <==> m in ms && (env.queued(m.messageId) == StillQueued || env.queued(m.messageId) == CheckFailed)
    {
      scaleUp, queuedMessages := 0, [];
      var k := 0;
      while k < |ms|
        invariant k <= |ms|
        invariant queuedMessages == QueuedOf(env, config, ms[..k]) && scaleUp == |queuedMessages|
      {
        assert ms[..k + 1] == ms[..k] + [ms[k]];
        FilterAppend((m: Message) => NeedsRunner(env, config, m), ms[..k], [ms[k]]);
        var m := ms[k];
        k := k + 1;
        if config.jobQueuedCheck {
          var jobQueued := true;
          match env.queued(m.messageId) {
            case StillQueued =>
            case NoLongerQueued => jobQueued := false;
            case UnsupportedEvent => continue;
            case CheckFailed =>
          }
          if !jobQueued {
            continue;
          }
        }
        scaleUp := scaleUp + 1;
        queuedMessages := queuedMessages + [m];
      }
      assert ms[..k] == ms;
      if !config.jobQueuedCheck {
        FilterAll((m: Message) => NeedsRunner(env, config, m), ms);
      }
    }

    method ReturnMessages(ms: seq<Message>)
      modifies this`retryMessageIds
      ensures retryMessageIds == old(retryMessageIds) + Ids(ms)
    {
      var k := 0;
      while k < |ms|
        invariant k <= |ms| && retryMessageIds == old(retryMessageIds) + Ids(ms[..k])
      {
        assert ms[..k + 1] == ms[..k] + [ms[k]];
        IdsAppend(ms[..k], [ms[k]]);
        assert Ids([ms[k]]) == {ms[k].messageId};
        retryMessageIds := retryMessageIds + {ms[k].messageId};
        k := k + 1;
      }
      assert ms[..k] == ms;
    }

    method PublishRest(queuedMessages: seq<Message>)
      modifies this`published
      ensures published == old(published) + Others(queuedMessages, retryMessageIds)
    {
      var k := 0;
      while k < |queuedMessages|
        invariant k <= |queuedMessages|
        invariant published == old(published) + Others(queuedMessages[..k], retryMessageIds)
      {
        var m := queuedMessages[k];
        assert queuedMessages[..k + 1][..k] == queuedMessages[..k];
        if m.messageId !in retryMessageIds {
          published := published + [m.messageId];
        }
        k := k + 1;
      }
      assert queuedMessages[..k] == queuedMessages;
    }

    method RequestRunners(newRunners: nat) returns (c: Creation)
      requires newRunners > 0
      modifies this`step
      ensures c == Answered(env, old(step), newRunners) && step == old(step) + 1
    {
      var answer := env.create(step, newRunners);
      step := step + 1;
      match answer
      case Some(value) => c := value;
      case None => c := Creation(0, newRunners, 0);
    }

    /** One group: check, limit, launch, and send every queued message back one way or the other. */
    method ScaleUpGroup(group: Group) returns (ghost d: Decision, ghost more: seq<MessageId>)
      requires CreationConserves(env)
      modifies this
      ensures published == old(published) + more
      ensures GroupSettles(env, config, group, d, old(step), old(retryMessageIds), retryMessageIds, more)
      ensures step == NextCall(env, config, d.turn)
    {
      d, more := Decision(Turn(0, step), 0), [];
      assert Ids(group.messages[..0]) == {};
      if !env.labelsAreValid(group.key) {
        return;
      }
      var scaleUp, queuedMessages := CheckQueued(group.messages);
      if scaleUp == 0 {
        return;
      }
      d := LaunchForGroup(group.messages, queuedMessages);
      more := Others(queuedMessages, retryMessageIds);
    }

    /** How many runners may be added: all that are needed, or what is left below the maximum. */
    method AllowedRunners(scaleUp: nat) returns (newRunners: nat)
      modifies this`step
      ensures newRunners == Requested(env, config, Turn(scaleUp, old(step)))
      ensures step == CreateCall(config, Turn(scaleUp, old(step)))
    {
      var currentRunners := 0;
      if config.maximumRunners != -1 {
        currentRunners := env.currentRunners(step);
        step := step + 1;
      }
      newRunners := NewRunners(config, scaleUp, currentRunners);
    }

    method LaunchForGroup(ms: seq<Message>, queuedMessages: seq<Message>) returns (ghost d: Decision)
      requires CreationConserves(env)
      requires queuedMessages == QueuedOf(env, config, ms) && queuedMessages != []
      modifies this
      ensures d.turn == Turn(|queuedMessages|, old(step))
      ensures d.returned == ReturnedOf(env, config, d.turn) && d.returned <= |ms|
      ensures step == NextCall(env, config, d.turn)
      ensures retryMessageIds == old(retryMessageIds) + Ids(ms[..d.returned])
      ensures published == old(published) + Others(queuedMessages, retryMessageIds)
    {
      var messages := ms;
      var scaleUp := |queuedMessages|;
      ghost var turn := Turn(scaleUp, step);
      var newRunners := AllowedRunners(scaleUp);
      ReturnedInParts(env, config, turn, newRunners);
      var skipped := Max(0, scaleUp - newRunners);
      ghost var before := 0;
      FirstMessages(ms, 0, 0);
      if skipped > 0 {
        if config.ephemeral {
          ReturnMessages(messages[..skipped]);
          messages := messages[skipped..];
          before := skipped;
        }
        if newRunners <= 0 {
          PublishRest(queuedMessages);
          d := Decision(turn, before);
          return;
        }
      }
      var retryable := LaunchRunners(messages, newRunners, queuedMessages);
      FirstMessages(ms, before, retryable);
      d := Decision(turn, before + retryable);
    }

    method LaunchRunners(messages: seq<Message>, newRunners: nat, queuedMessages: seq<Message>) returns (retryable: nat)
      requires 0 < newRunners <= |messages|
      requires 0 <= Answered(env, step, newRunners).retryableErrorCount <= newRunners
      modifies this
      ensures retryable == Answered(env, old(step), newRunners).retryableErrorCount && step == old(step) + 1
      ensures retryMessageIds == old(retryMessageIds) + Ids(messages[..retryable])
      ensures published == old(published) + Others(queuedMessages, retryMessageIds)
    {
      var result := RequestRunners(newRunners);
      retryable := result.retryableErrorCount;
      if retryable > 0 {
        ReturnMessages(messages[..retryable]);
      } else {
        assert Ids(messages[..0]) == {};
      }
      PublishRest(queuedMessages);
    }

    /**
     The whole batch. With distinct ids, the messages that return number exactly the unsupported ones plus,
     group by group, what the provider's answers leave open; every other message of a queued job is published once.
     */
    method ScaleUp(payloads: seq<Message>) returns (groups: seq<Group>, ghost ds: seq<Decision>)
      requires CreationConserves(env) && DistinctIds(payloads)
      requires retryMessageIds == {} && published == []
      modifies this
      ensures groups == GroupsOf(config, payloads) && IsGrouping(config, payloads, groups)
      ensures Settled(env, config, old(step), payloads, groups, ds, retryMessageIds, published)
      ensures step == CallAfter(env, config, old(step), ds)
    {
      groups := GroupMessages(payloads);
      assert retryMessageIds == UnsupportedIds(config, payloads);
      GroupsOfIsGrouping(config, payloads);
      ghost var start := step;
      ds := [];
      NothingIsSettled(env, config, start, payloads, retryMessageIds);
      var k := 0;
      assert groups[..0] == [];
      while k < |groups|
        invariant k <= |groups|
        invariant step == CallAfter(env, config, start, ds)
        invariant Settled(env, config, start, payloads, groups[..k], ds, retryMessageIds, published)
      {
        ds := ScaleUpNext(payloads, groups, k, start, ds);
        k := k + 1;
      }
      assert groups[..k] == groups;
    }

    method ScaleUpNext(payloads: seq<Message>, groups: seq<Group>, k: nat, ghost start: nat, ghost ds: seq<Decision>)
      returns (ghost after: seq<Decision>)
      requires CreationConserves(env) && DistinctIds(payloads) && IsGrouping(config, payloads, groups) && k < |groups|
      requires step == CallAfter(env, config, start, ds)
      requires Settled(env, config, start, payloads, groups[..k], ds, retryMessageIds, published)
      modifies this
      ensures step == CallAfter(env, config, start, after)
      ensures Settled(env, config, start, payloads, groups[..k + 1], after, retryMessageIds, published)
    {
      ghost var was, before := retryMessageIds, published;
      ghost var d, more := ScaleUpGroup(groups[k]);
      NextSettles(env, config, start, payloads, groups, k, ds, was, before, d, retryMessageIds, more);
      after := ds + [d];
    }
  }

  lemma NothingIsSettled(env: Environment, config: Config, start: nat, payloads: seq<Message>, retry: set<MessageId>)
    requires retry == UnsupportedIds(config, payloads)
    ensures Settled(env, config, start, payloads, [], [], retry, [])
  {
    assert retry == UnsupportedIds(config, payloads) + Returned([], []);
  }

  lemma FirstMessages(ms: seq<Message>, skipped: nat, more: nat)
    requires skipped + more <= |ms|
    ensures Ids(ms[..skipped]) + Ids(ms[skipped..][..more]) == Ids(ms[..skipped + more])
    ensures more == 0 ==> Ids(ms[skipped..][..more]) == {}
    ensures ms[0..] == ms && Ids(ms[..0]) == {}
  {
    assert ms[..skipped + more] == ms[..skipped] + ms[skipped..][..more];
    IdsAppend(ms[..skipped], ms[skipped..][..more]);
  }

  lemma {:induction false} OthersAreTheRest(ms: seq<Message>, returned: set<MessageId>, x: MessageId)
    ensures x in Others(ms, returned) <==> x in Ids(ms) && x !in returned
  {
    if ms != [] {
      var k := |ms| - 1;
      OthersAreTheRest(ms[..k], returned, x);
      assert ms == ms[..k] + [ms[k]];
      IdsAppend(ms[..k], [ms[k]]);
      assert Ids([ms[k]]) == {ms[k].messageId};
    }
  }

  lemma {:induction false} RepublishedAreTheRest(
    env: Environment, config: Config, groups: seq<Group>, returned: set<MessageId>, x: MessageId)
    ensures x in Republished(env, config, groups, returned)
            <==> && x !in returned
                 && exists g :: g in groups && env.labelsAreValid(g.key) && x in Ids(QueuedOf(env, config, g.messages))
  {
    if groups != [] {
      var k := |groups| - 1;
      RepublishedAreTheRest(env, config, groups[..k], returned, x);
      OthersAreTheRest(QueuedOf(env, config, groups[k].messages), returned, x);
      assert groups == groups[..k] + [groups[k]];
      assert groups[k] in groups;
    }
  }

  /** No queued message is forgotten or sent back twice over: it returns with the batch or is published, not both. */
  lemma QueuedMessageComesBack(env: Environment, config: Config, payloads: seq<Message>, groups: seq<Group>,
                               retry: set<MessageId>, published: seq<MessageId>, m: Message)
    requires IsGrouping(config, payloads, groups) && published == Republished(env, config, groups, retry)
    requires m in payloads && m.ownerIsValid && (config.ephemeral ==> m.isWorkflowJob) && env.labelsAreValid(m.key)
    requires config.jobQueuedCheck ==> env.queued(m.messageId) in {StillQueued, CheckFailed}
    ensures m.messageId in retry <==> m.messageId !in published
  {
    var g :| g in groups && g.key == m.key;
    assert m in g.messages;
    assert m in QueuedOf(env, config, g.messages);
    RepublishedAreTheRest(env, config, groups, retry, m.messageId);
  }

  /** How many messages stand before the first one whose job needs no runner any more. */
  ghost function WaitingInFront(env: Environment, config: Config, ms: seq<Message>): (n: nat)
    ensures n <= |ms|
    ensures forall j :: 0 <= j < n ==> NeedsRunner(env, config, ms[j])
    ensures n < |ms| ==> !NeedsRunner(env, config, ms[n])
  {
    if ms == [] || !NeedsRunner(env, config, ms[0]) then 0 else 1 + WaitingInFront(env, config, ms[1..])
  }

  /**
   Which messages return is decided by position, not by whether the job still waits. For a group with valid labels,
   they are all waiting if and only if the answers let no more return than wait in front.
   */
  lemma ReturnedAreWaiting(env: Environment, config: Config, g: Group, d: Decision, from: nat)
    requires Decides(env, config, g, d, from)
    ensures (forall j :: 0 <= j < d.returned ==> NeedsRunner(env, config, g.messages[j]))
            <==> ReturnedOf(env, config, d.turn) <= WaitingInFront(env, config, g.messages)
  {
    var n := WaitingInFront(env, config, g.messages);
    if n < d.returned {
      assert !NeedsRunner(env, config, g.messages[n]);
    }
  }

  /** Two messages of one owner: the job of the first is done, that of the second waits, and the limit lets nobody in. */
  function FullHouse(): Environment {
    Environment(id => if id == "done" then NoLongerQueued else StillQueued, k => true, c => 0, (c, n) => None)
  }

  function DoneThenWaiting(): seq<Message> {
    [Message("done", true, true, "owner"), Message("waits", true, true, "owner")]
  }

  const NOBODY_MORE: Config := Config(true, true, 0)

  lemma OnlySecondWaits()
    ensures QueuedOf(FullHouse(), NOBODY_MORE, DoneThenWaiting()) == [DoneThenWaiting()[1]]
    ensures GroupsOf(NOBODY_MORE, DoneThenWaiting()) == [Group("owner", DoneThenWaiting())]
    ensures UnsupportedIds(NOBODY_MORE, DoneThenWaiting()) == {}
  {
    var done, waiting := DoneThenWaiting()[0], DoneThenWaiting()[1];
    assert DoneThenWaiting() == [done] + [waiting];
    FilterAppend((m: Message) => NeedsRunner(FullHouse(), NOBODY_MORE, m), [done], [waiting]);
    assert DoneThenWaiting()[..1] == [done] && [done][..0] == [];
    assert GroupsOf(NOBODY_MORE, [done]) == [Group("owner", [done])];
    assert UnsupportedIds(NOBODY_MORE, [done]) == {};
  }

  /** Whatever satisfies the batch's books on these messages: the finished job's message returns, the waiting one is published. */
  lemma FinishedJobReturns(ds: seq<Decision>, retry: set<MessageId>, published: seq<MessageId>)
    requires Settled(FullHouse(), NOBODY_MORE, 0, DoneThenWaiting(), GroupsOf(NOBODY_MORE, DoneThenWaiting()), ds, retry, published)
    ensures retry == {"done"} && published == ["waits"]
    ensures !NeedsRunner(FullHouse(), NOBODY_MORE, DoneThenWaiting()[0])
  {
    OnlySecondWaits();
    var g, waiting := Group("owner", DoneThenWaiting()), DoneThenWaiting()[1];
    assert Decides(FullHouse(), NOBODY_MORE, g, ds[0], CallAfter(FullHouse(), NOBODY_MORE, 0, ds[..0]));
    assert ds[0].returned == 1;
    assert ds[..0] == [] && [g][..0] == [];
    assert Returned([], []) == {};
    assert DoneThenWaiting()[..1] == [DoneThenWaiting()[0]] && Ids([DoneThenWaiting()[0]]) == {"done"};
    assert retry == {"done"};
    assert Republished(FullHouse(), NOBODY_MORE, [], retry) == [];
    assert [waiting][..0] == [] && Others([], retry) == [];
    assert Others([waiting], retry) == ["waits"];
  }

  /** The same as a run of the batch. */
  method RunFullHouse() returns (b: Batch)
    ensures b.retryMessageIds == {"done"} && b.published == ["waits"]
  {
    b := new Batch(FullHouse(), NOBODY_MORE);
    ghost var ds;
    var groups;
    groups, ds := b.ScaleUp(DoneThenWaiting());
    FinishedJobReturns(ds, b.retryMessageIds, b.published);
  }
}
