/**
 Removing idle runners over many scale-down sweeps. GitHub's busy flag can be stale, so with a
 confirmation window a runner goes only after reading idle across the whole window. The memory
 between sweeps is a marker on the instance saying since when it reads idle.
 */
module IdleConfirmation {
  import opened Prelude

  type RunnerId = string

  const MINIMUM_TIME_LEFT_MS: int := 10000

  /** The marker as the next listing shows it; `Unreadable` is text that is no date. */
  datatype Marker = Unmarked | Unreadable | At(time: int)

  datatype Reading = Busy | Idle | Unanswered

  datatype Runner = Runner(id: RunnerId, owner: string, bypassRemoval: bool)

  datatype Registration = Registration(reading: Reading, deregisters: bool)

  datatype Listing = ListingFails | Registered(registrations: seq<Registration>)

  /** What the outside world answers while one runner is evaluated; `timeLeft` by the number of the question. */
  datatype Answers = Answers(
    timeLeft: nat -> int,
    hasClient: bool,
    listing: Listing,
    minimumTimeExceeded: bool,
    now: int,
    markedAt: int,
    tagIsWritten: bool,
    identityIsKept: bool,
    terminates: bool)

  datatype Removal = CutShort | Unidentified | StillRegistered | TerminationFailed | Terminated

  /** What one evaluation learned and did. */
  datatype Event =
    | Unread
    | KeptIdle
    | ReadBusy
    | Waiting
    | Marked(at: int)
    | Confirmed(now: int, removal: Removal)

  predicate EnoughTime(a: Answers, question: nat) {
    a.timeLeft(question) >= MINIMUM_TIME_LEFT_MS
  }

  ghost predicate AllIdle(rs: seq<Registration>) {
    forall i :: 0 <= i < |rs| ==> rs[i].reading == Idle
  }

  ghost predicate AllAnswered(rs: seq<Registration>) {
    forall i :: 0 <= i < |rs| ==> rs[i].reading != Unanswered
  }

  ghost predicate AnyBusy(rs: seq<Registration>) {
    exists i :: 0 <= i < |rs| && rs[i].reading == Busy
  }

  ghost predicate AllDeregister(rs: seq<Registration>) {
    forall i :: 0 <= i < |rs| ==> rs[i].deregisters
  }

  /** At least `window` seconds lie between the marker and now. */
  predicate LongEnough(window: real, marker: int, now: int) {
    (now - marker) as real / 1000.0 >= window
  }

  function Cleared(marker: Marker, a: Answers): Marker {
    if a.tagIsWritten then Unmarked else marker
  }

  ghost function RemovalOf(a: Answers, rs: seq<Registration>): Removal {
    if !EnoughTime(a, 5) then CutShort
    else if !a.identityIsKept then Unidentified
    else if !EnoughTime(a, 6) || !EnoughTime(a, 7) then CutShort
    else if !AllDeregister(rs) then StillRegistered
    else if a.terminates then Terminated else TerminationFailed
  }

  /** Trying to remove one runner: the marker afterwards, and what happened. */
  ghost function Attempt(window: real, marker: Marker, a: Answers, rs: seq<Registration>): (Marker, Event) {
    if !EnoughTime(a, 2) || !a.hasClient || !EnoughTime(a, 3) then (marker, Unread)
    else if !AllAnswered(rs) || !EnoughTime(a, 4) then (marker, if AnyBusy(rs) then ReadBusy else Unread)
    else if AllIdle(rs) then
      if window > 0.0 && !marker.At? then
        if a.tagIsWritten then (At(a.markedAt), Marked(a.markedAt)) else (marker, Waiting)
      else if window > 0.0 && !LongEnough(window, marker.time, a.now) then (marker, Waiting)
      else (marker, Confirmed(a.now, RemovalOf(a, rs)))
    else (if window > 0.0 && marker != Unmarked then Cleared(marker, a) else marker, ReadBusy)
  }

  /** Evaluating one runner of a sweep with an idle quota: the marker afterwards, and what happened. */
  ghost function Evaluation(window: real, marker: Marker, r: Runner, a: Answers, quota: int): (Marker, Event) {
    if !IsEvaluated(r, a) then (marker, Unread)
    else if quota > 0 then (if window > 0.0 && marker != Unmarked then Cleared(marker, a) else marker, KeptIdle)
    else Attempt(window, marker, a, a.listing.registrations)
  }

  ghost predicate IsEvaluated(r: Runner, a: Answers) {
    !r.bypassRemoval && a.listing.Registered? && a.listing.registrations != [] && a.minimumTimeExceeded
  }

  /** One evaluation: who, the answers, the quota left, the marker before and after, and what happened. */
  datatype Evaluated = Evaluated(r: Runner, a: Answers, quota: int, before: Marker, after: Marker, e: Event) {
    /** The quota keeps the runner. */
    ghost predicate KeepsIdle() {
      IsEvaluated(r, a) && quota > 0
    }

    /** The busy state of the registrations is asked for. */
    ghost predicate Reads() {
      IsEvaluated(r, a) && quota <= 0 && EnoughTime(a, 2) && a.hasClient && EnoughTime(a, 3)
    }

    ghost predicate ReadsIdle() {
      Reads() && AllIdle(a.listing.registrations)
    }

    ghost predicate ReadsBusy() {
      Reads() && AnyBusy(a.listing.registrations)
    }

    /** The runner is seen to be in use, or it is kept. */
    ghost predicate InUse() {
      KeepsIdle() || ReadsBusy()
    }

    /** Nothing keeps the evaluation from taking the marker away: all answer, the time suffices, the tag is written. */
    ghost predicate MayClear() {
      a.tagIsWritten && (KeepsIdle() || (Reads() && AllAnswered(a.listing.registrations) && EnoughTime(a, 4)))
    }
  }

  /** The outcome is what the answers make of the marker. */
  ghost predicate Follows(window: real, v: Evaluated) {
    (v.after, v.e) == Evaluation(window, v.before, v.r, v.a, v.quota)
  }

  /** Each evaluation follows from its answers and starts from the marker the one before left. */
  ghost predicate IsHistory(window: real, h: seq<Evaluated>) {
    && (forall j :: 0 <= j < |h| ==> Follows(window, h[j]))
    && (h != [] ==> !h[0].before.At?)
    && (forall j :: 1 <= j < |h| ==> h[j].before == h[j - 1].after)
  }

  /** An evaluation that sees the runner in use takes the marker away, if nothing keeps it from doing so. */
  lemma UseClears(window: real, v: Evaluated)
    requires window > 0.0 && Follows(window, v)
    requires v.InUse() && v.MayClear()
    ensures !v.after.At?
  {
    if v.ReadsBusy() {
      assert !AllIdle(v.a.listing.registrations);
    }
  }

  /** A marker is set, and a runner is confirmed, only on reading all its registrations idle. */
  lemma OnlyIdleCounts(window: real, v: Evaluated)
    requires Follows(window, v)
    ensures v.e.Marked? || v.e.Confirmed? ==> v.ReadsIdle() && !v.InUse()
    ensures window > 0.0 && v.e.Confirmed? ==> v.before.At? && (v.e.now - v.before.time) as real >= 1000.0 * window
    ensures v.after.At? ==> v.after == v.before || v.e == Marked(v.after.time)
  {
  }

  /** The marker goes back to the evaluation that set it, and has stood ever since. */
  ghost predicate Since(h: seq<Evaluated>, i: int, n: int, m: int) {
    && 0 <= i < n <= |h| && h[i].e == Marked(m)
    && forall j :: i < j < n ==> h[j].before == At(m) && h[j].after == At(m)
  }

  lemma {:induction false} MarkerHasOrigin(window: real, h: seq<Evaluated>, n: nat) returns (i: int)
    requires IsHistory(window, h) && 0 < n <= |h| && h[n - 1].after.At?
    ensures Since(h, i, n, h[n - 1].after.time)
  {
    var v := h[n - 1];
    OnlyIdleCounts(window, v);
    if v.e == Marked(v.after.time) {
      i := n - 1;
    } else {
      assert n > 1;
      i := MarkerHasOrigin(window, h, n - 1);
    }
  }

  /**
   The promise, and when it is kept. A confirmed runner read idle now and at least `window` earlier, when its marker
   was set. It was not in use in between if and only if every evaluation in between that saw it in use could clear the
   marker: every registration answered, enough time was left, and the tag was written.
   */
  lemma IdleThroughout(window: real, h: seq<Evaluated>, k: nat) returns (i: int, m: int)
    requires window > 0.0 && IsHistory(window, h) && k < |h| && h[k].e.Confirmed?
    ensures 0 <= i < k && h[i].e == Marked(m) && h[i].ReadsIdle() && h[k].ReadsIdle()
    ensures (h[k].e.now - m) as real >= 1000.0 * window && h[k].e.now == h[k].a.now && m == h[i].a.markedAt
    ensures (forall j :: i < j < k ==> !h[j].InUse()) <==> (forall j :: i < j < k && h[j].InUse() ==> h[j].MayClear())
  {
    OnlyIdleCounts(window, h[k]);
    m := h[k].before.time;
    i := MarkerHasOrigin(window, h, k);
    OnlyIdleCounts(window, h[i]);
    forall j | i < j < k && h[j].InUse() ensures !h[j].MayClear() {
      if h[j].MayClear() {
        UseClears(window, h[j]);
      }
    }
  }

  /** Whenever nothing keeps the evaluations from clearing, over a whole run, nobody is confirmed who was in use within the window. */
  lemma ConfirmedWereIdle(window: real, h: seq<Evaluated>, k: nat)
    requires window > 0.0 && IsHistory(window, h) && k < |h| && h[k].e.Confirmed?
    requires forall j :: 0 <= j < k && h[j].InUse() ==> h[j].MayClear()
    ensures exists i, m :: 0 <= i < k && h[i].e == Marked(m) && h[i].ReadsIdle()
                           && (h[k].e.now - m) as real >= 1000.0 * window
                           && forall j :: i < j <= k ==> !h[j].InUse()
  {
    var i, m := IdleThroughout(window, h, k);
    OnlyIdleCounts(window, h[k]);
    assert forall j :: i < j < k && h[j].InUse() ==> h[j].MayClear();
    assert forall j :: i < j <= k ==> !h[j].InUse();
  }

  /** There was time left for each of these questions. */
  ghost predicate TimeFor(a: Answers, first: nat, last: nat) {
    forall q: nat :: first <= q <= last ==> a.timeLeft(q) >= 10000
  }

  /** The evaluation asks for the state of every registration of the runner. */
  ghost predicate AsksFor(v: Evaluated) {
    && !v.r.bypassRemoval && v.a.listing.Registered? && |v.a.listing.registrations| > 0 && v.a.minimumTimeExceeded
    && v.quota <= 0 && v.a.hasClient && TimeFor(v.a, 2, 3)
  }

  /**
   When a runner is confirmed: exactly when every registration was asked for and read idle, in time, and either no window
   is wanted or the marker is at least that many seconds old.
   */
  lemma ConfirmedExactly(window: real, v: Evaluated)
    requires Follows(window, v)
    ensures v.e.Confirmed? <==>
              && AsksFor(v) && v.a.timeLeft(4) >= 10000
              && (forall i :: 0 <= i < |v.a.listing.registrations| ==> v.a.listing.registrations[i].reading == Idle)
              && (window <= 0.0 || (v.before.At? && (v.a.now - v.before.time) as real >= 1000.0 * window))
    ensures v.e.Confirmed? ==> v.e.now == v.a.now && v.after == v.before
  {
  }

  /** A confirmed runner is terminated exactly when there is time, it is identified, and every registration was removed. */
  lemma TerminatedExactly(window: real, v: Evaluated)
    requires Follows(window, v) && v.e.Confirmed?
    ensures v.e.removal in {Terminated, TerminationFailed} <==>
              && TimeFor(v.a, 5, 7) && v.a.identityIsKept
              && forall i :: 0 <= i < |v.a.listing.registrations| ==> v.a.listing.registrations[i].deregisters
    ensures v.e.removal == Terminated ==> v.a.terminates
    ensures v.e.removal == TerminationFailed ==> !v.a.terminates
  {
  }

  /** A marker is set exactly when there is none that can be read, all read idle, and the tag is written. */
  lemma MarkedExactly(window: real, v: Evaluated)
    requires Follows(window, v) && window > 0.0
    ensures v.e.Marked? <==>
              && AsksFor(v) && v.a.timeLeft(4) >= 10000 && !v.before.At? && v.a.tagIsWritten
              && forall i :: 0 <= i < |v.a.listing.registrations| ==> v.a.listing.registrations[i].reading == Idle
    ensures v.e.Marked? ==> v.after == At(v.a.markedAt) && v.e.at == v.a.markedAt
  {
  }

  /**
   The marker is taken away exactly when there is one, the tag is written, and either the quota keeps the runner or every
   registration answered in time and one of them read busy.
   */
  lemma ClearedExactly(window: real, v: Evaluated)
    requires Follows(window, v) && window > 0.0
    ensures v.before != Unmarked && v.after == Unmarked <==>
              && v.before != Unmarked && v.a.tagIsWritten
              && !v.r.bypassRemoval && v.a.listing.Registered? && |v.a.listing.registrations| > 0 && v.a.minimumTimeExceeded
              && (v.quota > 0
                  || (&& v.a.hasClient && TimeFor(v.a, 2, 4)
                      && (forall i :: 0 <= i < |v.a.listing.registrations| ==> v.a.listing.registrations[i].reading != Unanswered)
                      && exists i :: 0 <= i < |v.a.listing.registrations| && v.a.listing.registrations[i].reading == Busy))
    ensures v.after != v.before ==> v.after == Unmarked || v.e == Marked(v.a.markedAt)
  {
    var rs := if v.a.listing.Registered? then v.a.listing.registrations else [];
    if AllAnswered(rs) && !AllIdle(rs) {
      var i :| 0 <= i < |rs| && rs[i].reading != Idle;
      assert rs[i].reading == Busy;
    }
  }

  /** Nobody is terminated whose registrations did not all read idle and were not all removed. */
  lemma TerminatedMeansDeregistered(window: real, v: Evaluated)
    requires Follows(window, v) && v.e.Confirmed? && v.e.removal == Terminated
    ensures v.a.listing.Registered? && v.a.identityIsKept
    ensures forall i :: 0 <= i < |v.a.listing.registrations| ==>
              v.a.listing.registrations[i].reading == Idle && v.a.listing.registrations[i].deregisters
  {
    ConfirmedExactly(window, v);
    TerminatedExactly(window, v);
  }

  ghost function AnsweredAt(now: int, timeLeftAfterReading: int, reading: Reading): Answers {
    Answers(question => if question == 4 then timeLeftAfterReading else 60000,
            true, Registered([Registration(reading, true)]), true, now, now, true, true, true)
  }

  /** Read idle at 0, busy at 60 s just before the deadline, idle at 120 s. */
  ghost function LateBusyHistory(): seq<Evaluated> {
    var r := Runner("i", "owner", false);
    [Evaluated(r, AnsweredAt(0, 60000, Idle), 0, Unmarked, At(0), Marked(0)),
     Evaluated(r, AnsweredAt(60000, 5000, Busy), 0, At(0), At(0), ReadBusy),
     Evaluated(r, AnsweredAt(120000, 60000, Idle), 0, At(0), At(0), Confirmed(120000, Terminated))]
  }

  /** With a window of 100 s the runner is terminated, although it read busy 60 s before. */
  lemma LateBusyReadingIsForgotten()
    ensures IsHistory(100.0, LateBusyHistory())
    ensures LateBusyHistory()[1].ReadsBusy() && !LateBusyHistory()[1].MayClear()
    ensures LateBusyHistory()[2].e == Confirmed(120000, Terminated)
  {
    var h := LateBusyHistory();
    assert h[1].a.listing.registrations[0].reading == Busy;
    assert LongEnough(100.0, 0, 120000);
    forall j | 0 <= j < |h| ensures Follows(100.0, h[j]) {
      assert j == 0 || j == 1 || j == 2;
    }
  }

  ghost predicate LooksForRemoval(e: Event) {
    !e.KeptIdle? && e != Unread
  }

  /** The two points at which a whole sweep stops: before a runner, and after it was listed. */
  predicate OutOfTime(r: Runner, a: Answers) {
    !EnoughTime(a, 0) || (!r.bypassRemoval && a.listing.Registered? && !EnoughTime(a, 1))
  }

  /** Ten seconds are left before the runner is looked up, and again when it is listed and may be removed at all. */
  ghost predicate StillInTime(r: Runner, a: Answers) {
    a.timeLeft(0) >= 10000 && (a.listing != ListingFails && !r.bypassRemoval ==> a.timeLeft(1) >= 10000)
  }

  ghost predicate AllInTime(log: seq<Evaluated>) {
    forall k :: 0 <= k < |log| ==> StillInTime(log[k].r, log[k].a)
  }

  /** What is left of the quota after an evaluation. */
  ghost function Left(v: Evaluated): int {
    if v.e.KeptIdle? then v.quota - 1 else v.quota
  }

  ghost function LeftAfter(log: seq<Evaluated>, quota: int): int {
    if log == [] then quota else Left(log[|log| - 1])
  }

  ghost function RecordsOf(log: seq<Evaluated>, id: RunnerId): seq<Evaluated> {
    if log == [] then []
    else RecordsOf(log[..|log| - 1], id) + (if log[|log| - 1].r.id == id then [log[|log| - 1]] else [])
  }

  /** Every runner in turn, from its answers, with the quota the one before has left. */
  ghost predicate SweepLog(window: real, runners: seq<Runner>, answers: nat -> Answers, log: seq<Evaluated>, quota: int) {
    && |log| <= |runners|
    && (forall k :: 0 <= k < |log| ==> log[k].r == runners[k] && log[k].a == answers(k) && Follows(window, log[k]))
    && (log != [] ==> log[0].quota == quota)
    && (forall k :: 1 <= k < |log| ==> log[k].quota == Left(log[k - 1]))
  }

  lemma SweepLogGrows(window: real, runners: seq<Runner>, answers: nat -> Answers, log: seq<Evaluated>, quota: int, v: Evaluated)
    requires SweepLog(window, runners, answers, log, quota) && |log| < |runners| && Follows(window, v)
    requires v.r == runners[|log|] && v.a == answers(|log|) && v.quota == LeftAfter(log, quota)
    ensures SweepLog(window, runners, answers, log + [v], quota)
  {
  }

  lemma RecordsGrow(log: seq<Evaluated>, v: Evaluated, id: RunnerId)
    ensures RecordsOf(log + [v], id) == RecordsOf(log, id) + (if v.r.id == id then [v] else [])
  {
    assert (log + [v])[..|log|] == log;
  }

  ghost function HistoryIn(histories: map<RunnerId, seq<Evaluated>>, id: RunnerId): seq<Evaluated> {
    if id in histories then histories[id] else []
  }

  /** Every runner's history has grown by exactly its records in the log. */
  ghost predicate Recorded(was: map<RunnerId, seq<Evaluated>>, log: seq<Evaluated>, now: map<RunnerId, seq<Evaluated>>) {
    forall id :: HistoryIn(now, id) == HistoryIn(was, id) + RecordsOf(log, id)
  }

  lemma RecordedGrows(was: map<RunnerId, seq<Evaluated>>, log: seq<Evaluated>, mid: map<RunnerId, seq<Evaluated>>,
                      v: Evaluated, now: map<RunnerId, seq<Evaluated>>)
    requires Recorded(was, log, mid)
    requires now == mid[v.r.id := HistoryIn(mid, v.r.id) + [v]]
    ensures Recorded(was, log + [v], now)
  {
    forall id ensures HistoryIn(now, id) == HistoryIn(was, id) + RecordsOf(log + [v], id) {
      assert HistoryIn(now, id) == HistoryIn(mid, id) + (if v.r.id == id then [v] else []);
      HistoryGrows(HistoryIn(was, id), log, v, id);
    }
  }

  lemma HistoryGrows(was: seq<Evaluated>, log: seq<Evaluated>, v: Evaluated, id: RunnerId)
    ensures was + RecordsOf(log, id) + (if v.r.id == id then [v] else []) == was + RecordsOf(log + [v], id)
  {
    RecordsGrow(log, v, id);
  }

  /** How many runners a sweep keeps idle. */
  ghost function Kept(log: seq<Evaluated>): nat {
    if log == [] then 0 else Kept(log[..|log| - 1]) + (if log[|log| - 1].e.KeptIdle? then 1 else 0)
  }

  /** The quota goes down by the runners kept, and no further than to nothing. */
  lemma {:induction false} QuotaIsSpent(window: real, runners: seq<Runner>, answers: nat -> Answers, log: seq<Evaluated>, quota: int)
    requires SweepLog(window, runners, answers, log, quota)
    ensures LeftAfter(log, quota) == quota - Kept(log) && LeftAfter(log, quota) >= Min(quota, 0)
  {
    if log != [] {
      var init, last := log[..|log| - 1], log[|log| - 1];
      QuotaIsSpent(window, runners, answers, init, quota);
      QuotaComesFirst(window, last);
    }
  }

  /** Nobody is kept without quota, and nobody is looked at for removal while it lasts. */
  lemma QuotaComesFirst(window: real, v: Evaluated)
    requires Follows(window, v)
    ensures v.e.KeptIdle? ==> v.quota > 0
    ensures LooksForRemoval(v.e) ==> v.quota <= 0 && IsEvaluated(v.r, v.a)
    ensures IsEvaluated(v.r, v.a) && v.quota > 0 ==> v.e.KeptIdle?
  {
  }

  class Sweeps {
    const window: real
    var markers: map<RunnerId, Marker>
    ghost var histories: map<RunnerId, seq<Evaluated>>

    function MarkerOf(id: RunnerId): Marker
      reads this
    {
      if id in markers then markers[id] else Unmarked
    }

    ghost function HistoryOf(id: RunnerId): seq<Evaluated>
      reads this
    {
      HistoryIn(histories, id)
    }

    ghost predicate Sound(id: RunnerId)
      reads this
    {
      var h := HistoryOf(id);
      && IsHistory(window, h)
      && (if h == [] then !MarkerOf(id).At? else MarkerOf(id) == h[|h| - 1].after)
    }

    /** In every run so far, every runner's marker is what its evaluations made of it. */
    ghost predicate Valid()
      reads this
    {
      forall id :: Sound(id)
    }

    constructor (window: real, unreadable: set<RunnerId>)
      ensures this.window == window && Valid() && forall id :: HistoryOf(id) == []
    {
      this.window := window;
      markers := map id | id in unreadable :: Unreadable;
      histories := map[];
    }

    method Record(ghost v: Evaluated, id: RunnerId, after: Marker)
      requires Valid() && v.r.id == id && v.before == MarkerOf(id) && v.after == after
      requires Follows(window, v)
      modifies this`markers, this`histories
      ensures Valid() && markers == old(markers)[id := after]
      ensures histories == old(histories)[id := old(HistoryOf(id)) + [v]]
    {
      assert Sound(id);
      ghost var h := HistoryOf(id) + [v];
      markers := markers[id := after];
      histories := histories[id := h];
      forall x ensures Sound(x) {
        assert x != id ==> old(Sound(x)) && MarkerOf(x) == old(MarkerOf(x)) && HistoryOf(x) == old(HistoryOf(x));
      }
    }

    method IdleConfirmed(marker: Marker, a: Answers) returns (confirmed: bool, after: Marker)
      ensures confirmed <==> window <= 0.0 || (marker.At? && LongEnough(window, marker.time, a.now))
      ensures after == if window > 0.0 && !marker.At? && a.tagIsWritten then At(a.markedAt) else marker
    {
      if window <= 0.0 {
        return true, marker;
      }
      if !marker.At? {
        return false, if a.tagIsWritten then At(a.markedAt) else marker;
      }
      return LongEnough(window, marker.time, a.now), marker;
    }

    method RemoveRunner(r: Runner, a: Answers, rs: seq<Registration>) returns (after: Marker, e: Event)
      ensures (after, e) == Attempt(window, MarkerOf(r.id), a, rs)
      ensures e.Confirmed? <==>
                && a.hasClient && TimeFor(a, 2, 4) && (forall i :: 0 <= i < |rs| ==> rs[i].reading == Idle)
                && (window <= 0.0 || (MarkerOf(r.id).At? && (a.now - MarkerOf(r.id).time) as real >= 1000.0 * window))
      ensures e.Confirmed? && e.removal in {Terminated, TerminationFailed} <==>
                e.Confirmed? && TimeFor(a, 5, 7) && a.identityIsKept && forall i :: 0 <= i < |rs| ==> rs[i].deregisters
    {
      after, e := MarkerOf(r.id), Unread;
      if !EnoughTime(a, 2) || !a.hasClient || !EnoughTime(a, 3) {
        return;
      }
      var answered, busy := ReadStates(rs);
      if !answered || !EnoughTime(a, 4) {
        e := if busy then ReadBusy else Unread;
        return;
      }
      if !busy {
        var confirmed;
        confirmed, after := IdleConfirmed(after, a);
        if !confirmed {
          e := if after == MarkerOf(r.id) then Waiting else Marked(a.markedAt);
          return;
        }
        var removal := Deregister(a, rs);
        e := Confirmed(a.now, removal);
      } else {
        if window > 0.0 && after != Unmarked {
          after := Cleared(after, a);
        }
        e := ReadBusy;
      }
    }

    method ReadStates(rs: seq<Registration>) returns (answered: bool, busy: bool)
      ensures answered <==> AllAnswered(rs)
      ensures busy <==> AnyBusy(rs)
    {
      answered, busy := true, false;
      for k := 0 to |rs|
        invariant answered <==> forall i :: 0 <= i < k ==> rs[i].reading != Unanswered
        invariant busy <==> exists i :: 0 <= i < k && rs[i].reading == Busy
      {
        answered := answered && rs[k].reading != Unanswered;
        busy := busy || rs[k].reading == Busy;
      }
    }

    /** De-registers at GitHub, and terminates only when every registration is gone. */
    method Deregister(a: Answers, rs: seq<Registration>) returns (removal: Removal)
      ensures removal == RemovalOf(a, rs)
      ensures removal == Terminated ==> AllDeregister(rs)
    {
      if !EnoughTime(a, 5) {
        return CutShort;
      }
      if !a.identityIsKept {
        return Unidentified;
      }
      if !EnoughTime(a, 6) {
        return CutShort;
      }
      var allSucceeded := true;
      for k := 0 to |rs|
        invariant allSucceeded <==> forall i :: 0 <= i < k ==> rs[i].deregisters
      {
        allSucceeded := allSucceeded && rs[k].deregisters;
      }
      if !EnoughTime(a, 7) {
        return CutShort;
      }
      if !allSucceeded {
        return StillRegistered;
      }
      return if a.terminates then Terminated else TerminationFailed;
    }

    /** One runner of a sweep: keep it idle while the quota lasts, otherwise look at it for removal. */
    method Evaluate(r: Runner, a: Answers, idleRemaining: int) returns (left: int, ghost v: Evaluated)
      requires Valid()
      modifies this`markers, this`histories
      ensures Valid() && v.r == r && v.a == a && v.quota == idleRemaining && v.before == old(MarkerOf(r.id))
      ensures Follows(window, v)
      ensures left == (if v.e.KeptIdle? then idleRemaining - 1 else idleRemaining)
      ensures markers == old(markers)[r.id := v.after]
      ensures histories == old(histories)[r.id := old(HistoryOf(r.id)) + [v]]
    {
      left := idleRemaining;
      var marker := MarkerOf(r.id);
      var after, e := marker, Unread;
      if !r.bypassRemoval && a.listing.Registered? && a.listing.registrations != [] && a.minimumTimeExceeded {
        if idleRemaining > 0 {
          left := idleRemaining - 1;
          if window > 0.0 && marker != Unmarked {
            after := Cleared(marker, a);
          }
          e := KeptIdle;
        } else {
          after, e := RemoveRunner(r, a, a.listing.registrations);
        }
      }
      v := Evaluated(r, a, idleRemaining, marker, after, e);
      Record(v, r.id, after);
    }

    /** One sweep over the runners of all owners, in the order given; it may stop early for lack of time. */
    method EvaluateAndRemoveRunners(runners: seq<Runner>, answers: nat -> Answers, idleRemaining: int)
      returns (left: int, ghost log: seq<Evaluated>)
      requires Valid()
      modifies this`markers, this`histories
      ensures Valid() && SweepLog(window, runners, answers, log, idleRemaining) && left == LeftAfter(log, idleRemaining)
      ensures Recorded(old(histories), log, histories)
      ensures AllInTime(log) && (|log| < |runners| ==> !StillInTime(runners[|log|], answers(|log|)))
    {
      left, log := idleRemaining, [];
      ghost var was := histories;
      var k := 0;
      while k < |runners|
        invariant k <= |runners| && Valid() && |log| == k
        invariant SweepLog(window, runners, answers, log, idleRemaining) && left == LeftAfter(log, idleRemaining)
        invariant Recorded(was, log, histories) && AllInTime(log)
      {
        var a := answers(k);
        if OutOfTime(runners[k], a) {
          return;
        }
        ghost var v;
        left, v := EvaluateNext(runners[k], a, left, was, log);
        SweepLogGrows(window, runners, answers, log, idleRemaining, v);
        log := log + [v];
        k := k + 1;
      }
    }

    method EvaluateNext(r: Runner, a: Answers, idleRemaining: int, ghost was: map<RunnerId, seq<Evaluated>>, ghost log: seq<Evaluated>)
      returns (left: int, ghost v: Evaluated)
      requires Valid() && Recorded(was, log, histories)
      modifies this`markers, this`histories
      ensures Valid() && v.r == r && v.a == a && v.quota == idleRemaining && left == Left(v) && Follows(window, v)
      ensures Recorded(was, log + [v], histories)
    {
      ghost var mid := histories;
      left, v := Evaluate(r, a, idleRemaining);
      RecordedGrows(was, log, mid, v, histories);
    }
  }
}
