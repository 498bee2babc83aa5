/**
 Scanning the pages of a runner group in rotation: discovery starts anywhere and comes round to every
 page, confirmation goes through the remaining pages before it gives a candidate up.
 */
module RegistrationJanitor {
  import opened Prelude

  const MINIMUM_TIME_LEFT_MS: int := 10000
  const CONFIRMATION_MS: int := 900 * 1000
  const CANDIDATE_LIFETIME_MS: int := 24 * 60 * 60 * 1000
  const PAGE_SIZE: nat := 100

  /** What looking at one listed registration comes to. */
  datatype Verdict = OfNoInterest | HasResource | Stale | CannotTell

  /** A page as GitHub answers it; the total is absent when it is no count. */
  datatype Page = Page(total: Option<nat>, verdicts: seq<Verdict>, memberIds: seq<int>)

  /** The answers, by the number of the call (`page` also by group and page). A page that cannot be read has no answer. */
  datatype Environment = Environment(
    page: (nat, int, nat) -> Option<Page>,
    hasClient: nat -> bool,
    budget: int,
    duration: nat -> nat,
    random: (nat, nat) -> nat,
    maxCandidates: nat)

  /** The time left before that call: every call takes some. */
  function TimeLeft(env: Environment, call: nat): int {
    if call == 0 then env.budget else TimeLeft(env, call - 1) - 1 - env.duration(call - 1)
  }

  /** Each call takes a millisecond more than the answer says, and what is left only falls. */
  lemma TimeIsSpent(env: Environment, call: nat)
    ensures TimeLeft(env, 0) == env.budget && TimeLeft(env, call + 1) + env.duration(call) + 1 == TimeLeft(env, call)
  {
  }

  lemma TimePasses(env: Environment, call: nat, later: nat)
    requires call < later
    ensures TimeLeft(env, later) < TimeLeft(env, call)
  {
  }

  function PagesFor(total: nat): (count: nat)
    ensures count >= 1 && count * 100 >= total
    ensures count > 1 ==> (count - 1) * 100 < total
  {
    Max(1, (total + PAGE_SIZE - 1) / PAGE_SIZE)
  }

  /** A random page among the first `count`; a group is drawn the same way. */
  function RandomPage(env: Environment, call: nat, count: nat): (page: nat)
    requires count >= 1
    ensures 1 <= page <= count
    ensures env.random(call, count) < count ==> page == env.random(call, count) + 1
  {
    1 + env.random(call, count) % count
  }

  /** The page after `n` steps of the rotation through 1 to `count` that starts at `start`. */
  ghost function PageAt(count: nat, start: nat, n: nat): nat
    requires 1 <= start <= count && n <= count
  {
    if start + n <= count then start + n else start + n - count
  }

  ghost function Rotation(count: nat, start: nat, n: nat): (pages: seq<nat>)
    requires 1 <= start <= count && n <= count
    ensures |pages| == n && forall k :: 0 <= k < n ==> pages[k] == PageAt(count, start, k)
  {
    seq(n, k requires 0 <= k < n => PageAt(count, start, k))
  }

  /** The rotation comes to every page once. */
  lemma RotationVisitsAll(count: nat, start: nat)
    requires 1 <= start <= count
    ensures Distinct(Rotation(count, start, count))
    ensures forall p :: p in Rotation(count, start, count) <==> 1 <= p <= count
  {
    var pages := Rotation(count, start, count);
    forall p | 1 <= p <= count ensures p in pages {
      var k := if p >= start then p - start else p + count - start;
      assert pages[k] == p;
    }
  }

  lemma NextPage(count: nat, start: nat, n: nat)
    requires 1 <= start <= count && n < count
    ensures PageAt(count, start, n) % count + 1 == PageAt(count, start, n + 1)
    ensures 1 <= PageAt(count, start, n) <= count
    ensures PageAt(count, start, n) !in Rotation(count, start, n)
    ensures Rotation(count, start, n + 1) == Rotation(count, start, n) + [PageAt(count, start, n)]
  {
    if PageAt(count, start, n) < count {
      assert PageAt(count, start, n) % count == PageAt(count, start, n);
    }
  }

  lemma AppendNew<T>(s: seq<T>, x: T)
    requires Distinct(s) && x !in s
    ensures Distinct(s + [x])
  {
  }

  ghost function StaleAmong(verdicts: seq<Verdict>): nat {
    if verdicts == [] then 0
    else StaleAmong(verdicts[..|verdicts| - 1]) + (if verdicts[|verdicts| - 1].Stale? then 1 else 0)
  }

  // ---------------------------------------------------------------- what scanning a group comes to

  /** One visit to a page: whether it was asked for, what was read, and the number of the call after the reading. */
  datatype Look = Look(page: nat, asked: bool, read: Option<Page>, next: nat)

  /** The visit that begins with that call: a client, then page 1 from memory if it is kept there, or a request. */
  ghost function LookAt(env: Environment, group: int, first: Option<Page>, page: nat, call: nat, clientIsReady: bool): (l: Look)
    ensures l.page == page && call <= l.next <= call + 2 && (!clientIsReady ==> call < l.next)
    ensures l.read.Some? ==> (l.asked <==> !(page == 1 && first.Some?))
    ensures l.asked ==> l.next > call && l.read == env.page(l.next - 1, group, page) && !(page == 1 && first.Some?)
  {
    if !clientIsReady && !env.hasClient(call) then Look(page, false, None, call + 1)
    else
      var now := if clientIsReady then call else call + 1;
      if page == 1 && first.Some? then Look(page, false, first, now)
      else Look(page, true, env.page(now, group, page), now + 1)
  }

  /** The number of the call after the visit: each registration on the page takes one. */
  ghost function After(l: Look): nat {
    l.next + (if l.read.Some? then |l.read.value.verdicts| else 0)
  }

  /** The last call of each visit, and so every one before it, began with ten seconds left. */
  ghost predicate AllInTime(env: Environment, looks: seq<Look>) {
    forall k :: 0 <= k < |looks| ==> After(looks[k]) > 0 && TimeLeft(env, After(looks[k]) - 1) >= 10000
  }

  /** Fewer registrations than fit on a page: it is the last one. */
  ghost predicate IsShort(l: Look) {
    l.read.Some? && |l.read.value.verdicts| < 100
  }

  /** The scan of one group from call `from` on: the answers decide where every visit goes and what it reads. */
  datatype Scan = Scan(env: Environment, group: int, from: nat) {
    /** Page 1, if the very first request brings it and it tells the number of registrations. */
    ghost function First(): (first: Option<Page>)
      ensures first.Some? ==> first.value.total.Some? && env.page(from + 1, group, 1) == first
    {
      var answer := env.page(from + 1, group, 1);
      if env.hasClient(from) && answer.Some? && answer.value.total.Some? then answer else None
    }

    /** The number of pages, as page 1 tells it. */
    ghost function Count(): (count: Option<nat>)
      ensures count.Some? <==> First().Some?
      ensures count.Some? ==> count.value == PagesFor(First().value.total.value) >= 1
    {
      if First().Some? then Some(PagesFor(First().value.total.value)) else None
    }

    ghost predicate InRange(n: nat) {
      Count().Some? ==> n <= Count().value
    }

    /** Where the rotation starts. */
    ghost function Start(): (start: nat)
      requires Count().Some?
      ensures 1 <= start <= Count().value
    {
      RandomPage(env, from + 2, Count().value)
    }

    /** The page that visit `k` is for: straight on, or in rotation once the number of pages is known. */
    ghost function PageDue(k: nat): nat
      requires InRange(k)
    {
      if Count().None? then k + 1 else PageAt(Count().value, Start(), k)
    }

    /** The call with which the visit after these begins. */
    ghost function NextCall(looks: seq<Look>): nat {
      if |looks| == 0 then (if Count().Some? then from + 2 else from) else After(looks[|looks| - 1])
    }

    /** Visit `k`, if it begins with that call; the first one of a rotation from page 1 needs no client of its own. */
    ghost function LookNo(k: nat, call: nat): (l: Look)
      requires InRange(k + 1)
      ensures l.page == PageDue(k)
    {
      LookAt(env, group, First(), PageDue(k), call, k == 0 && Count().Some? && Start() == 1)
    }

    /** The visit after these. */
    ghost function NextLook(looks: seq<Look>): Look
      requires InRange(|looks| + 1)
    {
      LookNo(|looks|, NextCall(looks))
    }

    /** These are the first visits: each begins where the one before ended, and is as the answers have it. */
    ghost predicate Begins(looks: seq<Look>) {
      InRange(|looks|) && forall k :: 0 <= k < |looks| ==> looks[k] == LookNo(k, NextCall(looks[..k]))
    }
  }

  /** How many of the last visits failed. */
  ghost function FailedInARow(looks: seq<Look>): nat {
    if looks == [] || looks[|looks| - 1].read.Some? then 0 else 1 + FailedInARow(looks[..|looks| - 1])
  }

  /** The scan is over: three visits in a row failed, the rotation has come round, or an uncounted page is short. */
  ghost predicate IsOver(count: Option<nat>, looks: seq<Look>) {
    || FailedInARow(looks) >= 3
    || (if count.Some? then |looks| == count.value else looks != [] && IsShort(looks[|looks| - 1]))
  }

  ghost predicate NotOverBefore(count: Option<nat>, looks: seq<Look>) {
    forall n :: 0 <= n < |looks| ==> !IsOver(count, looks[..n])
  }

  /** The stale registrations on the pages read. */
  ghost function StaleIn(looks: seq<Look>): nat {
    if looks == [] then 0
    else
      var read := looks[|looks| - 1].read;
      StaleIn(looks[..|looks| - 1]) + (if read.Some? then StaleAmong(read.value.verdicts) else 0)
  }

  /** The pages visited, in order. */
  ghost function Visited(looks: seq<Look>): (pages: seq<nat>)
    ensures |pages| == |looks| && forall k :: 0 <= k < |looks| ==> pages[k] == looks[k].page
  {
    seq(|looks|, k requires 0 <= k < |looks| => looks[k].page)
  }

  /** Those of them that were asked for. */
  ghost function AskedPages(looks: seq<Look>): seq<nat> {
    if looks == [] then []
    else AskedPages(looks[..|looks| - 1]) + (if looks[|looks| - 1].asked then [looks[|looks| - 1].page] else [])
  }

  /** All pages requested, in order: page 1 before a rotation, and those the visits ask for. */
  ghost function Requested(counted: bool, looks: seq<Look>): seq<nat> {
    (if counted then [1] else []) + AskedPages(looks)
  }

  lemma {:induction false} AskedPagesAre(looks: seq<Look>, p: nat)
    ensures p in AskedPages(looks) <==> exists k :: 0 <= k < |looks| && looks[k].asked && looks[k].page == p
  {
    if looks != [] {
      AskedPagesAre(looks[..|looks| - 1], p);
    }
  }

  /** No page is requested twice, however the visits end, if none is visited twice and a rotation does not ask for page 1. */
  lemma {:induction false} NoPageIsRequestedTwice(counted: bool, looks: seq<Look>)
    requires Distinct(Visited(looks)) && (counted ==> forall k :: 0 <= k < |looks| && looks[k].asked ==> looks[k].page != 1)
    ensures Distinct(Requested(counted, looks))
  {
    if looks != [] {
      var n := |looks| - 1;
      var init, l := looks[..n], looks[n];
      forall i, j | 0 <= i < j < n ensures Visited(init)[i] != Visited(init)[j] {
        assert Visited(looks)[i] != Visited(looks)[j];
      }
      NoPageIsRequestedTwice(counted, init);
      AskedPagesAre(init, l.page);
      forall k | 0 <= k < n ensures init[k].page != l.page {
        assert Visited(looks)[k] != Visited(looks)[n];
      }
      if l.asked {
        assert l.page !in Requested(counted, init);
        AppendNew(Requested(counted, init), l.page);
        assert Requested(counted, looks) == Requested(counted, init) + [l.page];
      } else {
        assert Requested(counted, looks) == Requested(counted, init);
      }
    }
  }

  /** If page 1 is the only one not asked for, there are as many requests as pages. */
  lemma AsManyRequestsAsPages(looks: seq<Look>)
    requires forall p :: p in Visited(looks) <==> 1 <= p <= |looks|
    requires Distinct(Visited(looks)) && forall k :: 0 <= k < |looks| ==> (looks[k].asked <==> looks[k].page != 1)
    requires looks != []
    ensures |Requested(true, looks)| == |looks|
  {
    var requested := Requested(true, looks);
    NoPageIsRequestedTwice(true, looks);
    forall p: nat ensures p in requested <==> p in UpTo(|looks|) {
      RequestedOnce(looks, p);
    }
    DistinctCounts(requested, UpTo(|looks|));
  }

  lemma RequestedOnce(looks: seq<Look>, p: nat)
    requires p in Visited(looks) <==> 1 <= p <= |looks|
    requires looks != [] && forall k :: 0 <= k < |looks| ==> (looks[k].asked <==> looks[k].page != 1)
    ensures p in Requested(true, looks) <==> 1 <= p <= |looks|
  {
    AskedPagesAre(looks, p);
    if p in Visited(looks) {
      var k :| 0 <= k < |looks| && Visited(looks)[k] == p;
      assert looks[k].page == p;
    } else {
      forall k | 0 <= k < |looks| ensures looks[k].page != p {
        assert Visited(looks)[k] != p;
      }
    }
  }

  ghost function UpTo(count: nat): (r: set<nat>)
    ensures |r| == count && forall p: nat :: p in r <==> 1 <= p <= count
  {
    if count == 0 then {} else UpTo(count - 1) + {count}
  }

  /** The pages visited are those of the rotation, or the first ones in order. */
  lemma VisitsInTurn(s: Scan, looks: seq<Look>)
    requires s.Begins(looks)
    ensures s.Count().Some? ==> Visited(looks) == Rotation(s.Count().value, s.Start(), |looks|)
    ensures s.Count().None? ==> forall k :: 0 <= k < |looks| ==> looks[k].page == k + 1
    ensures Distinct(Visited(looks))
  {
    forall k: nat | k < |looks| ensures looks[k].page == s.PageDue(k) {
      assert looks[k] == s.LookNo(k, s.NextCall(looks[..k]));
    }
    if s.Count().Some? {
      RotationVisitsAll(s.Count().value, s.Start());
      assert Visited(looks) == Rotation(s.Count().value, s.Start(), s.Count().value)[..|looks|];
    }
  }

  /** No page is requested twice in a scan, not even in the visit in which it is stopped. */
  lemma RequestsAreDistinct(s: Scan, looks: seq<Look>)
    requires s.Begins(looks)
    ensures Distinct(Requested(s.Count().Some?, looks))
    ensures s.InRange(|looks| + 1) ==> Distinct(Requested(s.Count().Some?, looks + [s.NextLook(looks)]))
  {
    AsksInTurn(s, looks);
    if s.InRange(|looks| + 1) {
      BeginsOn(s, looks);
      AsksInTurn(s, looks + [s.NextLook(looks)]);
    }
  }

  lemma AsksInTurn(s: Scan, looks: seq<Look>)
    requires s.Begins(looks)
    ensures Distinct(Requested(s.Count().Some?, looks))
  {
    VisitsInTurn(s, looks);
    forall k: nat | k < |looks| && looks[k].asked && s.Count().Some? ensures looks[k].page != 1 {
      assert looks[k] == s.LookNo(k, s.NextCall(looks[..k]));
    }
    NoPageIsRequestedTwice(s.Count().Some?, looks);
  }

  lemma BeginsOn(s: Scan, looks: seq<Look>)
    requires s.Begins(looks) && s.InRange(|looks| + 1)
    ensures s.Begins(looks + [s.NextLook(looks)])
  {
    var more := looks + [s.NextLook(looks)];
    assert more[..|looks|] == looks;
    forall k | 0 <= k < |more| ensures more[k] == s.LookNo(k, s.NextCall(more[..k])) {
      if k < |looks| {
        assert more[..k] == looks[..k] && looks[k] == s.LookNo(k, s.NextCall(looks[..k]));
      }
    }
  }

  /** These are all the visits of a scan that was not stopped. */
  ghost predicate IsScanned(s: Scan, looks: seq<Look>) {
    s.Begins(looks) && IsOver(s.Count(), looks) && NotOverBefore(s.Count(), looks)
  }

  ghost predicate AllRead(looks: seq<Look>) {
    forall k :: 0 <= k < |looks| ==> looks[k].read.Some?
  }

  /**
   What a scan that was not stopped has covered, unless three visits in a row failed. If page 1 told the number of pages:
   every page once, with as many requests as pages if no visit failed.
   */
  lemma RotationCovers(s: Scan, looks: seq<Look>)
    requires IsScanned(s, looks) && FailedInARow(looks) < 3 && s.Count().Some?
    ensures |looks| == s.Count().value && Distinct(Visited(looks)) && Distinct(Requested(true, looks))
    ensures forall p :: p in Visited(looks) <==> 1 <= p <= s.Count().value
    ensures AllRead(looks) ==> |Requested(true, looks)| == s.Count().value
  {
    var n := |looks|;
    VisitsInTurn(s, looks);
    RequestsAreDistinct(s, looks);
    RotationVisitsAll(n, s.Start());
    if AllRead(looks) {
      forall k: nat | k < n ensures looks[k].asked <==> looks[k].page != 1 {
        assert looks[k] == s.LookNo(k, s.NextCall(looks[..k]));
      }
      AsManyRequestsAsPages(looks);
    }
  }

  /** Otherwise: the pages from 1 on, in order, up to the first short one. */
  lemma StraightScanCovers(s: Scan, looks: seq<Look>)
    requires IsScanned(s, looks) && FailedInARow(looks) < 3 && s.Count().None?
    ensures looks != [] && (looks[0].read.Some? ==> looks[0].read.value.total.None?)
    ensures forall k :: 0 <= k < |looks| ==> looks[k].page == k + 1 && (IsShort(looks[k]) <==> k == |looks| - 1)
    ensures AllRead(looks) ==> |Requested(false, looks)| == |looks|
  {
    var n := |looks|;
    VisitsInTurn(s, looks);
    NoTotalTold(s, looks);
    forall k: nat | k < n ensures looks[k].page == k + 1 && (IsShort(looks[k]) <==> k == n - 1) {
      OnlyLastIsShort(looks, k);
    }
    if AllRead(looks) {
      forall k: nat | k < n ensures looks[k].asked {
        assert looks[k] == s.LookNo(k, s.NextCall(looks[..k]));
      }
      AllAsked(looks);
    }
  }

  lemma NoTotalTold(s: Scan, looks: seq<Look>)
    requires s.Begins(looks) && looks != [] && s.Count().None?
    ensures looks[0].read.Some? ==> looks[0].read.value.total.None?
  {
    assert looks[0] == s.LookNo(0, s.NextCall(looks[..0]));
    assert looks[0] == LookAt(s.env, s.group, None, 1, s.from, false);
  }

  lemma OnlyLastIsShort(looks: seq<Look>, k: nat)
    requires IsOver(None, looks) && NotOverBefore(None, looks) && FailedInARow(looks) < 3 && k < |looks|
    ensures IsShort(looks[k]) <==> k == |looks| - 1
  {
    if k < |looks| - 1 {
      var upTo := looks[..k + 1];
      assert upTo[|upTo| - 1] == looks[k];
      assert !IsOver(None, upTo);
    }
  }

  lemma {:induction false} AllAsked(looks: seq<Look>)
    requires forall k :: 0 <= k < |looks| ==> looks[k].asked
    ensures |AskedPages(looks)| == |looks|
  {
    if looks != [] {
      AllAsked(looks[..|looks| - 1]);
    }
  }

  /** How one visit to a page ends. */
  datatype Visit = Stopped | Failed | Read(page: Page)

  ghost function EndOf(l: Look): Visit {
    if l.read.Some? then Read(l.read.value) else Failed
  }

  /** Where the loop stands before visit `n`. */
  datatype Position = Position(page: nat, pageCount: Option<nat>, pagesRemaining: nat, firstPage: Option<Page>)

  /** Before any visit nothing is known; afterwards what page 1 told, and the page that is due. */
  ghost predicate Stands(s: Scan, looks: seq<Look>, at: Position, step: nat) {
    if |looks| == 0 then at == Position(1, None, 0, None) && step == s.from
    else Knows(s, |looks|, at) && step == s.NextCall(looks)
  }

  ghost predicate Knows(s: Scan, n: nat, at: Position) {
    && s.InRange(n) && at.page == s.PageDue(n) && at.pageCount == s.Count() && at.firstPage == s.First()
    && (at.pageCount.Some? ==> at.pagesRemaining == at.pageCount.value - n)
  }

  /** The loop's increment. */
  function Next(at: Position): Position {
    at.(page := if at.pageCount.Some? && at.pageCount.value > 0 then at.page % at.pageCount.value + 1 else at.page + 1,
        pagesRemaining := if at.pagesRemaining > 0 then at.pagesRemaining - 1 else 0)
  }

  lemma NextKnows(s: Scan, n: nat, at: Position)
    requires Knows(s, n, at) && s.InRange(n + 1)
    ensures Knows(s, n + 1, Next(at))
  {
    if s.Count().Some? {
      NextPage(s.Count().value, s.Start(), n);
    }
  }

  /** The visits so far, with the scan not over before any of them. */
  ghost predicate Underway(s: Scan, looks: seq<Look>, failures: nat) {
    s.Begins(looks) && NotOverBefore(s.Count(), looks) && failures == FailedInARow(looks)
  }

  lemma VisitsTakeTime(s: Scan, looks: seq<Look>, at: Position, step: nat)
    requires Stands(s, looks, at, step) && s.InRange(|looks| + 1)
    ensures step < After(s.NextLook(looks))
  {
    assert s.NextCall(looks) < s.NextLook(looks).next || (|looks| == 0 && s.from + 2 <= s.NextLook(looks).next);
  }

  /** Between two visits; the loop ends when the scan is over or the rotation has come round. */
  ghost predicate Between(s: Scan, looks: seq<Look>, at: Position, failures: nat, over: bool, step: nat) {
    && Stands(s, looks, at, step) && Underway(s, looks, failures)
    && (IsOver(s.Count(), looks) <==> over || (at.pageCount.Some? && at.pagesRemaining == 0))
  }

  /** A visit finds out the number of pages, uses up one of them, or takes time that was left. */
  ghost predicate Closer(env: Environment, at: Position, step: nat, next: Position, later: nat) {
    if at.pageCount.Some? then next.pageCount.Some? && next.pagesRemaining < at.pagesRemaining
    else next.pageCount.Some? || Max(TimeLeft(env, later), 0) < Max(TimeLeft(env, step), 0)
  }

  lemma OneMoreVisit(count: Option<nat>, looks: seq<Look>, l: Look)
    requires NotOverBefore(count, looks) && !IsOver(count, looks)
    ensures NotOverBefore(count, looks + [l])
    ensures IsOver(count, looks + [l]) <==>
              || (l.read.None? && FailedInARow(looks) + 1 >= 3)
              || (if count.Some? then |looks| + 1 == count.value else IsShort(l))
  {
    AppendLook(looks, l);
    var more := looks + [l];
    forall n | 0 <= n < |more| ensures !IsOver(count, more[..n]) {
      assert more[..n] == looks[..n];
      assert looks[..|looks|] == looks;
    }
  }

  function InARow(failures: nat, v: Visit): nat {
    if v.Failed? then failures + 1 else 0
  }

  /** The two breaks of the loop: three failures in a row, and a short page of an uncounted group. */
  predicate EndsScan(failures: nat, v: Visit, next: Position) {
    InARow(failures, v) >= 3 || (v.Read? && next.pageCount.None? && |v.page.verdicts| < PAGE_SIZE)
  }

  lemma VisitCounts(s: Scan, looks: seq<Look>, at: Position, failures: nat, step: nat, v: Visit, next: Position)
    requires Between(s, looks, at, failures, false, step) && (at.pageCount.None? || at.pagesRemaining > 0)
    requires s.InRange(|looks| + 1) && v == EndOf(s.NextLook(looks)) && Knows(s, |looks| + 1, next)
    ensures var l := s.NextLook(looks);
            && Between(s, looks + [l], next, InARow(failures, v), EndsScan(failures, v, next), After(l))
            && StaleIn(looks + [l]) == StaleIn(looks) + (if v.Read? then StaleAmong(v.page.verdicts) else 0)
  {
    BeginsOn(s, looks);
    AppendLook(looks, s.NextLook(looks));
    OneMoreVisit(s.Count(), looks, s.NextLook(looks));
  }

  lemma AppendLook(looks: seq<Look>, l: Look)
    ensures FailedInARow(looks + [l]) == if l.read.Some? then 0 else FailedInARow(looks) + 1
    ensures StaleIn(looks + [l]) == StaleIn(looks) + (if l.read.Some? then StaleAmong(l.read.value.verdicts) else 0)
  {
    assert (looks + [l])[..|looks|] == looks;
  }

  lemma OneMoreInTime(s: Scan, looks: seq<Look>, step: nat)
    requires AllInTime(s.env, looks) && s.InRange(|looks| + 1)
    requires step == After(s.NextLook(looks)) && step > 0 && TimeLeft(s.env, step - 1) >= 10000
    ensures AllInTime(s.env, looks + [s.NextLook(looks)])
  {
  }

  lemma VisitComesCloser(s: Scan, looks: seq<Look>, at: Position, step: nat, next: Position, later: nat)
    requires Stands(s, looks, at, step) && (at.pageCount.None? || at.pagesRemaining > 0)
    requires s.InRange(|looks| + 1) && Knows(s, |looks| + 1, next) && TimeLeft(s.env, step) > 0
    requires later == After(s.NextLook(looks)) && later > 0 && TimeLeft(s.env, later - 1) >= 10000 && AllInTime(s.env, looks)
    ensures step <= later && Closer(s.env, at, step, next, later)
    ensures AllInTime(s.env, looks + [s.NextLook(looks)])
  {
    VisitsTakeTime(s, looks, at, step);
    TimePasses(s.env, step, later);
    OneMoreInTime(s, looks, later);
  }

  /** As long as the loop goes on there is a page to visit. */
  lemma StillInRange(s: Scan, looks: seq<Look>, at: Position, step: nat)
    requires Stands(s, looks, at, step) && (at.pageCount.None? || at.pagesRemaining > 0)
    ensures s.InRange(|looks| + 1)
  {
  }

  lemma NothingYet(s: Scan)
    ensures Underway(s, [], 0) && !IsOver(s.Count(), [])
  {
  }

  /** The scan of a group, its visits, and the call after the last one. */
  datatype GroupScan = GroupScan(scan: Scan, looks: seq<Look>, end: nat)

  /** The groups scanned one after the other, from call `from` on. */
  ghost predicate InTurn(isTurn: (int, GroupScan) -> bool, order: seq<int>, scans: seq<GroupScan>, from: nat) {
    && |scans| <= |order|
    && (forall k :: 0 <= k < |scans| ==> isTurn(order[k], scans[k]))
    && (forall k :: 0 <= k < |scans| ==> scans[k].scan.from == EndOfTurns(scans[..k], from))
  }

  /** The call after the last of these scans. */
  ghost function EndOfTurns(scans: seq<GroupScan>, from: nat): nat {
    if |scans| == 0 then from else scans[|scans| - 1].end
  }

  ghost function TurnOf(env: Environment): (int, GroupScan) -> bool {
    (group, g) => IsTurn(env, group, g)
  }

  /** The group was scanned as the answers from that call on demand, and with time left for every call. */
  ghost predicate IsTurn(env: Environment, group: int, g: GroupScan) {
    && g.scan.env == env && g.scan.group == group
    && IsScanned(g.scan, g.looks) && g.end == g.scan.NextCall(g.looks) && AllInTime(env, g.looks)
  }

  lemma NextTurn(isTurn: (int, GroupScan) -> bool, order: seq<int>, scans: seq<GroupScan>, from: nat, g: GroupScan)
    requires InTurn(isTurn, order, scans, from) && |scans| < |order|
    requires isTurn(order[|scans|], g) && g.scan.from == EndOfTurns(scans, from)
    ensures InTurn(isTurn, order, scans + [g], from)
    ensures StaleInAll(scans + [g]) == StaleInAll(scans) + StaleIn(g.looks)
  {
    var more := scans + [g];
    assert more[..|scans|] == scans;
    forall k | 0 <= k < |more| ensures isTurn(order[k], more[k]) && more[k].scan.from == EndOfTurns(more[..k], from) {
      if k < |scans| {
        assert more[..k] == scans[..k] && more[k] == scans[k];
      }
    }
  }

  ghost function StaleInAll(scans: seq<GroupScan>): nat {
    if scans == [] then 0 else StaleInAll(scans[..|scans| - 1]) + StaleIn(scans[|scans| - 1].looks)
  }

  class Discovery {
    const env: Environment
    var step: nat
    var candidates: nat

    constructor (env: Environment)
      ensures this.env == env && step == 0 && candidates == 0
    {
      this.env := env;
      step, candidates := 0, 0;
    }

    /** Time is running out, or there are candidates enough. */
    predicate AtLimit()
      reads this
    {
      TimeLeft(env, step) < MINIMUM_TIME_LEFT_MS || candidates >= env.maxCandidates
    }

    /** The same, told by the time and the number. */
    ghost predicate MustStop()
      reads this
    {
      TimeLeft(env, step) < 10000 || candidates >= env.maxCandidates
    }

    method RequestPage(group: int, page: nat) returns (answer: Option<Page>)
      modifies this`step
      ensures step == old(step) + 1 && answer == env.page(old(step), group, page)
    {
      answer := env.page(step, group, page);
      step := step + 1;
    }

    method GetClient() returns (ok: bool)
      modifies this`step
      ensures step == old(step) + 1 && ok == env.hasClient(old(step))
    {
      ok := env.hasClient(step);
      step := step + 1;
    }

    /** A visit in the course of the scan, with page 1 from memory if it is kept there. */
    method ReadPage(group: int, page: nat, firstPage: Option<Page>) returns (v: Visit)
      modifies this`step
      ensures var l := LookAt(env, group, firstPage, page, old(step), false);
              if v.Stopped? then MustStop() && old(step) <= step <= l.next else v == EndOf(l) && step == l.next
      ensures !v.Stopped? && TimeLeft(env, old(step)) >= 10000 ==> TimeLeft(env, step - 1) >= 10000
    {
      var ok := GetClient();
      if !ok {
        return Failed;
      }
      if AtLimit() {
        return Stopped;
      }
      if page == 1 && firstPage.Some? {
        return Read(firstPage.value);
      }
      var answer := RequestPage(group, page);
      v := if answer.Some? then Read(answer.value) else Failed;
    }

    /** The first visit: page 1 may tell how many pages there are, and then it goes to a random one of them. */
    method ReadFirst(group: int) returns (v: Visit, at: Position)
      modifies this`step
      ensures var s := Scan(env, group, old(step));
              if v.Stopped? then MustStop() && old(step) <= step <= s.NextLook([]).next
              else Knows(s, 0, at) && v == EndOf(s.NextLook([])) && step == s.NextLook([]).next
      ensures old(step) <= step && (!v.Stopped? && TimeLeft(env, old(step)) >= 10000 ==> step > 0 && TimeLeft(env, step - 1) >= 10000)
    {
      ghost var s := Scan(env, group, step);
      at := Position(1, None, 0, None);
      var ok := GetClient();
      if !ok {
        return Failed, at;
      }
      if AtLimit() {
        return Stopped, at;
      }
      var answer := RequestPage(group, 1);
      if answer.None? {
        return Failed, at;
      }
      v := Read(answer.value);
      if answer.value.total.Some? {
        var pageCount := PagesFor(answer.value.total.value);
        at := Position(RandomPage(env, step, pageCount), Some(pageCount), pageCount, answer);
        if at.page != 1 {
          if AtLimit() {
            return Stopped, at;
          }
          v := ReadPage(group, at.page, answer);
        }
      }
    }

    /** Looks at the registrations of a page, until there are candidates enough or the time runs out. */
    method ScanRunners(verdicts: seq<Verdict>) returns (stopped: bool)
      modifies this`step, this`candidates
      ensures if stopped then MustStop() && step <= old(step) + |verdicts| else step == old(step) + |verdicts|
      ensures old(step) <= step && old(candidates) <= candidates <= Max(old(candidates), env.maxCandidates)
      ensures !stopped ==> candidates == old(candidates) + StaleAmong(verdicts)
      ensures !stopped && verdicts != [] ==> TimeLeft(env, step - 1) >= 10000
    {
      var k := 0;
      while k < |verdicts|
        invariant k <= |verdicts| && step == old(step) + k
        invariant old(candidates) <= candidates <= Max(old(candidates), env.maxCandidates)
        invariant candidates == old(candidates) + StaleAmong(verdicts[..k])
        invariant k > 0 ==> TimeLeft(env, step - 1) >= 10000
      {
        if AtLimit() {
          return true;
        }
        assert verdicts[..k + 1][..k] == verdicts[..k];
        if verdicts[k].Stale? {
          candidates := candidates + 1;
        }
        step := step + 1;
        k := k + 1;
      }
      assert verdicts[..k] == verdicts;
      return false;
    }

    /** The next visit up to the reading of the page that is due. */
    method ReadDue(group: int, at: Position, ghost s: Scan, ghost looks: seq<Look>) returns (v: Visit, next: Position)
      requires s.env == env && s.group == group && Stands(s, looks, at, step) && s.InRange(|looks| + 1)
      modifies this`step
      ensures v.Stopped? ==> MustStop() && old(step) <= step <= s.NextLook(looks).next
      ensures !v.Stopped? ==>
                && v == EndOf(s.NextLook(looks)) && step == s.NextLook(looks).next && Knows(s, |looks| + 1, next)
                && TimeLeft(env, old(step)) >= 10000 && step > 0 && TimeLeft(env, step - 1) >= 10000
    {
      if AtLimit() {
        return Stopped, at;
      }
      next := at;
      if at.page == 1 && at.firstPage.None? {
        v, next := ReadFirst(group);
      } else {
        v := ReadPage(group, at.page, at.firstPage);
      }
      if !v.Stopped? {
        NextKnows(s, |looks|, next);
        next := Next(next);
      }
    }

    /** The next visit: reading the page that is due, and going through its registrations. */
    method VisitPage(group: int, at: Position, ghost s: Scan, ghost looks: seq<Look>) returns (v: Visit, next: Position)
      requires s.env == env && s.group == group && Stands(s, looks, at, step) && s.InRange(|looks| + 1)
      modifies this`step, this`candidates
      ensures candidates <= Max(old(candidates), env.maxCandidates)
      ensures v.Stopped? ==> MustStop() && old(step) <= step <= After(s.NextLook(looks)) && old(candidates) <= candidates
      ensures !v.Stopped? ==>
                && v == EndOf(s.NextLook(looks)) && step == After(s.NextLook(looks)) && Knows(s, |looks| + 1, next)
                && TimeLeft(env, old(step)) >= 10000 && step > 0 && TimeLeft(env, step - 1) >= 10000
                && candidates == old(candidates) + (if v.Read? then StaleAmong(v.page.verdicts) else 0)
    {
      v, next := ReadDue(group, at, s, looks);
      if v.Read? {
        var stopped := ScanRunners(v.page.verdicts);
        if stopped {
          v := Stopped;
        }
      }
    }

    /**
     One group. The visits are those the answers decide, and the candidates found are those on the pages read. The scan is
     stopped only at a limit, in the midst of the next visit; otherwise it goes on exactly until it is done.
     */
    method DiscoverGroup(group: int) returns (stopped: bool, ghost looks: seq<Look>)
      modifies this`step, this`candidates
      ensures old(step) <= step
      ensures var s := Scan(env, group, old(step));
              && s.Begins(looks)
              && (!stopped ==> IsScanned(s, looks) && step == s.NextCall(looks))
              && (stopped ==> MustStop() && s.InRange(|looks| + 1) && !IsOver(s.Count(), looks) && step <= After(s.NextLook(looks)))
      ensures candidates <= Max(old(candidates), env.maxCandidates) && AllInTime(env, looks)
      ensures if stopped then candidates >= old(candidates) + StaleIn(looks) else candidates == old(candidates) + StaleIn(looks)
    {
      ghost var s := Scan(env, group, step);
      looks := [];
      NothingYet(s);
      var at, failures: nat := Position(1, None, 0, None), 0;
      var over := false;
      while !over && (at.pageCount.None? || at.pagesRemaining > 0)
        invariant Between(s, looks, at, failures, over, step) && old(step) <= step && AllInTime(env, looks)
        invariant candidates == old(candidates) + StaleIn(looks) <= Max(old(candidates), env.maxCandidates)
        decreases !over, at.pageCount.None?, if at.pageCount.None? then Max(TimeLeft(env, step), 0) else at.pagesRemaining
      {
        stopped, at, failures, over, looks := Visit(group, at, failures, s, looks);
        if stopped {
          return;
        }
      }
      stopped := false;
    }

    /** One turn of the loop. */
    method Visit(group: int, at: Position, failures: nat, ghost s: Scan, ghost looks: seq<Look>)
      returns (stopped: bool, next: Position, inARow: nat, over: bool, ghost more: seq<Look>)
      requires s.env == env && s.group == group && Between(s, looks, at, failures, false, step)
      requires (at.pageCount.None? || at.pagesRemaining > 0) && AllInTime(env, looks)
      modifies this`step, this`candidates
      ensures candidates <= Max(old(candidates), env.maxCandidates)
      ensures old(step) <= step
      ensures stopped ==>
                && more == looks && MustStop() && candidates >= old(candidates)
                && s.InRange(|looks| + 1) && step <= After(s.NextLook(looks))
      ensures !stopped ==>
                && Between(s, more, next, inARow, over, step) && AllInTime(env, more)
                && candidates - old(candidates) == StaleIn(more) - StaleIn(looks)
                && Closer(env, at, old(step), next, step)
    {
      StillInRange(s, looks, at, step);
      var v;
      v, next := VisitPage(group, at, s, looks);
      if v.Stopped? {
        return true, next, failures, false, looks;
      }
      VisitCounts(s, looks, at, failures, old(step), v, next);
      VisitComesCloser(s, looks, at, old(step), next, step);
      stopped, more := false, looks + [s.NextLook(looks)];
      inARow, over := InARow(failures, v), EndsScan(failures, v, next);
    }

    /** One group with its scan. */
    method ScanGroup(group: int) returns (stopped: bool, ghost g: GroupScan)
      modifies this`step, this`candidates
      ensures candidates <= Max(old(candidates), env.maxCandidates) && g.scan.from == old(step)
      ensures if stopped then MustStop() && candidates >= old(candidates)
              else TurnOf(env)(group, g) && step == g.end && candidates == old(candidates) + StaleIn(g.looks)
    {
      ghost var from, looks := step, [];
      stopped, looks := DiscoverGroup(group);
      g := GroupScan(Scan(env, group, from), looks, step);
    }

    /** The groups in rotation from a random one on. */
    method Rotate(groups: seq<int>) returns (turns: seq<int>, ghost offset: nat)
      modifies this`step
      ensures step == old(step) + 1 && |turns| == |groups|
      ensures offset <= |groups| && turns == groups[offset..] + groups[..offset] && multiset(turns) == multiset(groups)
      ensures env.random(old(step), |groups|) < |groups| ==> offset == env.random(old(step), |groups|)
    {
      var from := if groups == [] then 0 else RandomPage(env, step, |groups|) - 1;
      step, offset := step + 1, from;
      turns := groups[from..] + groups[..from];
      assert groups == groups[..from] + groups[from..];
    }

    /** All groups in rotation, one scan after the other, until one of them is stopped at a limit. */
    method Discover(groups: seq<int>)
      returns (stopped: bool, ghost offset: nat, ghost order: seq<int>, ghost scans: seq<GroupScan>)
      modifies this`step, this`candidates
      ensures offset <= |groups| && order == groups[offset..] + groups[..offset] && multiset(order) == multiset(groups)
      ensures env.random(old(step), |groups|) < |groups| ==> offset == env.random(old(step), |groups|)
      ensures InTurn(TurnOf(env), order, scans, old(step) + 1)
      ensures if stopped then MustStop() && |scans| < |groups| else |scans| == |groups|
      ensures candidates <= Max(old(candidates), env.maxCandidates)
      ensures if stopped then candidates >= old(candidates) + StaleInAll(scans) else candidates == old(candidates) + StaleInAll(scans)
    {
      var turns;
      turns, offset := Rotate(groups);
      order, scans := turns, [];
      ghost var first := step;
      var k := 0;
      while k < |turns|
        invariant k <= |turns| && |scans| == k && InTurn(TurnOf(env), order, scans, first)
        invariant step == EndOfTurns(scans, first)
        invariant candidates == old(candidates) + StaleInAll(scans) <= Max(old(candidates), env.maxCandidates)
      {
        ghost var g;
        stopped, g := ScanGroup(turns[k]);
        if stopped {
          return;
        }
        NextTurn(TurnOf(env), order, scans, first, g);
        scans := scans + [g];
        k := k + 1;
      }
      stopped := false;
    }
  }

  // ---------------------------------------------------------------- confirmation

  /** One request for a page, with the number of the call and its answer. */
  datatype Asked = Asked(call: nat, page: nat, answer: Option<Page>)

  /** The requests are the calls from `from` on, each answered as that call is answered. */
  ghost predicate TrueRequests(env: Environment, group: int, asked: seq<Asked>, from: nat) {
    forall k :: 0 <= k < |asked| ==>
      asked[k].call == from + k && asked[k].answer == env.page(asked[k].call, group, asked[k].page)
  }

  /** The pages checked when the rotation through 2 to `count` has made `n` steps. */
  ghost function CheckedAfter(count: nat, start: nat, n: nat): (pages: seq<nat>)
    requires 1 <= start <= count - 1 && n <= count - 1
  {
    [1] + seq(n, k requires 0 <= k < n => PageAt(count - 1, start, k) + 1)
  }

  /** At the end that is page 1 and each of the others once. */
  lemma AllPagesChecked(count: nat, start: nat)
    requires 1 <= start <= count - 1
    ensures var pages := CheckedAfter(count, start, count - 1);
            |pages| == count && Distinct(pages) && forall p :: p in pages <==> 1 <= p <= count
  {
    var pages, rest := CheckedAfter(count, start, count - 1), Rotation(count - 1, start, count - 1);
    RotationVisitsAll(count - 1, start);
    assert forall k :: 1 <= k < |pages| ==> pages[k] == rest[k - 1] + 1;
    forall p | 1 <= p <= count ensures p in pages {
      if p == 1 {
        assert pages[0] == 1;
      } else {
        assert p - 1 in rest;
        var k :| 0 <= k < |rest| && rest[k] == p - 1;
        assert pages[k + 1] == p;
      }
    }
  }

  datatype Search = Found | Absent | Incomplete

  /** What an absence rests on: the pages 1 to `count`, each once, none of them listing the runner. */
  ghost predicate CheckedAll(checked: seq<nat>, count: nat) {
    && |checked| == count && Distinct(checked)
    && forall p :: p in checked <==> 1 <= p <= count
  }

  ghost function PagesOf(asked: seq<Asked>): (pages: seq<nat>)
    ensures |pages| == |asked| && forall k :: 0 <= k < |asked| ==> pages[k] == asked[k].page
  {
    seq(|asked|, k requires 0 <= k < |asked| => asked[k].page)
  }

  ghost predicate Lists(q: Asked, runnerId: int) {
    q.answer.Some? && runnerId in q.answer.value.memberIds
  }

  /** Every request brought a page, and none of them lists the runner. */
  ghost predicate NowhereListed(asked: seq<Asked>, runnerId: int) {
    forall k :: 0 <= k < |asked| ==> asked[k].answer.Some? && runnerId !in asked[k].answer.value.memberIds
  }

  /** The count is what page 1, asked for first, said. */
  ghost predicate IsCount(asked: seq<Asked>, count: nat) {
    && asked != [] && asked[0].page == 1 && asked[0].answer.Some?
    && asked[0].answer.value.total.Some? && count == PagesFor(asked[0].answer.value.total.value)
  }

  /** The runner is not a member: every page was asked for once, the last one of an uncounted group being short. */
  ghost predicate IsAbsent(asked: seq<Asked>, runnerId: int, pageCount: Option<nat>) {
    && asked != [] && NowhereListed(asked, runnerId) && CheckedAll(PagesOf(asked), |asked|)
    && if pageCount.Some? then IsCount(asked, pageCount.value) && |asked| == pageCount.value
       else |asked[|asked| - 1].answer.value.memberIds| < 100
  }

  /** The check of a counted group, with page 1 done and the others in rotation. */
  ghost predicate RotatesOnward(count: nat, start: nat, pagesRemaining: int, pageNumber: nat, checked: seq<nat>) {
    && count >= 2 && 1 <= start <= count - 1 && 0 <= pagesRemaining <= count - 1
    && checked == CheckedAfter(count, start, count - 1 - pagesRemaining)
    && pageNumber == PageAt(count - 1, start, count - 1 - pagesRemaining) + 1
  }

  /** How far the search has come. */
  ghost predicate Searching(asked: seq<Asked>, runnerId: int, pageCount: Option<nat>, start: nat, pagesRemaining: int, pageNumber: nat) {
    && NowhereListed(asked, runnerId)
    && if pageCount.None? then pageNumber == |asked| + 1 && CheckedAll(PagesOf(asked), |asked|)
       else IsCount(asked, pageCount.value) && RotatesOnward(pageCount.value, start, pagesRemaining, pageNumber, PagesOf(asked))
  }

  /** The loop's increment. */
  function NextToCheck(pageCount: Option<nat>, pageNumber: nat): nat
    requires pageCount.Some? ==> pageCount.value >= 2
  {
    if pageCount.Some? then 2 + (pageNumber - 1) % (pageCount.value - 1) else pageNumber + 1
  }

  /** Page 1 tells the count: either it was all, or the rotation through the others begins. */
  lemma CountBegins(q: Asked, runnerId: int, start: nat)
    requires q.page == 1 && q.answer.Some? && q.answer.value.total.Some? && !Lists(q, runnerId)
    ensures var count := PagesFor(q.answer.value.total.value);
            && (count == 1 ==> IsAbsent([q], runnerId, Some(count)))
            && (count > 1 && 1 <= start <= count - 1 ==>
                  Searching([q], runnerId, Some(count), start, count - 1, NextToCheck(Some(count), start)))
  {
    var count := PagesFor(q.answer.value.total.value);
    assert PagesOf([q]) == [1];
    if count > 1 && 1 <= start <= count - 1 {
      ConfirmationStep(count, start, count, start);
    }
  }

  lemma StraightOn(asked: seq<Asked>, q: Asked, runnerId: int, start: nat, pagesRemaining: int)
    requires Searching(asked, runnerId, None, start, pagesRemaining, q.page) && q.answer.Some? && !Lists(q, runnerId)
    ensures Searching(asked + [q], runnerId, None, start, pagesRemaining, NextToCheck(None, q.page))
    ensures |q.answer.value.memberIds| < PAGE_SIZE ==> IsAbsent(asked + [q], runnerId, None)
  {
    assert PagesOf(asked + [q]) == PagesOf(asked) + [q.page];
    StraightCheck(PagesOf(asked));
  }

  lemma RotationOn(asked: seq<Asked>, q: Asked, runnerId: int, count: nat, start: nat, pagesRemaining: nat)
    requires Searching(asked, runnerId, Some(count), start, pagesRemaining, q.page) && pagesRemaining > 0
    requires q.answer.Some? && !Lists(q, runnerId)
    ensures count >= 2
    ensures Searching(asked + [q], runnerId, Some(count), start, pagesRemaining - 1, NextToCheck(Some(count), q.page))
  {
    assert PagesOf(asked + [q]) == PagesOf(asked) + [q.page];
    ConfirmationStep(count, start, pagesRemaining, q.page);
  }

  lemma AllChecked(asked: seq<Asked>, runnerId: int, pageCount: Option<nat>, start: nat, pageNumber: nat)
    requires pageCount.Some? && Searching(asked, runnerId, pageCount, start, 0, pageNumber)
    ensures IsAbsent(asked, runnerId, pageCount)
  {
    AllPagesChecked(pageCount.value, start);
  }

  datatype RunnerAnswer = NotFound | RequestFails | Runner(name: string, offline: bool, busy: bool)

  datatype Candidate = Candidate(groupId: int, runnerId: int, runnerName: string, observedAt: int, inScope: bool)

  datatype Outcome = Discarded | TooEarly | DryRun | GivenUp | HasResourceAgain | Gone | InUse | Removed | Thrown

  /** Within scope, observed long enough ago and not too long, and meant in earnest. */
  ghost predicate IsDue(c: Candidate, now: int, dryRun: bool) {
    c.inScope && c.runnerId >= 1 && !dryRun && 900000 <= now - c.observedAt <= 86400000
  }

  class Confirmation {
    const env: Environment
    const resource: nat -> Option<bool>
    const runner: nat -> RunnerAnswer
    const delete: nat -> bool
    var step: nat

    constructor (env: Environment, resource: nat -> Option<bool>, runner: nat -> RunnerAnswer, delete: nat -> bool)
    {
      this.env, this.resource, this.runner, this.delete := env, resource, runner, delete;
      this.step := 0;
    }

    /** Asks for a page, and adds the request to those made. */
    method RequestPage(group: int, page: nat, ghost asked: seq<Asked>, ghost from: nat)
      returns (answer: Option<Page>, ghost now: seq<Asked>)
      requires TrueRequests(env, group, asked, from) && step == from + |asked|
      modifies this`step
      ensures step == old(step) + 1 && answer == env.page(old(step), group, page)
      ensures now == asked + [Asked(old(step), page, answer)] && TrueRequests(env, group, now, from)
      ensures PagesOf(now) == PagesOf(asked) + [page]
    {
      answer := env.page(step, group, page);
      now := asked + [Asked(step, page, answer)];
      step := step + 1;
    }

    /** The search had to be broken off: for lack of time, or because a page could not be read. */
    ghost predicate BrokenOff(asked: seq<Asked>, end: nat) {
      TimeLeft(env, end) < 10000 || (asked != [] && asked[|asked| - 1].answer.None?)
    }

    /**
     Looks for the runner among the members of its group. It is given up as absent only after a check of every
     page; a page that cannot be read leaves the question open.
     */
    method FindMember(group: int, runnerId: int) returns (r: Search, ghost asked: seq<Asked>, pageCount: Option<nat>)
      modifies this`step
      ensures TrueRequests(env, group, asked, old(step)) && step == old(step) + |asked|
      ensures r.Absent? ==> IsAbsent(asked, runnerId, pageCount)
      ensures r.Found? ==> asked != [] && Lists(asked[|asked| - 1], runnerId)
      ensures r.Incomplete? ==> BrokenOff(asked, step)
    {
      asked, pageCount := [], None;
      var pageNumber: nat, pagesRemaining := 1, 0;
      ghost var start: nat, from := 0, step;
      while pageCount.None? || pagesRemaining > 0
        invariant TrueRequests(env, group, asked, from) && step == from + |asked|
        invariant Searching(asked, runnerId, pageCount, start, pagesRemaining, pageNumber)
        decreases if pageCount.None? then 1 else 0, if pageCount.None? then Max(TimeLeft(env, step), 0) else pagesRemaining
      {
        if TimeLeft(env, step) < MINIMUM_TIME_LEFT_MS {
          return Incomplete, asked, pageCount;
        }
        ghost var before := asked;
        var answer;
        answer, asked := RequestPage(group, pageNumber, asked, from);
        if answer.None? {
          return Incomplete, asked, pageCount;
        }
        if runnerId in answer.value.memberIds {
          return Found, asked, pageCount;
        }
        r, pageCount, pagesRemaining, pageNumber, start :=
          NotOnPage(runnerId, answer.value, pageCount, pagesRemaining, pageNumber, before, asked, start);
        if r.Absent? {
          return;
        }
      }
      AllChecked(asked, runnerId, pageCount, start, pageNumber);
      r := Absent;
    }

    /** The rest of the loop's body: page 1 may tell the count, a short page ends an uncounted search, else on to the next page. */
    method NotOnPage(runnerId: int, page: Page, pageCount: Option<nat>, pagesRemaining: int, pageNumber: nat,
                     ghost before: seq<Asked>, ghost asked: seq<Asked>, ghost start: nat)
      returns (r: Search, count: Option<nat>, remaining: int, next: nat, ghost begun: nat)
      requires Searching(before, runnerId, pageCount, start, pagesRemaining, pageNumber)
      requires pageCount.Some? ==> pagesRemaining > 0
      requires asked != [] && asked == before + [asked[|asked| - 1]]
      requires var q := asked[|asked| - 1]; q.page == pageNumber && q.answer == Some(page) && !Lists(q, runnerId)
      ensures r in {Absent, Incomplete}
      ensures if r.Absent? then IsAbsent(asked, runnerId, count) else Searching(asked, runnerId, count, begun, remaining, next)
      ensures pageCount.Some? ==> count == pageCount && remaining < pagesRemaining
    {
      r, count, remaining, begun := Incomplete, pageCount, pagesRemaining, start;
      ghost var q := asked[|asked| - 1];
      next := pageNumber;
      if pageNumber == 1 && page.total.Some? {
        assert before == [] && asked == [q];
        count := Some(PagesFor(page.total.value));
        next := if count.value == 1 then 1 else RandomPage(env, step, count.value - 1);
        CountBegins(q, runnerId, next);
        if count.value == 1 {
          r := Absent;
          return;
        }
        begun, remaining := next, count.value;
      } else if pageCount.None? {
        StraightOn(before, q, runnerId, start, pagesRemaining);
        if |page.memberIds| < PAGE_SIZE {
          r := Absent;
          return;
        }
      } else {
        RotationOn(before, q, runnerId, pageCount.value, start, pagesRemaining);
      }
      next := NextToCheck(count, next);
      remaining := if count.Some? then remaining - 1 else remaining;
    }

    /** From call `at` on: time for every call, it is the same runner, offline and idle, and it is deleted. */
    ghost predicate DeletesIdle(c: Candidate, at: nat) {
      && TimeLeft(env, at) >= 10000 && runner(at) == Runner(c.runnerName, true, false)
      && TimeLeft(env, at + 1) >= 10000 && delete(at + 1)
    }

    /** The same, after an answer that the resource is gone. */
    ghost predicate Deletes(c: Candidate, at: nat) {
      TimeLeft(env, at) >= 10000 && resource(at) == Some(false) && DeletesIdle(c, at + 1)
    }

    /** How asking for the runner, from call `at` on, may end otherwise than with the deletion. */
    ghost predicate SparedIdle(c: Candidate, at: nat, r: Outcome) {
      match r
      case Gone => runner(at) == NotFound
      case InUse => runner(at).Runner? && (runner(at).offline && !runner(at).busy ==> runner(at).name != c.runnerName)
      case Thrown =>
        TimeLeft(env, at) < 10000 || runner(at) == RequestFails || TimeLeft(env, at + 1) < 10000 || !delete(at + 1)
      case _ => false
    }

    /** How the whole questioning may. */
    ghost predicate SparedAs(c: Candidate, at: nat, r: Outcome) {
      if TimeLeft(env, at) < 10000 || resource(at) == None then r == Thrown
      else if resource(at) == Some(true) then r == HasResourceAgain
      else SparedIdle(c, at + 1, r)
    }

    /**
     The whole confirmation. A registration is deleted if and only if it is due, an answer lists it as a member, its
     resource is gone and it is the same runner, offline and idle; it is given up only when every page was checked.
     */
    method Confirm(c: Candidate, now: int, dryRun: bool)
      returns (r: Outcome, ghost asked: seq<Asked>, ghost at: nat, ghost pageCount: Option<nat>)
      modifies this`step
      ensures TrueRequests(env, c.groupId, asked, old(step)) && at == old(step) + |asked|
      ensures r in {Discarded, TooEarly, DryRun} <==> !IsDue(c, now, dryRun)
      ensures r in {Discarded, TooEarly, DryRun} ==> step == old(step)
      ensures r == TooEarly ==> now - c.observedAt < 900000
      ensures r == GivenUp ==> IsAbsent(asked, c.runnerId, pageCount)
      ensures IsDue(c, now, dryRun) && r != GivenUp ==>
                || (r == Thrown && BrokenOff(asked, at))
                || (asked != [] && Lists(asked[|asked| - 1], c.runnerId) && (if Deletes(c, at) then r == Removed else SparedAs(c, at, r)))
      ensures r == Removed ==>
                && IsDue(c, now, dryRun) && asked != [] && Lists(asked[|asked| - 1], c.runnerId) && Deletes(c, at)
    {
      asked, at, pageCount := [], step, None;
      var elapsed := now - c.observedAt;
      if !c.inScope || c.runnerId < 1 || elapsed > CANDIDATE_LIFETIME_MS {
        r := Discarded;
        return;
      }
      if elapsed < CONFIRMATION_MS {
        r := TooEarly;
        return;
      }
      if dryRun {
        r := DryRun;
        return;
      }
      var found, count;
      found, asked, count := FindMember(c.groupId, c.runnerId);
      pageCount, at := count, step;
      if found == Incomplete {
        r := Thrown;
        return;
      }
      if found == Absent {
        r := GivenUp;
        return;
      }
      r := DeleteIfStale(c);
    }

    method DeleteIfStale(c: Candidate) returns (r: Outcome)
      modifies this`step
      ensures if Deletes(c, old(step)) then r == Removed else SparedAs(c, old(step), r)
    {
      if TimeLeft(env, step) < MINIMUM_TIME_LEFT_MS {
        return Thrown;
      }
      var known := resource(step);
      step := step + 1;
      if known.None? {
        return Thrown;
      }
      if known.value {
        return HasResourceAgain;
      }
      r := DeleteIfIdle(c);
    }

    method DeleteIfIdle(c: Candidate) returns (r: Outcome)
      modifies this`step
      ensures if DeletesIdle(c, old(step)) then r == Removed else SparedIdle(c, old(step), r)
    {
      if TimeLeft(env, step) < MINIMUM_TIME_LEFT_MS {
        return Thrown;
      }
      var answer := runner(step);
      step := step + 1;
      match answer
      case NotFound =>
        r := Gone;
      case RequestFails =>
        r := Thrown;
      case Runner(name, offline, busy) =>
        if name != c.runnerName || !offline || busy {
          return InUse;
        }
        if TimeLeft(env, step) < MINIMUM_TIME_LEFT_MS {
          return Thrown;
        }
        r := if delete(step) then Removed else Thrown;
        step := step + 1;
    }
  }

  lemma StraightCheck(checked: seq<nat>)
    requires CheckedAll(checked, |checked|)
    ensures CheckedAll(checked + [|checked| + 1], |checked| + 1)
  {
    AppendNew(checked, |checked| + 1);
  }

  /** The increment of the confirmation loop, right after page 1 and later on. */
  lemma ConfirmationStep(count: nat, start: nat, pagesRemaining: nat, page: nat)
    requires count >= 2 && 1 <= start <= count - 1 && 0 < pagesRemaining <= count
    requires if pagesRemaining == count then page == start
             else page == PageAt(count - 1, start, count - 1 - pagesRemaining) + 1
    ensures 2 + (page - 1) % (count - 1) == PageAt(count - 1, start, count - pagesRemaining) + 1
    ensures pagesRemaining < count ==>
              CheckedAfter(count, start, count - pagesRemaining)
              == CheckedAfter(count, start, count - 1 - pagesRemaining) + [page]
  {
    if pagesRemaining < count {
      NextPage(count - 1, start, count - 1 - pagesRemaining);
    } else {
      assert (page - 1) % (count - 1) == page - 1;
    }
  }
}
