/** What is remembered about the rate limits of the GitHub Apps, and the choice of an app by that memory. */
module AppSelection {
  import opened Prelude

  const OBSERVATION_LIFETIME_MS: int := 60000
  const MAX_SAFE_INTEGER: int := 9007199254740991

  datatype Key = Key(scope: string, app: nat, resource: string)

  datatype RateLimitState = RateLimitState(remaining: int, resetAt: Option<int>, observedAt: Option<int>)

  type States = map<Key, RateLimitState>

  datatype Report = Report(now: int, key: Key, remaining: int, resetAt: Option<int>)

  /** Until when the app counts as exhausted, whatever is reported in the meantime; 0 when it is not. */
  function ExhaustionUntil(s: RateLimitState): int {
    if s.remaining != 0 then 0
    else if s.resetAt.Some? then s.resetAt.value
    else s.observedAt.GetOr(0) + OBSERVATION_LIFETIME_MS
  }

  /** A report on an exhausted app can only prolong the exhaustion; any other one replaces what was known. */
  ghost function Reported(states: States, r: Report): States {
    var known := r.key in states;
    var s := if known then states[r.key] else RateLimitState(r.remaining, None, None);
    if ExhaustionUntil(s) > r.now then
      if known
      then states[r.key := s.(resetAt := Some(Max(ExhaustionUntil(s), if r.remaining == 0 then r.resetAt.GetOr(0) else 0)))]
      else states
    else states[r.key := RateLimitState(r.remaining, r.resetAt, Some(r.now))]
  }

  ghost function AllReported(states: States, reports: seq<Report>): States {
    if reports == [] then states
    else Reported(AllReported(states, reports[..|reports| - 1]), reports[|reports| - 1])
  }

  /** An observation counts until its reset, or for a minute when no reset is known; a reset of 0 is none. */
  predicate IsFresh(s: RateLimitState, now: int) {
    if s.resetAt.GetOr(0) != 0 then s.resetAt.value > now
    else s.observedAt.GetOr(0) + OBSERVATION_LIFETIME_MS > now
  }

  function Budget(states: States, key: Key, now: int): int {
    if key in states && IsFresh(states[key], now) then states[key].remaining else MAX_SAFE_INTEGER
  }

  /** Nothing is left for the key before `until`. */
  ghost predicate SpentUntil(states: States, key: Key, until: int) {
    key in states && states[key].remaining == 0 && states[key].resetAt.Some? && states[key].resetAt.value >= until
  }

  /** A state that says so keeps the budget at zero until then. */
  lemma SpentMeansNoBudget(states: States, key: Key, until: int, now: int)
    requires SpentUntil(states, key, until) && 0 <= now < until
    ensures Budget(states, key, now) == 0
  {
  }

  /**
   An app that reports nothing left until a reset in the future is remembered as spent until then,
   exactly when it has been heard of before or the clock has passed its first minute.
   */
  lemma ExhaustionIsRemembered(states: States, r: Report)
    requires r.remaining == 0 && r.resetAt.Some? && r.resetAt.value > r.now >= 0
    ensures SpentUntil(Reported(states, r), r.key, r.resetAt.value) <==> r.key in states || r.now >= OBSERVATION_LIFETIME_MS
  {
  }

  /** A report tells the budget until its reset, or, if it names none, for a minute; then the app counts as full. */
  ghost predicate StillTells(r: Report, now: int) {
    if r.resetAt.Some? && r.resetAt.value != 0 then now < r.resetAt.value else now < r.now + 60000
  }

  /** The latest report counts, for its key alone, unless the app was known to be spent. */
  lemma LatestReportCounts(states: States, r: Report, now: int, other: Key)
    requires if r.key in states then states[r.key].remaining != 0 && r.now >= 0 else r.remaining != 0 && r.now >= 0
    ensures Budget(Reported(states, r), r.key, now) == if StillTells(r, now) then r.remaining else MAX_SAFE_INTEGER
    ensures other != r.key ==> Budget(Reported(states, r), other, now) == Budget(states, other, now)
  {
  }

  /** A report that comes while the app is spent changes nothing before the reset it was known to have, and never shortens it. */
  lemma SpentOutlastsReport(states: States, r: Report, now: int)
    requires r.key in states && states[r.key].remaining == 0 && states[r.key].resetAt.Some?
    requires 0 <= r.now < states[r.key].resetAt.value && 0 <= now
    ensures var known := states[r.key].resetAt.value;
            var until := if r.remaining == 0 && r.resetAt.Some? then Max(known, r.resetAt.value) else known;
            Budget(Reported(states, r), r.key, now) == if now < until then 0 else MAX_SAFE_INTEGER
  {
  }

  /** In the first minute the very first report is forgotten, and the spent app looks full. */
  lemma FirstMinuteForgets()
    ensures var key := Key("", 0, "core");
            Budget(Reported(map[], Report(1000, key, 0, Some(3600000))), key, 1001) == MAX_SAFE_INTEGER
  {
  }

  /** Later reports, old positive observations included, cannot shorten the exhaustion. */
  lemma {:induction false} ExhaustionOutlastsReports(states: States, key: Key, until: int, reports: seq<Report>)
    requires SpentUntil(states, key, until)
    requires forall i :: 0 <= i < |reports| && reports[i].key == key ==> reports[i].now < until
    ensures SpentUntil(AllReported(states, reports), key, until)
  {
    if reports != [] {
      ExhaustionOutlastsReports(states, key, until, reports[..|reports| - 1]);
    }
  }

  type Cooldowns = map<nat, int>

  function CoolingUntil(cooldowns: Cooldowns, app: nat): int {
    if app in cooldowns then cooldowns[app] else 0
  }

  ghost predicate Eligible(states: States, cooldowns: Cooldowns, excluded: set<nat>, scope: string, resource: string, now: int, app: nat) {
    && app !in excluded
    && CoolingUntil(cooldowns, app) <= now
    && Budget(states, Key(scope, app, resource), now) > 0
  }

  /** Told once that an app has nothing left until its reset, the memory never offers it before, whatever is reported later. */
  lemma SpentAppStaysSpent(states: States, r: Report, later: seq<Report>, now: int)
    requires r.remaining == 0 && r.resetAt.Some? && 0 <= r.now <= now < r.resetAt.value
    requires r.key in states || r.now >= OBSERVATION_LIFETIME_MS
    requires forall i :: 0 <= i < |later| ==> later[i].now <= now
    ensures forall cooldowns, excluded ::
              !Eligible(AllReported(Reported(states, r), later), cooldowns, excluded, r.key.scope, r.key.resource, now, r.key.app)
  {
    ExhaustionIsRemembered(states, r);
    ExhaustionOutlastsReports(Reported(states, r), r.key, r.resetAt.value, later);
    SpentMeansNoBudget(AllReported(Reported(states, r), later), r.key, r.resetAt.value, now);
  }

  /** Whose turn it is after `n` steps of the rotation that starts at `offset`. */
  function AppAt(count: nat, offset: nat, n: nat): nat
    requires count > 0
  {
    (offset + n) % count
  }

  /** The choice: eligible, with the largest budget, and the first in the rotation among equals. */
  ghost predicate IsBest(states: States, cooldowns: Cooldowns, excluded: set<nat>, scope: string, resource: string,
                         now: int, count: nat, offset: nat, best: nat, turn: nat)
    requires count > 0
  {
    && turn < count && best == AppAt(count, offset, turn)
    && Eligible(states, cooldowns, excluded, scope, resource, now, best)
    && (forall a: nat :: a < count && Eligible(states, cooldowns, excluded, scope, resource, now, a) ==>
          Budget(states, Key(scope, a, resource), now) <= Budget(states, Key(scope, best, resource), now))
    && (forall n: nat :: n < turn ==>
          var a := AppAt(count, offset, n);
          Eligible(states, cooldowns, excluded, scope, resource, now, a) ==>
            Budget(states, Key(scope, a, resource), now) < Budget(states, Key(scope, best, resource), now))
  }

  class RateLimits {
    var states: States
    var cooldowns: Cooldowns

    constructor ()
      ensures states == map[] && cooldowns == map[]
    {
      states, cooldowns := map[], map[];
    }

    method ReportAppRateLimit(r: Report)
      modifies this`states
      ensures states == Reported(old(states), r)
    {
      var known := r.key in states;
      var s := if known then states[r.key] else RateLimitState(r.remaining, None, None);
      var exhaustionUntil := ExhaustionUntil(s);
      if exhaustionUntil > r.now {
        s := s.(resetAt := Some(Max(exhaustionUntil, if r.remaining == 0 then r.resetAt.GetOr(0) else 0)));
        if known {
          states := states[r.key := s];
        }
        return;
      }
      states := states[r.key := RateLimitState(r.remaining, r.resetAt, Some(r.now))];
    }

    /** A cooldown is only ever prolonged. */
    method ReportAppSecondaryRateLimit(app: nat, cooldownUntil: int)
      modifies this`cooldowns
      ensures cooldowns == old(cooldowns)[app := Max(CoolingUntil(old(cooldowns), app), cooldownUntil)]
      ensures forall a :: CoolingUntil(cooldowns, a) >= CoolingUntil(old(cooldowns), a)
    {
      cooldowns := cooldowns[app := Max(CoolingUntil(cooldowns, app), cooldownUntil)];
    }

    /** The best app, if any; none exactly when nobody is eligible. */
    method SelectAppIndex(count: nat, excluded: set<nat>, scope: string, resource: string, offset: nat, now: int)
      returns (best: Option<nat>, ghost turn: nat)
      ensures best.None? <==> forall a: nat :: a < count ==> !Eligible(states, cooldowns, excluded, scope, resource, now, a)
      ensures best.Some? ==> best.value < count && turn < count
      ensures best.Some? ==>
                && best.value !in excluded && (best.value in cooldowns ==> cooldowns[best.value] <= now)
                && Budget(states, Key(scope, best.value, resource), now) > 0
      ensures best.None? && now >= 0 ==> forall a: nat :: a < count ==>
                || a in excluded || (a in cooldowns && now < cooldowns[a])
                || Budget(states, Key(scope, a, resource), now) <= 0
      ensures best.Some? ==> IsBest(states, cooldowns, excluded, scope, resource, now, count, offset, best.value, turn)
    {
      best, turn := None, 0;
      var bestRemaining := -1;
      var n := 0;
      while n < count
        invariant n <= count
        invariant best.None? ==> bestRemaining == -1 && turn == 0
        invariant best.Some? ==>
                    && turn < n && best.value == AppAt(count, offset, turn)
                    && Eligible(states, cooldowns, excluded, scope, resource, now, best.value)
                    && bestRemaining == Budget(states, Key(scope, best.value, resource), now)
        invariant forall k: nat :: k < n ==>
                    var a := AppAt(count, offset, k);
                    Eligible(states, cooldowns, excluded, scope, resource, now, a) ==>
                      var b := Budget(states, Key(scope, a, resource), now);
                      best.Some? && b <= bestRemaining && (k < turn ==> b < bestRemaining)
      {
        var i := AppAt(count, offset, n);
        n := n + 1;
        if i in excluded || CoolingUntil(cooldowns, i) > now {
          continue;
        }
        var remaining := Budget(states, Key(scope, i, resource), now);
        if remaining == 0 {
          continue;
        }
        if remaining > bestRemaining {
          bestRemaining := remaining;
          best := Some(i);
          turn := n - 1;
        }
      }
      forall a: nat | a < count && Eligible(states, cooldowns, excluded, scope, resource, now, a)
        ensures best.Some? && Budget(states, Key(scope, a, resource), now) <= bestRemaining {
        RotationReaches(count, offset, a);
        assert AppAt(count, offset, TurnOf(count, offset, a)) == a;
      }
    }
  }

  ghost function TurnOf(count: nat, offset: nat, app: nat): nat
    requires app < count
  {
    var start := offset % count;
    if app >= start then app - start else app + count - start
  }

  /** Starting anywhere, the rotation comes to every app within one round. */
  lemma RotationReaches(count: nat, offset: nat, app: nat)
    requires app < count
    ensures TurnOf(count, offset, app) < count && AppAt(count, offset, TurnOf(count, offset, app)) == app
  {
    var q := offset / count;
    assert offset == q * count + offset % count;
    var n := TurnOf(count, offset, app);
    if app >= offset % count {
      RemainderIsUnique(offset + n, q, count, app);
    } else {
      assert (q + 1) * count == q * count + count;
      RemainderIsUnique(offset + n, q + 1, count, app);
    }
  }

  lemma RemainderIsUnique(x: int, q: int, d: int, r: int)
    requires d > 0 && x == q * d + r && 0 <= r < d
    ensures x % d == r
  {
    var k := x / d - q;
    assert x == (x / d) * d + x % d;
    assert k * d == r - x % d by {
      assert (x / d) * d == k * d + q * d;
    }
    assert (-k) * d == -(k * d);
    if k > 0 {
      AtLeastOnce(k, d);
    } else if k < 0 {
      AtLeastOnce(-k, d);
    }
  }

  lemma AtLeastOnce(k: int, d: int)
    requires k >= 1 && d > 0
    ensures k * d >= d
  {
  }
}
