/**
 Where a refill of the warm pool goes: every (instance type, subnet) pair, ranked, and how many instances each
 pair is asked for.
 */
module WarmPlacement {
  import opened Prelude
  import opened StableSort

  datatype Subnet = Subnet(subnetId: string, azId: Option<string>)

  datatype Signals = Signals(azScores: map<string, real>, prices: map<(string, string), real>)

  datatype Input = Input(
    capacityType: string,
    strategy: string,
    instanceTypes: seq<string>,
    instanceTypePriorities: map<string, int>,
    subnets: seq<Subnet>,
    signals: Signals)

  datatype Pair = Pair(
    instanceType: string, subnetId: string, azId: Option<string>, score: Option<real>, price: Option<real>)

  datatype Plan = Plan(effectiveStrategy: string, spread: bool, pairs: seq<Pair>)

  const SPOT_STRATEGIES: seq<string> :=
    ["lowest-price", "diversified", "capacity-optimized", "capacity-optimized-prioritized", "price-capacity-optimized"]
  const ON_DEMAND_STRATEGIES: seq<string> := ["lowest-price", "prioritized"]

  function EffectiveStrategy(capacityType: string, strategy: string): string {
    if strategy in (if capacityType == "spot" then SPOT_STRATEGIES else ON_DEMAND_STRATEGIES)
    then strategy else "lowest-price"
  }

  // ---------------------------------------------------------------- interleaving availability zones

  /** A subnet of unknown zone counts as a zone of its own. */
  function Zone(s: Subnet): (zone: string)
    ensures s.azId == Some(zone) || (s.azId == None && zone == s.subnetId)
  {
    if s.azId.Some? then s.azId.value else s.subnetId
  }

  /** The subnets of a zone, in order. */
  ghost function InZone(zone: string, s: seq<Subnet>): (r: seq<Subnet>)
    ensures |r| <= |s|
    ensures forall i :: 0 <= i < |r| ==> Zone(r[i]) == zone
  {
    if s == [] then []
    else
      var last := s[|s| - 1];
      InZone(zone, s[..|s| - 1]) + (if Zone(last) == zone then [last] else [])
  }

  /** How many subnets of the same zone stand before position i. */
  ghost function RankInZone(s: seq<Subnet>, i: nat): nat
    requires i < |s|
  {
    |InZone(Zone(s[i]), s[..i])|
  }

  /** The zones in the order in which they first come up. */
  ghost function ZonesOf(subnets: seq<Subnet>): seq<string> {
    if subnets == [] then []
    else
      var zones, last := ZonesOf(subnets[..|subnets| - 1]), Zone(subnets[|subnets| - 1]);
      if last in zones then zones else zones + [last]
  }

  ghost function Place(zones: seq<string>, zone: string): (i: nat)
    ensures i <= |zones| && (i < |zones| ==> zones[i] == zone)
    ensures forall j :: 0 <= j < i ==> zones[j] != zone
  {
    if zones == [] || zones[0] == zone then 0 else 1 + Place(zones[1..], zone)
  }

  /** Rows follow each other, and within a row the zones stand in their own order. */
  ghost predicate InRows(zones: seq<string>, r: seq<Subnet>) {
    && (forall i, j :: 0 <= i < j < |r| ==> RankInZone(r, i) <= RankInZone(r, j))
    && (forall i, j :: 0 <= i < j < |r| && RankInZone(r, i) == RankInZone(r, j) ==>
          Place(zones, Zone(r[i])) < Place(zones, Zone(r[j])))
  }

  /** Each zone keeps its subnets in order, so nothing is lost, and the zones take turns. */
  ghost predicate TakesTurns(subnets: seq<Subnet>, r: seq<Subnet>) {
    && (forall zone :: InZone(zone, r) == InZone(zone, subnets))
    && InRows(ZonesOf(subnets), r)
  }

  lemma CountSnoc<T>(s: seq<T>, last: T, x: T)
    ensures multiset(s + [last])[x] == multiset(s)[x] + (if last == x then 1 else 0)
  {
  }

  lemma ZoneCountStep(zone: string, init: seq<Subnet>, last: Subnet, x: Subnet)
    requires Zone(x) == zone && multiset(InZone(zone, init))[x] == multiset(init)[x]
    ensures multiset(InZone(zone, init + [last]))[x] == multiset(init + [last])[x]
  {
    InZoneSnoc(zone, init, last);
    CountSnoc(init, last, x);
    if Zone(last) == zone {
      CountSnoc(InZone(zone, init), last, x);
    }
  }

  lemma {:induction false} ZonesDetermineCount(zone: string, s: seq<Subnet>, x: Subnet)
    requires Zone(x) == zone
    ensures multiset(InZone(zone, s))[x] == multiset(s)[x]
  {
    if s != [] {
      var init, last := s[..|s| - 1], s[|s| - 1];
      assert s == init + [last];
      ZonesDetermineCount(zone, init, x);
      ZoneCountStep(zone, init, last, x);
    }
  }

  lemma SameLength<T>(a: seq<T>, b: seq<T>)
    requires forall x :: multiset(a)[x] == multiset(b)[x]
    ensures multiset(a) == multiset(b) && |a| == |b|
  {
    assert multiset(a) == multiset(b);
    assert |multiset(a)| == |a| && |multiset(b)| == |b|;
  }

  lemma ZonesDetermineMultiset(a: seq<Subnet>, b: seq<Subnet>)
    requires forall zone :: InZone(zone, a) == InZone(zone, b)
    ensures multiset(a) == multiset(b) && |a| == |b|
  {
    forall x ensures multiset(a)[x] == multiset(b)[x] {
      ZonesDetermineCount(Zone(x), a, x);
      ZonesDetermineCount(Zone(x), b, x);
      assert InZone(Zone(x), a) == InZone(Zone(x), b);
    }
    SameLength(a, b);
  }

  lemma InZoneSnoc(zone: string, s: seq<Subnet>, x: Subnet)
    ensures InZone(zone, s + [x]) == InZone(zone, s) + (if Zone(x) == zone then [x] else [])
  {
    assert (s + [x])[..|s|] == s;
  }

  lemma RankSnoc(s: seq<Subnet>, x: Subnet, i: nat)
    requires i <= |s|
    ensures RankInZone(s + [x], i) == if i < |s| then RankInZone(s, i) else |InZone(Zone(x), s)|
  {
    assert (s + [x])[..i] == s[..i];
    assert s[..|s|] == s;
  }

  /** The groups of the subnets by zone, and the zones in the order in which they come up. */
  ghost predicate IsGrouping(subnets: seq<Subnet>, zones: seq<string>, groups: map<string, seq<Subnet>>) {
    && zones == ZonesOf(subnets) && Distinct(zones)
    && (forall zone :: zone in zones <==> zone in groups)
    && (forall zone :: zone in groups ==> groups[zone] == InZone(zone, subnets))
    && (forall zone :: zone !in groups ==> InZone(zone, subnets) == [])
  }

  lemma GroupingStep(subnets: seq<Subnet>, zones: seq<string>, groups: map<string, seq<Subnet>>, s: Subnet)
    requires IsGrouping(subnets, zones, groups)
    ensures IsGrouping(subnets + [s],
                       if Zone(s) in groups then zones else zones + [Zone(s)],
                       groups[Zone(s) := (if Zone(s) in groups then groups[Zone(s)] else []) + [s]])
  {
    assert (subnets + [s])[..|subnets|] == subnets;
    forall zone ensures InZone(zone, subnets + [s]) == InZone(zone, subnets) + (if Zone(s) == zone then [s] else []) {
      InZoneSnoc(zone, subnets, s);
    }
  }

  method GroupByZone(subnets: seq<Subnet>) returns (zones: seq<string>, groups: map<string, seq<Subnet>>)
    ensures IsGrouping(subnets, zones, groups)
  {
    zones, groups := [], map[];
    var i := 0;
    while i < |subnets|
      invariant i <= |subnets| && IsGrouping(subnets[..i], zones, groups)
    {
      var s := subnets[i];
      assert subnets[..i + 1] == subnets[..i] + [s];
      GroupingStep(subnets[..i], zones, groups, s);
      if Zone(s) !in groups {
        zones := zones + [Zone(s)];
      }
      groups := groups[Zone(s) := (if Zone(s) in groups then groups[Zone(s)] else []) + [s]];
      i := i + 1;
    }
    assert subnets[..i] == subnets;
  }

  /** After `row` rounds every zone has placed its first `row` subnets. */
  ghost predicate PlacedRows(subnets: seq<Subnet>, r: seq<Subnet>, row: nat) {
    forall zone :: InZone(zone, r) == InZone(zone, subnets)[..Min(row, |InZone(zone, subnets)|)]
  }

  lemma PrefixCounts<T>(a: seq<T>, b: seq<T>, x: T)
    requires a <= b
    ensures multiset(a)[x] <= multiset(b)[x]
    ensures multiset(a) == multiset(b) ==> a == b
  {
    assert b == a + b[|a|..];
    assert |multiset(a)| == |a| && |multiset(b)| == |b|;
  }

  lemma SameZoneMultiset(zone: string, a: seq<Subnet>, b: seq<Subnet>)
    requires multiset(a) == multiset(b)
    ensures multiset(InZone(zone, a)) == multiset(InZone(zone, b))
  {
    forall x ensures multiset(InZone(zone, a))[x] == multiset(InZone(zone, b))[x] {
      if Zone(x) == zone {
        ZonesDetermineCount(zone, a, x);
        ZonesDetermineCount(zone, b, x);
      } else {
        assert x !in InZone(zone, a) && x !in InZone(zone, b);
      }
    }
  }

  lemma PlacedAreListed(subnets: seq<Subnet>, r: seq<Subnet>, row: nat, x: Subnet)
    requires PlacedRows(subnets, r, row)
    ensures multiset(r)[x] <= multiset(subnets)[x]
  {
    ZonesDetermineCount(Zone(x), r, x);
    ZonesDetermineCount(Zone(x), subnets, x);
    PrefixCounts(InZone(Zone(x), r), InZone(Zone(x), subnets), x);
  }

  /** As many of the same things, and as many in all, is all of them. */
  lemma SubCount<T>(a: seq<T>, b: seq<T>)
    requires forall x :: multiset(a)[x] <= multiset(b)[x]
    ensures |a| <= |b|
    ensures |a| == |b| ==> multiset(a) == multiset(b)
  {
    var missing := multiset(b) - multiset(a);
    assert multiset(b) == multiset(a) + missing;
    assert |multiset(b)| == |b| && |multiset(a)| == |a|;
  }

  /** Once as many subnets are placed as there are, every zone is placed completely. */
  lemma AllPlaced(subnets: seq<Subnet>, r: seq<Subnet>, row: nat)
    requires PlacedRows(subnets, r, row)
    ensures |r| <= |subnets|
    ensures |r| == |subnets| ==> forall zone :: InZone(zone, r) == InZone(zone, subnets)
  {
    forall x ensures multiset(r)[x] <= multiset(subnets)[x] {
      PlacedAreListed(subnets, r, row, x);
    }
    SubCount(r, subnets);
    if |r| == |subnets| {
      forall zone ensures InZone(zone, r) == InZone(zone, subnets) {
        SameZoneMultiset(zone, r, subnets);
        if r != [] {
          PrefixCounts(InZone(zone, r), InZone(zone, subnets), r[0]);
        }
      }
    }
  }

  /** As long as a subnet is missing, there is a next row to place. */
  lemma RowsRemain(subnets: seq<Subnet>, r: seq<Subnet>, row: nat)
    requires PlacedRows(subnets, r, row) && |r| < |subnets|
    ensures row < |subnets|
  {
    if row >= |subnets| {
      forall zone ensures InZone(zone, r) == InZone(zone, subnets) {
        assert |InZone(zone, subnets)| <= |subnets|;
      }
      ZonesDetermineMultiset(r, subnets);
    }
  }

  /** The subnets placed so far go round by round, and no zone is ahead of round `rounds`. */
  ghost predicate RoundByRound(zones: seq<string>, r: seq<Subnet>, rounds: nat) {
    InRows(zones, r) && forall i :: 0 <= i < |r| ==> RankInZone(r, i) < rounds
  }

  /** In the row that is being placed, only the first `k` zones have had their turn. */
  ghost predicate RowUpTo(zones: seq<string>, r: seq<Subnet>, row: nat, k: nat) {
    forall i :: 0 <= i < |r| && RankInZone(r, i) == row ==> Place(zones, Zone(r[i])) < k
  }

  lemma RanksAfter(r: seq<Subnet>, x: Subnet, row: nat)
    requires |InZone(Zone(x), r)| == row
    ensures forall i :: 0 <= i < |r| ==> RankInZone(r + [x], i) == RankInZone(r, i) && (r + [x])[i] == r[i]
    ensures RankInZone(r + [x], |r|) == row && (r + [x])[|r|] == x
  {
    forall i | 0 <= i <= |r| ensures RankInZone(r + [x], i) == if i < |r| then RankInZone(r, i) else row {
      RankSnoc(r, x, i);
    }
  }

  lemma RanksStayOrdered(zones: seq<string>, r: seq<Subnet>, x: Subnet, row: nat)
    requires RoundByRound(zones, r, row + 1) && |InZone(Zone(x), r)| == row
    ensures forall i, j :: 0 <= i < j < |r + [x]| ==> RankInZone(r + [x], i) <= RankInZone(r + [x], j)
  {
    RanksAfter(r, x, row);
  }

  lemma TiesStayInOrder(zones: seq<string>, r: seq<Subnet>, x: Subnet, row: nat, i: nat, j: nat)
    requires RoundByRound(zones, r, row + 1) && |InZone(Zone(x), r)| == row
    requires RowUpTo(zones, r, row, Place(zones, Zone(x)))
    requires i < j < |r + [x]| && RankInZone(r + [x], i) == RankInZone(r + [x], j)
    ensures Place(zones, Zone((r + [x])[i])) < Place(zones, Zone((r + [x])[j]))
  {
    RanksAfter(r, x, row);
    assert RankInZone(r + [x], i) == RankInZone(r, i);
    if j < |r| {
      assert RankInZone(r + [x], j) == RankInZone(r, j);
    }
  }

  lemma PlaceNext(zones: seq<string>, r: seq<Subnet>, x: Subnet, row: nat, k: nat)
    requires RoundByRound(zones, r, row + 1) && |InZone(Zone(x), r)| == row
    requires k < |zones| && Zone(x) == zones[k] && Distinct(zones) && RowUpTo(zones, r, row, k)
    ensures RoundByRound(zones, r + [x], row + 1) && RowUpTo(zones, r + [x], row, k + 1)
  {
    assert Place(zones, Zone(x)) == k;
    RanksStayOrdered(zones, r, x, row);
    var more := r + [x];
    forall i, j | 0 <= i < j < |more| && RankInZone(more, i) == RankInZone(more, j)
      ensures Place(zones, Zone(more[i])) < Place(zones, Zone(more[j]))
    {
      TiesStayInOrder(zones, r, x, row, i, j);
    }
    RanksAfter(r, x, row);
  }

  /** The zones in `done` have placed row + 1 subnets, the others `row`. */
  ghost predicate MidRow(subnets: seq<Subnet>, r: seq<Subnet>, row: nat, done: seq<string>) {
    forall zone :: InZone(zone, r) == Placed(subnets, row, done, zone)
  }

  ghost function Placed(subnets: seq<Subnet>, row: nat, done: seq<string>, zone: string): seq<Subnet> {
    InZone(zone, subnets)[..Min(if zone in done then row + 1 else row, |InZone(zone, subnets)|)]
  }

  lemma PlacedNext(subnets: seq<Subnet>, row: nat, done: seq<string>, zone: string, z: string)
    requires zone !in done
    ensures Placed(subnets, row, done + [zone], z)
            == Placed(subnets, row, done, z)
               + (if z == zone && row < |InZone(zone, subnets)| then [InZone(zone, subnets)[row]] else [])
  {
  }

  lemma MidRowStep(subnets: seq<Subnet>, r: seq<Subnet>, row: nat, done: seq<string>, zone: string)
    requires MidRow(subnets, r, row, done) && zone !in done
    ensures row >= |InZone(zone, subnets)| ==> MidRow(subnets, r, row, done + [zone])
    ensures row < |InZone(zone, subnets)| ==>
              && MidRow(subnets, r + [InZone(zone, subnets)[row]], row, done + [zone])
              && |InZone(zone, r)| == row
  {
    var column := InZone(zone, subnets);
    forall z ensures row >= |column| ==> InZone(z, r) == Placed(subnets, row, done + [zone], z)
             ensures row < |column| ==> InZone(z, r + [column[row]]) == Placed(subnets, row, done + [zone], z) {
      PlacedNext(subnets, row, done, zone, z);
      if row < |column| {
        InZoneSnoc(z, r, column[row]);
      }
    }
  }

  /** The first `k` zones have had their turn in this row. */
  ghost predicate MidRound(subnets: seq<Subnet>, zones: seq<string>, r: seq<Subnet>, row: nat, k: nat)
    requires k <= |zones|
  {
    MidRow(subnets, r, row, zones[..k]) && RoundByRound(zones, r, row + 1) && RowUpTo(zones, r, row, k)
  }

  lemma NextTurn(subnets: seq<Subnet>, zones: seq<string>, r: seq<Subnet>, row: nat, k: nat)
    requires Distinct(zones) && k < |zones| && MidRound(subnets, zones, r, row, k)
    ensures var column := InZone(zones[k], subnets);
            MidRound(subnets, zones, if row < |column| then r + [column[row]] else r, row, k + 1)
  {
    var column := InZone(zones[k], subnets);
    assert zones[..k + 1] == zones[..k] + [zones[k]];
    assert zones[k] !in zones[..k];
    MidRowStep(subnets, r, row, zones[..k], zones[k]);
    if row < |column| {
      PlaceNext(zones, r, column[row], row, k);
    }
  }

  /** The inner loop: one subnet of every zone that still has one. */
  method AppendRow(subnets: seq<Subnet>, zones: seq<string>, groups: map<string, seq<Subnet>>, row: nat, placed: seq<Subnet>)
    returns (r: seq<Subnet>)
    requires IsGrouping(subnets, zones, groups)
    requires PlacedRows(subnets, placed, row) && RoundByRound(zones, placed, row)
    ensures PlacedRows(subnets, r, row + 1) && RoundByRound(zones, r, row + 1)
  {
    r := placed;
    var k := 0;
    while k < |zones|
      invariant k <= |zones| && MidRound(subnets, zones, r, row, k)
    {
      var column := groups[zones[k]];
      NextTurn(subnets, zones, r, row, k);
      if row < |column| {
        r := r + [column[row]];
      }
      k := k + 1;
    }
    assert zones[..k] == zones;
    RowIsComplete(subnets, zones, groups, r, row);
  }

  lemma RowIsComplete(subnets: seq<Subnet>, zones: seq<string>, groups: map<string, seq<Subnet>>, r: seq<Subnet>, row: nat)
    requires IsGrouping(subnets, zones, groups) && MidRow(subnets, r, row, zones)
    ensures PlacedRows(subnets, r, row + 1)
  {
    forall zone ensures InZone(zone, r) == InZone(zone, subnets)[..Min(row + 1, |InZone(zone, subnets)|)] {
      assert InZone(zone, r) == Placed(subnets, row, zones, zone);
    }
  }

  /** Round robin: the k-th subnets of all zones, in the zones' order, come before any zone's (k+1)-th. */
  method InterleaveByAz(subnets: seq<Subnet>) returns (r: seq<Subnet>)
    ensures TakesTurns(subnets, r)
    ensures multiset(r) == multiset(subnets)
  {
    var zones, groups := GroupByZone(subnets);
    r := [];
    var row := 0;
    while |r| < |subnets|
      invariant PlacedRows(subnets, r, row) && RoundByRound(zones, r, row)
      decreases |subnets| - row
    {
      RowsRemain(subnets, r, row);
      r := AppendRow(subnets, zones, groups, row, r);
      row := row + 1;
    }
    AllPlaced(subnets, r, row);
    ZonesDetermineMultiset(r, subnets);
  }

  // ---------------------------------------------------------------- comparing pairs

  /** The numbers a comparator subtracts: missing scores count as -Infinity, missing prices as Infinity. */
  datatype Number = Finite(value: real) | PlusInfinity | MinusInfinity | NaN

  function Minus(x: Number, y: Number): Number {
    match (x, y)
    case (Finite(a), Finite(b)) => Finite(a - b)
    case (NaN, _) => NaN
    case (_, NaN) => NaN
    case (PlusInfinity, PlusInfinity) => NaN
    case (MinusInfinity, MinusInfinity) => NaN
    case (PlusInfinity, _) => PlusInfinity
    case (_, MinusInfinity) => PlusInfinity
    case (MinusInfinity, _) => MinusInfinity
    case (_, PlusInfinity) => MinusInfinity
  }

  predicate Positive(x: Number) {
    x.PlusInfinity? || (x.Finite? && x.value > 0.0)
  }

  /** The loop over comparators skips a result that is zero or NaN. */
  predicate Decides(x: Number) {
    !x.NaN? && x != Finite(0.0)
  }

  datatype Comparator = ByScore | ByPrice | ByPriority

  function IndexOf(types: seq<string>, t: string): (r: int)
    ensures t !in types ==> r == -1
    ensures t in types ==> 0 <= r < |types| && types[r] == t && t !in types[..r]
  {
    if types == [] then -1
    else if types[0] == t then 0
    else var i := IndexOf(types[1..], t); if i < 0 then i else i + 1
  }

  /** A type without a configured priority counts with its position. */
  function TypePriority(input: Input, t: string): (r: int)
    ensures t !in input.instanceTypePriorities && t in input.instanceTypes ==>
              0 <= r < |input.instanceTypes| && input.instanceTypes[r] == t && t !in input.instanceTypes[..r]
    ensures forall priority :: (t, priority) in input.instanceTypePriorities.Items ==> r == priority
  {
    if t in input.instanceTypePriorities then input.instanceTypePriorities[t] else IndexOf(input.instanceTypes, t)
  }

  function Compare(input: Input, c: Comparator, a: Pair, b: Pair): Number {
    match c
    case ByScore => Minus(if b.score.Some? then Finite(b.score.value) else MinusInfinity,
                          if a.score.Some? then Finite(a.score.value) else MinusInfinity)
    case ByPrice => Minus(if a.price.Some? then Finite(a.price.value) else PlusInfinity,
                          if b.price.Some? then Finite(b.price.value) else PlusInfinity)
    case ByPriority => Finite((TypePriority(input, a.instanceType) - TypePriority(input, b.instanceType)) as real)
  }

  function Comparators(strategy: string): seq<Comparator> {
    if strategy == "capacity-optimized" then [ByScore]
    else if strategy == "capacity-optimized-prioritized" then [ByScore, ByPriority]
    else if strategy == "price-capacity-optimized" then [ByScore, ByPrice]
    else if strategy == "lowest-price" then [ByPrice]
    else []
  }

  /** The pair comparator: the first comparator that decides. */
  function CompareAll(input: Input, cs: seq<Comparator>, a: Pair, b: Pair): Number {
    if cs == [] then Finite(0.0)
    else
      var result := Compare(input, cs[0], a, b);
      if Decides(result) then result else CompareAll(input, cs[1..], a, b)
  }

  /** a may stand before b. */
  predicate RanksBefore(input: Input, cs: seq<Comparator>, a: Pair, b: Pair) {
    !Positive(CompareAll(input, cs, a, b))
  }

  // ---------------------------------------------------------------- what the ranking means

  /** A known score beats an unknown one, and a higher one a lower one. */
  ghost predicate BetterScore(a: Pair, b: Pair) {
    a.score != None && (b.score == None || b.score.value < a.score.value)
  }

  ghost predicate Cheaper(a: Pair, b: Pair) {
    a.price != None && (b.price == None || a.price.value < b.price.value)
  }

  ghost predicate MoreWanted(input: Input, a: Pair, b: Pair) {
    TypePriority(input, a.instanceType) < TypePriority(input, b.instanceType)
  }

  /** The strategy puts a strictly before b. */
  ghost predicate Outranks(input: Input, strategy: string, a: Pair, b: Pair) {
    if strategy == "capacity-optimized" then BetterScore(a, b)
    else if strategy == "capacity-optimized-prioritized" then BetterScore(a, b) || (a.score == b.score && MoreWanted(input, a, b))
    else if strategy == "price-capacity-optimized" then BetterScore(a, b) || (a.score == b.score && Cheaper(a, b))
    else strategy == "lowest-price" && Cheaper(a, b)
  }

  /** The comparators of a strategy rank as the strategy says. */
  lemma RanksAsStrategySays(input: Input, strategy: string, a: Pair, b: Pair)
    ensures RanksBefore(input, Comparators(strategy), a, b) <==> !Outranks(input, strategy, b, a)
  {
    CompareOne(input, ByScore, a, b);
    CompareOne(input, ByPrice, a, b);
    CompareOne(input, ByPriority, a, b);
    CompareTwo(input, ByScore, ByPriority, a, b);
    CompareTwo(input, ByScore, ByPrice, a, b);
  }

  lemma CompareOne(input: Input, c: Comparator, a: Pair, b: Pair)
    ensures Positive(CompareAll(input, [c], a, b)) <==> Positive(Compare(input, c, a, b))
  {
    assert [c][1..] == [];
  }

  lemma CompareTwo(input: Input, c: Comparator, d: Comparator, a: Pair, b: Pair)
    ensures Positive(CompareAll(input, [c, d], a, b)) <==>
              if Decides(Compare(input, c, a, b)) then Positive(Compare(input, c, a, b)) else Positive(Compare(input, d, a, b))
  {
    assert [c, d][1..] == [d];
    CompareOne(input, d, a, b);
  }

  /** No pair outranks one before it. */
  ghost predicate StandByRank(input: Input, strategy: string, pairs: seq<Pair>) {
    forall i, j :: 0 <= i < j < |pairs| ==> !Outranks(input, strategy, pairs[j], pairs[i])
  }

  lemma SortedStandByRank(input: Input, strategy: string, pairs: seq<Pair>)
    requires SortedBy((a: Pair, b: Pair) => RanksBefore(input, Comparators(strategy), a, b), pairs)
    ensures StandByRank(input, strategy, pairs)
  {
    forall i, j | 0 <= i < j < |pairs| ensures !Outranks(input, strategy, pairs[j], pairs[i]) {
      RanksAsStrategySays(input, strategy, pairs[i], pairs[j]);
    }
  }

  /** One comparator orders by a key: it never contradicts itself and is transitive, missing values included. */
  lemma ComparatorIsConsistent(input: Input, c: Comparator, x: Pair, y: Pair, z: Pair)
    ensures Positive(Compare(input, c, x, y)) <==> Decides(Compare(input, c, y, x)) && !Positive(Compare(input, c, y, x))
    ensures Decides(Compare(input, c, x, y)) <==> Decides(Compare(input, c, y, x))
    ensures !Positive(Compare(input, c, x, y)) && !Positive(Compare(input, c, y, z)) ==> !Positive(Compare(input, c, x, z))
    ensures !Positive(Compare(input, c, x, y)) && !Positive(Compare(input, c, y, z)) ==>
              Decides(Compare(input, c, x, z)) || (!Decides(Compare(input, c, x, y)) && !Decides(Compare(input, c, y, z)))
  {
  }

  lemma {:induction false} RanksBeforeIsPreorder(input: Input, cs: seq<Comparator>, x: Pair, y: Pair, z: Pair)
    ensures RanksBefore(input, cs, x, y) || RanksBefore(input, cs, y, x)
    ensures RanksBefore(input, cs, x, y) && RanksBefore(input, cs, y, z) ==> RanksBefore(input, cs, x, z)
  {
    if cs != [] {
      RanksBeforeIsPreorder(input, cs[1..], x, y, z);
      ComparatorIsConsistent(input, cs[0], x, y, z);
      ComparatorIsConsistent(input, cs[0], y, x, z);
    }
  }

  /** The ranking comparator is a total preorder, with any scores and prices missing. */
  lemma RankingIsTotalPreorder(input: Input, cs: seq<Comparator>)
    ensures TotalPreorder((a: Pair, b: Pair) => RanksBefore(input, cs, a, b))
  {
    forall x: Pair, y: Pair ensures RanksBefore(input, cs, x, y) || RanksBefore(input, cs, y, x) {
      RanksBeforeIsPreorder(input, cs, x, y, x);
    }
    forall x: Pair, y: Pair, z: Pair | RanksBefore(input, cs, x, y) && RanksBefore(input, cs, y, z)
      ensures RanksBefore(input, cs, x, z)
    {
      RanksBeforeIsPreorder(input, cs, x, y, z);
    }
  }

  // ---------------------------------------------------------------- the plan

  function FlatMap<A, B>(f: A -> seq<B>, s: seq<A>): seq<B> {
    if s == [] then [] else f(s[0]) + FlatMap(f, s[1..])
  }

  lemma {:induction false} FlatMapAppend<A, B>(f: A -> seq<B>, a: seq<A>, b: seq<A>)
    ensures FlatMap(f, a + b) == FlatMap(f, a) + FlatMap(f, b)
  {
    if a == [] {
      assert a + b == b;
    } else {
      assert (a + b)[1..] == a[1..] + b;
      FlatMapAppend(f, a[1..], b);
    }
  }

  lemma TakeOut<A>(b: seq<A>, i: nat, a: seq<A>)
    requires i < |b| && a != [] && a[0] == b[i] && multiset(a) == multiset(b)
    ensures multiset(a[1..]) == multiset(b[..i] + b[i + 1..])
    ensures b == b[..i] + ([b[i]] + b[i + 1..])
  {
    assert b == b[..i] + ([b[i]] + b[i + 1..]);
    assert a == [a[0]] + a[1..];
    var rest := multiset(b[..i] + b[i + 1..]);
    assert multiset(b) == rest + multiset{b[i]};
    assert multiset(a) == multiset(a[1..]) + multiset{b[i]};
    assert multiset(a[1..]) == multiset(a) - multiset{b[i]} == rest;
  }

  lemma FlatMapSplit<A, B>(g: A -> seq<B>, b: seq<A>, i: nat)
    requires i < |b|
    ensures multiset(FlatMap(g, b)) == multiset(g(b[i])) + multiset(FlatMap(g, b[..i] + b[i + 1..]))
  {
    var front, rest := b[..i], b[i + 1..];
    assert b == front + ([b[i]] + rest);
    FlatMapAppend(g, front, [b[i]] + rest);
    FlatMapAppend(g, front, rest);
    assert ([b[i]] + rest)[1..] == rest;
    var x, y, z := FlatMap(g, front), g(b[i]), FlatMap(g, rest);
    assert FlatMap(g, b) == x + (y + z) && FlatMap(g, front + rest) == x + z;
    assert multiset(x + (y + z)) == multiset(x) + multiset(y) + multiset(z);
  }

  lemma {:induction false} FlatMapPermutes<A, B>(f: A -> seq<B>, g: A -> seq<B>, a: seq<A>, b: seq<A>)
    requires multiset(a) == multiset(b)
    requires forall x :: x in a ==> multiset(f(x)) == multiset(g(x))
    ensures multiset(FlatMap(f, a)) == multiset(FlatMap(g, b))
  {
    if a == [] {
      assert |multiset(b)| == 0;
      assert b == [];
    } else {
      assert a[0] in multiset(b);
      var i :| 0 <= i < |b| && b[i] == a[0];
      TakeOut(b, i, a);
      FlatMapSplit(g, b, i);
      FlatMapPermutes(f, g, a[1..], b[..i] + b[i + 1..]);
    }
  }

  /** What is known of a type in a zone: nothing at all of an unnamed zone. */
  ghost predicate Carries(p: Pair, signals: Signals) {
    match p.azId
    case None => p.score == None && p.price == None
    case Some(zone) =>
      && zone != ""
      && (forall x :: p.score == Some(x) <==> (zone, x) in signals.azScores.Items)
      && (forall x :: p.price == Some(x) <==> ((p.instanceType, zone), x) in signals.prices.Items)
  }

  function MakePair(signals: Signals, t: string, s: Subnet): (p: Pair)
    ensures p.instanceType == t && p.subnetId == s.subnetId && Carries(p, signals)
    ensures s.azId != Some("") ==> p.azId == s.azId
    ensures s.azId == Some("") ==> p.azId == None
  {
    var known := s.azId.Some? && s.azId.value != "";
    Pair(t, s.subnetId,
         if known then s.azId else None,
         if known && s.azId.value in signals.azScores then Some(signals.azScores[s.azId.value]) else None,
         if known && (t, s.azId.value) in signals.prices then Some(signals.prices[(t, s.azId.value)]) else None)
  }

  /** Every type with every subnet, types outermost. */
  function Product(signals: Signals, types: seq<string>, subnets: seq<Subnet>): seq<Pair> {
    FlatMap((t: string) => FlatMap((s: Subnet) => [MakePair(signals, t, s)], subnets), types)
  }

  /** The pair at each position of the product: types outermost. */
  lemma ProductAt(signals: Signals, types: seq<string>, subnets: seq<Subnet>, i: nat, j: nat)
    requires i < |types| && j < |subnets|
    ensures i * |subnets| + j < |Product(signals, types, subnets)| == |types| * |subnets|
    ensures Product(signals, types, subnets)[i * |subnets| + j] == MakePair(signals, types[i], subnets[j])
  {
    var f := (t: string) => FlatMap((s: Subnet) => [MakePair(signals, t, s)], subnets);
    var front, rest := types[..i], types[i + 1..];
    assert types == front + ([types[i]] + rest);
    FlatMapAppend(f, front, [types[i]] + rest);
    assert ([types[i]] + rest)[1..] == rest;
    ProductLength(signals, front, subnets);
    ProductLength(signals, types, subnets);
    RowAt(signals, types[i], subnets, j);
    assert Product(signals, types, subnets) == Product(signals, front, subnets) + (f(types[i]) + Product(signals, rest, subnets));
  }

  lemma {:induction false} RowAt(signals: Signals, t: string, subnets: seq<Subnet>, j: nat)
    requires j < |subnets|
    ensures var row := FlatMap((s: Subnet) => [MakePair(signals, t, s)], subnets);
            |row| == |subnets| && row[j] == MakePair(signals, t, subnets[j])
  {
    if |subnets| > 1 {
      RowAt(signals, t, subnets[1..], if j == 0 then 0 else j - 1);
    }
  }

  lemma {:induction false} ProductLength(signals: Signals, types: seq<string>, subnets: seq<Subnet>)
    requires subnets != []
    ensures |Product(signals, types, subnets)| == |types| * |subnets|
  {
    if types != [] {
      RowAt(signals, types[0], subnets, 0);
      ProductLength(signals, types[1..], subnets);
    }
  }

  lemma ProductPermutes(signals: Signals, types: seq<string>, types': seq<string>, subnets: seq<Subnet>, subnets': seq<Subnet>)
    requires multiset(types) == multiset(types') && multiset(subnets) == multiset(subnets')
    ensures multiset(Product(signals, types, subnets)) == multiset(Product(signals, types', subnets'))
  {
    forall t: string | t in types
      ensures multiset(FlatMap((s: Subnet) => [MakePair(signals, t, s)], subnets))
           == multiset(FlatMap((s: Subnet) => [MakePair(signals, t, s)], subnets'))
    {
      FlatMapPermutes((s: Subnet) => [MakePair(signals, t, s)], (s: Subnet) => [MakePair(signals, t, s)], subnets, subnets');
    }
    FlatMapPermutes((t: string) => FlatMap((s: Subnet) => [MakePair(signals, t, s)], subnets),
                    (t: string) => FlatMap((s: Subnet) => [MakePair(signals, t, s)], subnets'), types, types');
  }

  predicate Prioritized(strategy: string) {
    strategy == "prioritized" || strategy == "capacity-optimized-prioritized"
  }

  function OrderedTypes(input: Input): seq<string> {
    if Prioritized(EffectiveStrategy(input.capacityType, input.strategy))
    then Sort((a: string, b: string) => TypePriority(input, a) <= TypePriority(input, b), input.instanceTypes)
    else input.instanceTypes
  }

  ghost predicate UsesPriorities(input: Input) {
    if input.capacityType == "spot" then input.strategy == "capacity-optimized-prioritized" else input.strategy == "prioritized"
  }

  /** Under a prioritized strategy types stand by priority, equal priorities in configured order; else as configured. */
  lemma TypesStandByPriority(input: Input)
    ensures var le := (a: string, b: string) => TypePriority(input, a) <= TypePriority(input, b);
            UsesPriorities(input) ==> SortedBy(le, OrderedTypes(input)) && KeepsTies(le, input.instanceTypes, OrderedTypes(input))
    ensures !UsesPriorities(input) ==> OrderedTypes(input) == input.instanceTypes
  {
    SortIsStable((a: string, b: string) => TypePriority(input, a) <= TypePriority(input, b), input.instanceTypes);
  }

  /** The base order of the pairs and their ranking, of which the plan is the stable sort. */
  ghost predicate IsPlan(input: Input, subnets: seq<Subnet>, plan: Plan) {
    var strategy := EffectiveStrategy(input.capacityType, input.strategy);
    var base := Product(input.signals, OrderedTypes(input), subnets);
    var le := (a: Pair, b: Pair) => RanksBefore(input, Comparators(strategy), a, b);
    && plan.effectiveStrategy == strategy
    && plan.spread == (input.capacityType == "spot")
    && (if plan.spread then TakesTurns(input.subnets, subnets) && SortedBy(le, plan.pairs) && KeepsTies(le, base, plan.pairs)
        else subnets == input.subnets && plan.pairs == base)
  }

  method PlanWarmPlacement(input: Input) returns (plan: Plan)
    ensures exists subnets :: IsPlan(input, subnets, plan)
    ensures multiset(plan.pairs) == multiset(Product(input.signals, input.instanceTypes, input.subnets))
  {
    var strategy := EffectiveStrategy(input.capacityType, input.strategy);
    var types := OrderedTypes(input);
    SortIsPermutation((a: string, b: string) => TypePriority(input, a) <= TypePriority(input, b), input.instanceTypes);
    if input.capacityType != "spot" {
      plan := Plan(strategy, false, Product(input.signals, types, input.subnets));
      ProductPermutes(input.signals, types, input.instanceTypes, input.subnets, input.subnets);
      assert IsPlan(input, input.subnets, plan);
      return;
    }
    var turns := InterleaveByAz(input.subnets);
    var base := Product(input.signals, types, turns);
    var le := (a: Pair, b: Pair) => RanksBefore(input, Comparators(strategy), a, b);
    RankingIsTotalPreorder(input, Comparators(strategy));
    SortIsStable(le, base);
    SortIsPermutation(le, base);
    ProductPermutes(input.signals, types, input.instanceTypes, turns, input.subnets);
    plan := Plan(strategy, true, Sort(le, base));
    assert IsPlan(input, turns, plan);
  }

  /** EC2 knows five strategies for spot capacity and two for on-demand capacity. */
  ghost predicate IsAllowed(input: Input) {
    || input.strategy == "lowest-price"
    || (if input.capacityType == "spot" then
          || input.strategy == "diversified" || input.strategy == "capacity-optimized"
          || input.strategy == "capacity-optimized-prioritized" || input.strategy == "price-capacity-optimized"
        else input.strategy == "prioritized")
  }

  lemma OnlyAllowedIsUsed(input: Input)
    ensures EffectiveStrategy(input.capacityType, input.strategy) == if IsAllowed(input) then input.strategy else "lowest-price"
  {
  }

  /** A plan spreads over spot pairs that stand as the configured strategy ranks them, or the lowest price if it is unknown. */
  lemma PlanFollowsStrategy(input: Input, subnets: seq<Subnet>, plan: Plan)
    requires IsPlan(input, subnets, plan)
    ensures plan.effectiveStrategy == if IsAllowed(input) then input.strategy else "lowest-price"
    ensures plan.spread <==> input.capacityType == "spot"
    ensures plan.spread ==> StandByRank(input, plan.effectiveStrategy, plan.pairs)
  {
    OnlyAllowedIsUsed(input);
    if plan.spread {
      SortedStandByRank(input, plan.effectiveStrategy, plan.pairs);
    }
  }

  /** The ranking, with the base order it refines, leaves no choice: two plans for one base order are the same. */
  lemma PlanIsDetermined(input: Input, subnets: seq<Subnet>, p: Plan, q: Plan)
    requires IsPlan(input, subnets, p) && IsPlan(input, subnets, q)
    ensures p == q
  {
    if p.spread {
      var strategy := EffectiveStrategy(input.capacityType, input.strategy);
      var le := (a: Pair, b: Pair) => RanksBefore(input, Comparators(strategy), a, b);
      RankingIsTotalPreorder(input, Comparators(strategy));
      StableSortIsUnique(le, p.pairs, q.pairs);
    }
  }

  // ---------------------------------------------------------------- shares

  /** Shares of `count` instances over `slots` ranked pairs: round robin when spreading, all on the first otherwise. */
  function DealWarmShares(count: int, slots: int, spread: bool): seq<int> {
    if slots <= 0 || count <= 0 then seq(Max(slots, 0), _ => 0)
    else if !spread then seq(slots, i => if i == 0 then count else 0)
    else seq(slots, i => count / slots + (if i < count % slots then 1 else 0))
  }

  lemma {:induction false} SumOfEvenShares(s: seq<int>, low: int, extra: nat)
    requires extra <= |s|
    requires forall i :: 0 <= i < |s| ==> s[i] == low + (if i < extra then 1 else 0)
    ensures Sum(s) == |s| * low + extra
  {
    if s != [] {
      SumOfEvenShares(s[1..], low, if extra == 0 then 0 else extra - 1);
    }
  }

  lemma {:induction false} SumOfZeros(s: seq<int>)
    requires forall i :: 0 <= i < |s| ==> s[i] == 0
    ensures Sum(s) == 0
  {
    if s != [] {
      SumOfZeros(s[1..]);
    }
  }

  /** The shares add up to the count exactly, none is negative, and when spreading the first pairs get the odd ones. */
  lemma SharesAddUp(count: int, slots: int, spread: bool)
    requires slots > 0
    ensures var shares := DealWarmShares(count, slots, spread);
            && |shares| == slots
            && Sum(shares) == Max(count, 0)
            && (forall i :: 0 <= i < slots ==> shares[i] >= 0)
            && (spread ==> forall i, j :: 0 <= i < j < slots ==> shares[j] <= shares[i] <= shares[j] + 1)
            && (!spread ==> shares[0] == Max(count, 0))
  {
    var shares := DealWarmShares(count, slots, spread);
    if count <= 0 {
      SumOfZeros(shares);
    } else if spread {
      SumOfEvenShares(shares, count / slots, count % slots);
    } else {
      SumOfZeros(shares[1..]);
    }
  }
}
