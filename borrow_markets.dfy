/**
 * The data behind the Borrow Markets page: collateral types grouped by
 * token ("gem"), one summary row per gem with the range of its stability
 * fees and liquidation ratios and the Dai still available to generate,
 * and the page's two pieces of state, the expanded rows and the
 * previous-value fallback for data that has not arrived yet.
 */
module BorrowMarkets {
  import opened Options
  import opened Symbols
  import opened Grouping
  import opened Aggregates

  /** A collateral type as the data source reports it. */
  datatype CollateralType = CollateralType(
    symbol: string,
    annualStabilityFee: real,
    liquidationRatio: real,
    collateralDebtAvailable: real)

  /** A collateral type together with the Dai that can still be generated against it. */
  datatype RiskProfileRow = RiskProfileRow(data: CollateralType, maxDaiAvailableToGenerate: real)

  /** The summary of one gem: bounds of fees and ratios, total Dai available, its risk profiles. */
  datatype MarketSummary = MarketSummary(
    gem: string,
    minFee: real,
    maxFee: real,
    minRatio: real,
    maxRatio: real,
    totalDaiAvailable: real,
    riskProfiles: seq<RiskProfileRow>)

  /** A summary row as the table shows it: the market and whether its risk profiles are open. */
  datatype MarketRow = MarketRow(market: MarketSummary, expanded: bool)

  /** How a pair of bounds is shown: one value, or "low - high". */
  datatype Bounds = Single(value: real) | Range(low: real, high: real)

  /** The gem of a collateral type, the key the page groups by. */
  function Gem(t: CollateralType): (gem: string)
    ensures Separator !in gem
  {
    GroupKey(t.symbol)
  }

  /** Negative debt available counts as nothing available. */
  function MaxDaiAvailableToGenerate(debtAvailable: real): (dai: real)
    ensures dai >= 0.0 && dai >= debtAvailable
    ensures dai == 0.0 || dai == debtAvailable
  {
    if debtAvailable < 0.0 then 0.0 else debtAvailable
  }

  /** The clamp keeps non-negative amounts, zeroes negative ones, and changes nothing a second time. */
  lemma ClampCases(debtAvailable: real)
    ensures MaxDaiAvailableToGenerate(debtAvailable) == debtAvailable <==> debtAvailable >= 0.0
    ensures MaxDaiAvailableToGenerate(debtAvailable) == 0.0 <==> debtAvailable <= 0.0
    ensures MaxDaiAvailableToGenerate(MaxDaiAvailableToGenerate(debtAvailable))
         == MaxDaiAvailableToGenerate(debtAvailable)
  {
  }

  /** The record the page builds for each collateral type of a group. */
  function Derive(t: CollateralType): (row: RiskProfileRow)
    ensures row.data == t
    ensures row.maxDaiAvailableToGenerate >= 0.0
    ensures t.collateralDebtAvailable < 0.0 ==> row.maxDaiAvailableToGenerate == 0.0
    ensures t.collateralDebtAvailable >= 0.0 ==> row.maxDaiAvailableToGenerate == t.collateralDebtAvailable
  {
    RiskProfileRow(t, MaxDaiAvailableToGenerate(t.collateralDebtAvailable))
  }

  /** The fee, ratio and clamped amount of each row, the lists the page hands to bignumber.js. */
  function Fees(rows: seq<RiskProfileRow>): (fees: seq<real>)
  {
    seq(|rows|, i requires 0 <= i < |rows| => rows[i].data.annualStabilityFee)
  }

  function Ratios(rows: seq<RiskProfileRow>): (ratios: seq<real>)
  {
    seq(|rows|, i requires 0 <= i < |rows| => rows[i].data.liquidationRatio)
  }

  function DaiAvailable(rows: seq<RiskProfileRow>): (amounts: seq<real>)
  {
    seq(|rows|, i requires 0 <= i < |rows| => rows[i].maxDaiAvailableToGenerate)
  }

  /**
   * The summary of one group: its records clamped, the least and greatest
   * fee and ratio among them, and the sum of what they leave available.
   */
  function Summarize(gem: string, members: seq<CollateralType>): (s: MarketSummary)
    requires |members| > 0
    ensures s.gem == gem
    ensures |s.riskProfiles| == |members|
    ensures forall i :: 0 <= i < |members| ==> s.riskProfiles[i] == Derive(members[i])
    ensures forall i :: 0 <= i < |members| ==>
      s.minFee <= members[i].annualStabilityFee <= s.maxFee
    ensures exists i :: 0 <= i < |members| && members[i].annualStabilityFee == s.minFee
    ensures exists i :: 0 <= i < |members| && members[i].annualStabilityFee == s.maxFee
    ensures forall i :: 0 <= i < |members| ==>
      s.minRatio <= members[i].liquidationRatio <= s.maxRatio
    ensures exists i :: 0 <= i < |members| && members[i].liquidationRatio == s.minRatio
    ensures exists i :: 0 <= i < |members| && members[i].liquidationRatio == s.maxRatio
    ensures s.totalDaiAvailable == Sum(DaiAvailable(s.riskProfiles))
    ensures s.totalDaiAvailable >= 0.0
    ensures forall i :: 0 <= i < |members| ==>
      s.riskProfiles[i].maxDaiAvailableToGenerate <= s.totalDaiAvailable
  {
    var rows := seq(|members|, i requires 0 <= i < |members| => Derive(members[i]));
    var fees, ratios, amounts := Fees(rows), Ratios(rows), DaiAvailable(rows);
    assert |fees| == |ratios| == |amounts| == |members|;
    assert forall i :: 0 <= i < |members| ==>
      && fees[i] == members[i].annualStabilityFee
      && ratios[i] == members[i].liquidationRatio
      && amounts[i] == rows[i].maxDaiAvailableToGenerate
      && amounts[i] >= 0.0;
    SumOfNonNegative(amounts);
    MarketSummary(gem, Min(fees), Max(fees), Min(ratios), Max(ratios), Sum(amounts), rows)
  }

  /** The summaries of all gems, in the order the gems first occur in the data. */
  function Markets(data: seq<CollateralType>): (markets: seq<MarketSummary>)
    ensures |markets| == |GroupBy(data, Gem)|
  {
    var groups := GroupBy(data, Gem);
    GroupsNonEmpty(data, Gem);
    seq(|groups|, i requires 0 <= i < |groups| => Summarize(groups[i].key, groups[i].members))
  }

  /**
   * Each summary is the summary of the records that share its gem, taken
   * in input order; the gems are distinct and appear in first-seen order.
   */
  lemma MarketsAreGroups(data: seq<CollateralType>)
    ensures var markets, gems := Markets(data), Keys(data, Gem);
      && |markets| == |gems|
      && forall i :: 0 <= i < |markets| ==>
           && markets[i].gem == gems[i]
           && |Members(data, Gem, gems[i])| > 0
           && markets[i] == Summarize(gems[i], Members(data, Gem, gems[i]))
  {
    GroupByIsGroupsByKey(data, Gem);
    GroupsNonEmpty(data, Gem);
  }

  /** Every risk profile in a market has that market's gem as the part of its symbol before the first "-". */
  lemma RiskProfilesShareGem(data: seq<CollateralType>, i: nat, j: nat)
    requires i < |Markets(data)| && j < |Markets(data)[i].riskProfiles|
    ensures var m := Markets(data)[i];
      var symbol := m.riskProfiles[j].data.symbol;
      && m.riskProfiles[j].data in data
      && GroupKey(symbol) == m.gem
      && (Separator in symbol ==> m.gem + [Separator] <= symbol)
  {
    GroupsNonEmpty(data, Gem);
    var g := GroupBy(data, Gem)[i];
    assert Markets(data)[i] == Summarize(g.key, g.members);
    var symbol := g.members[j].symbol;
    KeyBeforeFirstSeparator(symbol);
  }

  /** The records behind all the summaries, market after market. */
  function Records(markets: seq<MarketSummary>): (records: seq<CollateralType>)
  {
    if markets == [] then []
    else
      var rows := markets[0].riskProfiles;
      seq(|rows|, j requires 0 <= j < |rows| => rows[j].data) + Records(markets[1..])
  }

  lemma {:induction false} RecordsOfGroups(groups: seq<Group<CollateralType, string>>, markets: seq<MarketSummary>)
    requires |groups| == |markets|
    requires forall i :: 0 <= i < |groups| ==>
      |groups[i].members| > 0 && markets[i] == Summarize(groups[i].key, groups[i].members)
    ensures Records(markets) == Flatten(groups)
  {
    if groups != [] {
      var g, rows := groups[0], markets[0].riskProfiles;
      assert forall j :: 0 <= j < |g.members| ==> rows[j] == Derive(g.members[j]);
      assert seq(|rows|, j requires 0 <= j < |rows| => rows[j].data) == g.members;
      RecordsOfGroups(groups[1..], markets[1..]);
    }
  }

  /** No collateral type is lost or shown twice: the summaries hold a permutation of the data. */
  lemma MarketsCoverData(data: seq<CollateralType>)
    ensures multiset(Records(Markets(data))) == multiset(data)
  {
    GroupsNonEmpty(data, Gem);
    RecordsOfGroups(GroupBy(data, Gem), Markets(data));
    GroupByIsPermutation(data, Gem);
  }

  /** The fee or ratio cell: the second bound is shown only when it differs from the first. */
  function Display(low: real, high: real): (b: Bounds)
    ensures b.Range? <==> low != high
    ensures b.Single? ==> b.value == low == high
    ensures b.Range? ==> b.low == low && b.high == high
  {
    if low == high then Single(low) else Range(low, high)
  }

  function FeeDisplay(m: MarketSummary): (b: Bounds)
    ensures b.Range? <==> m.minFee != m.maxFee
  {
    Display(m.minFee, m.maxFee)
  }

  function RatioDisplay(m: MarketSummary): (b: Bounds)
    ensures b.Range? <==> m.minRatio != m.maxRatio
  {
    Display(m.minRatio, m.maxRatio)
  }

  /** A market shows a fee range exactly when two of its collateral types have different fees. */
  lemma FeeRangeIffFeesDiffer(gem: string, members: seq<CollateralType>)
    requires |members| > 0
    ensures FeeDisplay(Summarize(gem, members)).Range? <==>
      exists i, j :: 0 <= i < |members| && 0 <= j < |members| &&
        members[i].annualStabilityFee != members[j].annualStabilityFee
  {
    var fees := Fees(Summarize(gem, members).riskProfiles);
    assert forall i :: 0 <= i < |members| ==> fees[i] == members[i].annualStabilityFee;
    BoundsEqualIffAllEqual(fees);
  }

  /** A market shows a ratio range exactly when two of its collateral types have different liquidation ratios. */
  lemma RatioRangeIffRatiosDiffer(gem: string, members: seq<CollateralType>)
    requires |members| > 0
    ensures RatioDisplay(Summarize(gem, members)).Range? <==>
      exists i, j :: 0 <= i < |members| && 0 <= j < |members| &&
        members[i].liquidationRatio != members[j].liquidationRatio
  {
    var ratios := Ratios(Summarize(gem, members).riskProfiles);
    assert forall i :: 0 <= i < |members| ==> ratios[i] == members[i].liquidationRatio;
    BoundsEqualIffAllEqual(ratios);
  }

  /** A gem with a single collateral type shows single values. */
  lemma SingleTypeShowsSingleValues(gem: string, t: CollateralType)
    ensures FeeDisplay(Summarize(gem, [t])) == Single(t.annualStabilityFee)
    ensures RatioDisplay(Summarize(gem, [t])) == Single(t.liquidationRatio)
    ensures Summarize(gem, [t]).totalDaiAvailable == MaxDaiAvailableToGenerate(t.collateralDebtAvailable)
  {
    BoundsOfOne(t.annualStabilityFee);
    BoundsOfOne(t.liquidationRatio);
    var rows := Summarize(gem, [t]).riskProfiles;
    var amounts := DaiAvailable(rows);
    assert amounts == [MaxDaiAvailableToGenerate(t.collateralDebtAvailable)];
    assert amounts[..0] == [];
    assert Sum(amounts) == Sum(amounts[..0]) + amounts[0];
  }

  lemma TwoEtherProfilesGroup(ethA: CollateralType, ethB: CollateralType)
    requires ethA.symbol == "ETH-A" && ethB.symbol == "ETH-B"
    ensures GroupBy([ethA, ethB], Gem) == [Group("ETH", [ethA, ethB])]
  {
    assert ethA.symbol == "ETH" + [Separator] + "A";
    assert ethB.symbol == "ETH" + [Separator] + "B";
    SymbolOfKeyAndProfile("ETH", "A");
    SymbolOfKeyAndProfile("ETH", "B");
    var data := [ethA, ethB];
    assert data[..1] == [ethA] && [ethA][..0] == [];
    assert GroupBy([ethA], Gem) == [Group("ETH", [ethA])];
    assert [Group("ETH", [ethA])][1..] == [] && [ethA] + [ethB] == data;
  }

  lemma TwoEtherProfilesSummary(ethA: CollateralType, ethB: CollateralType)
    requires ethA == CollateralType("ETH-A", 0.02, 1.5, 1000.0)
    requires ethB == CollateralType("ETH-B", 0.04, 1.75, -50.0)
    ensures Summarize("ETH", [ethA, ethB]) == MarketSummary("ETH", 0.02, 0.04, 1.5, 1.75, 1000.0,
      [RiskProfileRow(ethA, 1000.0), RiskProfileRow(ethB, 0.0)])
  {
    var m := Summarize("ETH", [ethA, ethB]);
    var amounts := DaiAvailable(m.riskProfiles);
    assert amounts == [1000.0, 0.0] && amounts[..1] == [1000.0] && amounts[..1][..0] == [];
    var fees, ratios := Fees(m.riskProfiles), Ratios(m.riskProfiles);
    assert fees == [0.02, 0.04] && fees[..1] == [0.02];
    assert ratios == [1.5, 1.75] && ratios[..1] == [1.5];
    assert m.riskProfiles == [RiskProfileRow(ethA, 1000.0), RiskProfileRow(ethB, 0.0)];
    assert m.minFee == Min(fees) == 0.02 && m.maxFee == Max(fees) == 0.04;
    assert m.minRatio == Min(ratios) == 1.5 && m.maxRatio == Max(ratios) == 1.75;
    assert Sum(amounts[..1][..0]) == 0.0;
    assert Sum(amounts[..1]) == 1000.0;
    assert m.totalDaiAvailable == Sum(amounts) == 1000.0;
  }

  /**
   * Two risk profiles of Ether, one of them over its debt ceiling, make one
   * market whose fee and ratio are ranges and whose total counts only the
   * profile that still has room.
   */
  lemma TwoEtherProfiles()
    ensures var ethA := CollateralType("ETH-A", 0.02, 1.5, 1000.0);
      var ethB := CollateralType("ETH-B", 0.04, 1.75, -50.0);
      Markets([ethA, ethB]) == [MarketSummary("ETH", 0.02, 0.04, 1.5, 1.75, 1000.0,
        [RiskProfileRow(ethA, 1000.0), RiskProfileRow(ethB, 0.0)])]
  {
    var ethA := CollateralType("ETH-A", 0.02, 1.5, 1000.0);
    var ethB := CollateralType("ETH-B", 0.04, 1.75, -50.0);
    TwoEtherProfilesGroup(ethA, ethB);
    TwoEtherProfilesSummary(ethA, ethB);
  }

  /** Whether row `rowIndex` is open: rows never toggled read as closed. */
  function ExpandedIn(expandedRows: map<int, bool>, rowIndex: int): (open: bool)
    ensures rowIndex !in expandedRows ==> !open
    ensures rowIndex in expandedRows ==> open == expandedRows[rowIndex]
  {
    rowIndex in expandedRows && expandedRows[rowIndex]
  }

  /** The expanded-row map after `toggleRow(index)`. */
  function Toggled(expandedRows: map<int, bool>, index: int): (rows': map<int, bool>)
    ensures ExpandedIn(rows', index) == !ExpandedIn(expandedRows, index)
    ensures forall i :: i != index ==> ExpandedIn(rows', i) == ExpandedIn(expandedRows, i)
  {
    expandedRows[index := !ExpandedIn(expandedRows, index)]
  }

  /** Every row starts closed, and toggling a row twice leaves every row as it was. */
  lemma ToggleTwice(expandedRows: map<int, bool>, index: int, rowIndex: int)
    ensures !ExpandedIn(map[], rowIndex)
    ensures ExpandedIn(Toggled(Toggled(expandedRows, index), index), rowIndex)
         == ExpandedIn(expandedRows, rowIndex)
  {
  }

  /** The data the page renders: this render's value if there is one, else the previous render's. */
  function CurrentOrPrevious(current: Option<seq<CollateralType>>, previous: Option<seq<CollateralType>>)
    : (data: Option<seq<CollateralType>>)
    ensures data.None? <==> current.None? && previous.None?
    ensures data.Some? ==> data == current || (current.None? && data == previous)
  {
    if current.Some? then current else previous
  }

  /** The summary rows of the table: none until there is data, then one per gem, in gem order. */
  function Rows(data: Option<seq<CollateralType>>, expandedRows: map<int, bool>): (rows: seq<MarketRow>)
    ensures data.None? ==> rows == []
    ensures data.Some? ==>
      && |rows| == |Markets(data.value)|
      && forall i :: 0 <= i < |rows| ==>
           rows[i].market == Markets(data.value)[i] && rows[i].expanded == ExpandedIn(expandedRows, i)
  {
    match data
    case None => []
    case Some(types) =>
      var markets := Markets(types);
      seq(|markets|, i requires 0 <= i < |markets| => MarketRow(markets[i], ExpandedIn(expandedRows, i)))
  }

  /** The state the page keeps between renders. */
  class BorrowMarketsPage {
    /** `expandedRows`: row index to whether that row's risk profiles are shown. */
    var expandedRows: map<int, bool>
    /** What `usePrevious` hands back: the data source's value at the previous render. */
    var previousData: Option<seq<CollateralType>>

    constructor ()
      ensures expandedRows == map[] && previousData == None
    {
      expandedRows := map[];
      previousData := None;
    }

    /** `isExpanded(rowIndex)`: the row's entry in `expandedRows`, closed when it has none. */
    function IsExpanded(rowIndex: int): (open: bool)
      reads this
      ensures rowIndex !in expandedRows ==> !open
      ensures rowIndex in expandedRows ==> open == expandedRows[rowIndex]
    {
      ExpandedIn(expandedRows, rowIndex)
    }

    /** `toggleRow(index)`: flips one row, every other row is left as it was. */
    method ToggleRow(index: int)
      modifies this
      ensures expandedRows == Toggled(old(expandedRows), index)
      ensures IsExpanded(index) == !old(IsExpanded(index))
      ensures forall i :: i != index ==> IsExpanded(i) == old(IsExpanded(i))
      ensures previousData == old(previousData)
    {
      expandedRows := Toggled(expandedRows, index);
    }

    /**
     * One render with the data source's `current` value: the rows come from
     * that value or, when it is missing, from the previous render's value;
     * afterwards the previous value is this render's `current`.
     */
    method Render(current: Option<seq<CollateralType>>) returns (rows: seq<MarketRow>)
      modifies this
      ensures rows == Rows(CurrentOrPrevious(current, old(previousData)), expandedRows)
      ensures previousData == current
      ensures expandedRows == old(expandedRows)
    {
      rows := Rows(CurrentOrPrevious(current, previousData), expandedRows);
      previousData := current;
    }
  }

  /**
   * What the one-render memory of the previous value means: data that
   * stops arriving is still shown on the next render, and gone on the one
   * after.
   */
  method StaleDataLastsOneRender(data: seq<CollateralType>)
    returns (first: seq<MarketRow>, second: seq<MarketRow>, third: seq<MarketRow>)
    ensures first == Rows(Some(data), map[])
    ensures second == first
    ensures third == []
  {
    var page := new BorrowMarketsPage();
    first := page.Render(Some(data));
    second := page.Render(None);
    third := page.Render(None);
  }
}
