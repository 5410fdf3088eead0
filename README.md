# Borrow Markets: grouped collateral-type summaries

This project models the data pipeline inside the `BorrowMarkets` page of the
Maker CDP portal, and proves properties of that model in Dafny.

The page receives a list of collateral types, such as `ETH-A`, `ETH-B` and
`BAT-A`. Each collateral type has a stability fee, a liquidation ratio and the
debt that can still be generated against it. The page works in these steps:

- It groups the collateral types by their token ("gem"). The gem is the part of
  the symbol before the first `-`.
- It walks the groups in the order their gems first occur in the data.
- For each collateral type, it floors the available debt at zero (unless the
  record already has its own `maxDaiAvailableToGenerate`; see "Left out").
- For each gem, it shows the lowest and highest fee, the lowest and highest
  liquidation ratio, and the total Dai still available.
- A fee or ratio cell shows a range only when its two bounds differ.
- Under each gem row there is a row per risk profile. The profile is labelled
  with the second `-`-separated piece of the symbol.

The page also keeps two pieces of state:

- a map from row index to "expanded", flipped by `toggleRow`;
- the previous render's data, used while the data source has no value.

Modules, one file each:

- `Options` (`options.dfy`): the optional value that stands for JavaScript's
  `undefined`.
- `Symbols` (`symbols.dfy`): `split('-')` modelled exactly, the gem (piece 0)
  and the risk profile (piece 1).
- `Grouping` (`grouping.dfy`): lodash `groupBy`, as the left-to-right fold
  lodash runs. It is proved equal to a direct description: one group per key,
  in first-seen order, holding exactly that key's records in input order.
- `Aggregates` (`aggregates.dfy`): `BigNumber.min`, `BigNumber.max` and
  `BigNumber.sum`, over exact `real` values. Min and max are the left folds
  bignumber.js runs. The sum adds left to right, but starts from 0 rather than
  from the first argument (see "Left out").
- `BorrowMarkets` (`borrow_markets.dfy`): the records, the clamp, the
  per-gem summary, the range-or-single display decision, the rows of the
  table, and the page state as a class `BorrowMarketsPage`.

Three points about the code's behaviour that the model follows as written:

- **The fallback lasts one render.** The page calls
  `usePrevious(collateralTypesData)` with the data source's raw value
  (`src/pages/BorrowMarkets.js:93-95`), not with the value after the fallback.
  The usual `usePrevious` keeps the value from the previous render. So old data
  stays on screen for one more render only. Any later render triggers this,
  for example a `toggleRow`. If the source still has no value then, the table
  goes empty. A stale-while-revalidate cache would keep the last successful
  result instead.
  `BorrowMarketsPage.Render` and `StaleDataLastsOneRender` model the code's
  behaviour. The `usePrevious` hook is not part of this model. Its behaviour
  is assumed to be the usual one.
- **Rows are keyed by index.** The expanded-row map is keyed by the row's
  index, as in the code (`src/pages/BorrowMarkets.js:101-105`, `168`), not
  by gem. If the gem order changed between renders, an open row would follow
  its position rather than its gem.
- **Empty data still counts as data.** An empty array is truthy in
  JavaScript. So `Some([])` counts as present data and is not replaced by the
  previous value.

## Model

| member | source | states |
|---|---|---|
| `Symbols.Split` | src/pages/BorrowMarkets.js:99 | `split('-')` always gives at least one piece, and no piece holds a `-` |
| `Symbols.JoinSplit` | src/pages/BorrowMarkets.js:99 | joining the pieces with `-` gives the symbol back, so splitting loses nothing |
| `Symbols.SplitJoin` | src/pages/BorrowMarkets.js:99 | splitting the join of `-`-free pieces gives those pieces back (the inverse direction) |
| `Symbols.SplitHasSeveralPieces` | src/pages/BorrowMarkets.js:99 | there is more than one piece exactly when the symbol holds a `-` |
| `Symbols.GroupKey` | src/pages/BorrowMarkets.js:99 | the gem never holds a `-` |
| `Symbols.KeyBeforeFirstSeparator` | src/pages/BorrowMarkets.js:99 | the gem is a prefix of the symbol; it is the whole symbol when there is no `-`, and otherwise a `-` follows it directly |
| `Symbols.RiskProfile` | src/pages/BorrowMarkets.js:228 | the risk-profile label never holds a `-` |
| `Symbols.RiskProfileAfterKey` | src/pages/BorrowMarkets.js:228 | the label is missing exactly when the symbol has no `-`; otherwise the symbol starts with gem + `-` + label, followed by the end or another `-` |
| `Symbols.SymbolOfKeyAndProfile` | src/pages/BorrowMarkets.js:228 | a symbol `key-profile` with `-`-free parts has gem `key` and label `profile` |
| `Grouping.Keys` | src/pages/BorrowMarkets.js:97-100 | the group keys are pairwise distinct, and every record's key is among them |
| `Grouping.MembersOfKey` | src/pages/BorrowMarkets.js:97-100 | a group's members are records of the input with that key, and every input record with that key is a member |
| `Grouping.AddToGroup` | src/pages/BorrowMarkets.js:97-100 | one step of lodash's `groupBy`: the groups already there keep their keys, and at most one group is added, at the end, holding only the new record |
| `Grouping.GroupBy` | src/pages/BorrowMarkets.js:97-100 | lodash's `groupBy` as the left-to-right fold of `AddToGroup`: at most one group per record, and at least one group when there are records; its contents are stated by `GroupByIsGroupsByKey` |
| `Grouping.GroupByIsGroupsByKey` | src/pages/BorrowMarkets.js:97-100 | lodash's fold gives exactly one group per key, in first-seen order, holding that key's records |
| `Grouping.GroupKeysDistinct` | src/pages/BorrowMarkets.js:97-100 | no two groups have the same key |
| `Grouping.EachRecordInItsGroup` | src/pages/BorrowMarkets.js:97-100 | every record is in exactly one group: the one with its key, which always exists |
| `Grouping.GroupsNonEmpty` | src/pages/BorrowMarkets.js:97-100 | every group is non-empty and holds only input records with the group's key |
| `Grouping.MembersKeepOrder` | src/pages/BorrowMarkets.js:97-100 | within a group, the members taken from an earlier part of the input come before those from a later part |
| `Grouping.GroupsInFirstSeenOrder` | src/pages/BorrowMarkets.js:134 | every group key occurs in the input, and groups come in the order their keys first occur |
| `Grouping.GroupByIsPermutation` | src/pages/BorrowMarkets.js:97-100 | the groups concatenated are a permutation of the input |
| `Aggregates.Min` | src/pages/BorrowMarkets.js:150 | `BigNumber.min` gives one of its arguments, and it is at most every argument |
| `Aggregates.Max` | src/pages/BorrowMarkets.js:151 | `BigNumber.max` gives one of its arguments, and it is at least every argument |
| `Aggregates.Sum` | src/pages/BorrowMarkets.js:160-163 | `BigNumber.sum` as the exact left-to-right sum; it has no contract of its own, and its properties are stated by `SumOfNonNegative` |
| `Aggregates.SumOfNonNegative` | src/pages/BorrowMarkets.js:160-163 | a `BigNumber.sum` of non-negative values is non-negative and at least each value |
| `Aggregates.BoundsOfOne` | src/pages/BorrowMarkets.js:149-156 | min and max of a single value are that value |
| `Aggregates.BoundsEqualIffAllEqual` | src/pages/BorrowMarkets.js:183 | min equals max exactly when all the values are equal |
| `BorrowMarkets.Gem` | src/pages/BorrowMarkets.js:99 | the grouping key of a collateral type holds no `-` |
| `BorrowMarkets.MaxDaiAvailableToGenerate` | src/pages/BorrowMarkets.js:136-140 | the clamped amount is the larger of 0 and the debt available: at least both, and equal to one of them |
| `BorrowMarkets.ClampCases` | src/pages/BorrowMarkets.js:138-140 | the amount is kept exactly when it is non-negative, it becomes 0 exactly when it is not positive, and clamping twice changes nothing |
| `BorrowMarkets.Derive` | src/pages/BorrowMarkets.js:135-146 | each row keeps its collateral type. Its `maxDaiAvailableToGenerate` is the clamp of that type's own debt available: 0 when the debt is negative, the debt itself otherwise, so never negative |
| `BorrowMarkets.Fees` | src/pages/BorrowMarkets.js:149 | the `.map` at line 149; no contract of its own; what the page promises about these values is stated by `Summarize` |
| `BorrowMarkets.Ratios` | src/pages/BorrowMarkets.js:152-154 | the `.map` at lines 152-154; no contract of its own; what the page promises about these values is stated by `Summarize` |
| `BorrowMarkets.DaiAvailable` | src/pages/BorrowMarkets.js:157-159 | the `.map` at lines 157-159; no contract of its own; what the page promises about these values is stated by `Summarize` |
| `BorrowMarkets.Summarize` | src/pages/BorrowMarkets.js:148-163 | rows are the members clamped, in order. Every fee lies between minFee and maxFee, and both bounds are some member's fee; the same holds for ratios. The total is the exact sum of the clamped amounts, is non-negative, and is at least each one |
| `BorrowMarkets.Markets` | src/pages/BorrowMarkets.js:133-134 | one summary per group |
| `BorrowMarkets.MarketsAreGroups` | src/pages/BorrowMarkets.js:134-163 | summary i is for the i-th gem in first-seen order, and summarises exactly that gem's records, in input order |
| `BorrowMarkets.RiskProfilesShareGem` | src/pages/BorrowMarkets.js:222-228 | each risk profile shown under a gem is an input record; its symbol's gem is that gem, and the symbol starts with gem + `-` when it holds a `-` |
| `BorrowMarkets.RecordsOfGroups` | src/pages/BorrowMarkets.js:134-146 | the records behind the summaries are the groups concatenated |
| `BorrowMarkets.MarketsCoverData` | src/pages/BorrowMarkets.js:134-146 | the records behind all summaries are a permutation of the data: nothing is dropped or duplicated |
| `BorrowMarkets.Display` | src/pages/BorrowMarkets.js:183 | the second bound is shown exactly when it differs from the first; a range shows both bounds, a single value shows their common value |
| `BorrowMarkets.FeeDisplay` | src/pages/BorrowMarkets.js:183 | the fee cell is a range exactly when `minFee` and `maxFee` differ (`!minFee.eq(maxFee)`) |
| `BorrowMarkets.RatioDisplay` | src/pages/BorrowMarkets.js:192 | the ratio cell is a range exactly when `minRatio` and `maxRatio` differ (`!minRatio.eq(maxRatio)`) |
| `BorrowMarkets.FeeRangeIffFeesDiffer` | src/pages/BorrowMarkets.js:182-185 | the fee cell shows a range exactly when two collateral types of the gem have different fees |
| `BorrowMarkets.RatioRangeIffRatiosDiffer` | src/pages/BorrowMarkets.js:187-200 | the ratio cell shows a range exactly when two collateral types of the gem have different ratios |
| `BorrowMarkets.SingleTypeShowsSingleValues` | src/pages/BorrowMarkets.js:183-200 | a gem with a single collateral type shows single values, and its total is that type's clamped amount |
| `BorrowMarkets.TwoEtherProfilesGroup` | src/pages/BorrowMarkets.js:97-100 | `ETH-A` and `ETH-B` form one group `ETH`, in input order |
| `BorrowMarkets.TwoEtherProfilesSummary` | src/pages/BorrowMarkets.js:135-163 | fees 0.02/0.04, ratios 1.5/1.75 and debts 1000/-50 summarise to the ranges 0.02-0.04 and 1.5-1.75, with total 1000 |
| `BorrowMarkets.TwoEtherProfiles` | src/pages/BorrowMarkets.js:97-163 | the whole pipeline on that example gives exactly one market with those values |
| `BorrowMarkets.ExpandedIn` | src/pages/BorrowMarkets.js:102 | a row with no entry in the map reads as closed; a row with an entry reads as that entry |
| `BorrowMarkets.Toggled` | src/pages/BorrowMarkets.js:103-105 | toggling flips the toggled row's expanded state and leaves every other row as it was |
| `BorrowMarkets.ToggleTwice` | src/pages/BorrowMarkets.js:101-105 | in the initial empty map no row is expanded, and toggling a row twice restores every row |
| `BorrowMarkets.CurrentOrPrevious` | src/pages/BorrowMarkets.js:95 | the data is missing only when both the current and the previous value are missing; present current data is always used |
| `BorrowMarkets.Rows` | src/pages/BorrowMarkets.js:133-168 | with no data the table has no rows; otherwise one row per market in order, expanded exactly when its index is expanded |
| `BorrowMarkets.BorrowMarketsPage.constructor` | src/pages/BorrowMarkets.js:101 | the page starts with no expanded rows and no previous data |
| `BorrowMarkets.BorrowMarketsPage.IsExpanded` | src/pages/BorrowMarkets.js:102 | `isExpanded(rowIndex)` on the page's state: closed with no entry, otherwise the entry |
| `BorrowMarkets.BorrowMarketsPage.ToggleRow` | src/pages/BorrowMarkets.js:103-105 | the map becomes the toggled map, only the toggled row's `IsExpanded` changes, and the previous data is untouched |
| `BorrowMarkets.BorrowMarketsPage.Render` | src/pages/BorrowMarkets.js:93-95 | rows come from the current value or else the previous one; afterwards the raw current value is remembered, and the expanded rows are unchanged |
| `BorrowMarkets.StaleDataLastsOneRender` | src/pages/BorrowMarkets.js:93-95 | renders with data, missing, missing: the second render repeats the first, and the third is empty |

## Left out

- Rendering: the JSX, styled-components CSS, table layout, `TokenIcon`, `Carat`
  and the `hot` wrapper (`src/pages/BorrowMarkets.js:1-88`, `107-259`). They
  are presentation only. The model stops at the rows and the range-or-single
  decision (`Bounds`).
- `formatter` and `prettifyNumber` from `utils/ui`. They are not part of this
  model. Cells carry the exact numbers, not formatted text.
- The localised strings from `useLanguage` and the `tokenNames` display table.
  They are constant lookups for display only.
- Data fetching: `useCdpTypes`, the observable `watch.collateralTypesData` and
  the internals of `usePrevious`. The data source's value at each render is a
  parameter of `Render`. `usePrevious` is assumed to return the value it was
  given at the previous render.
- BorrowMarkets.Derive: assumes the incoming record has no
  `maxDaiAvailableToGenerate` field of its own. The code builds
  `{ maxDaiAvailableToGenerate, ...data }` (`src/pages/BorrowMarkets.js:142-145`).
  The spread comes last, so such a field would override the clamped value.
  The data source's collateral types carry no such field, so the model always
  keeps the clamped value.
- A missing `collateralDebtAvailable`. With optional chaining it gives
  `undefined`, and `BigNumber.sum` then gives NaN. The model has no NaN, so
  every record carries the field.
- BigNumber internals: numbers are exact `real` values. The NaN handling of
  `BigNumber.min`/`max` is left out, and neither is ever called on an empty
  list. `Aggregates.Min` and `Aggregates.Max` require a non-empty list for that
  reason: every group is non-empty (`Grouping.GroupsNonEmpty`).
- Aggregates.Sum: starts from 0, while bignumber.js starts its sum from the first
  argument. So an empty `BigNumber.sum()` is NaN in the library and 0 in the
  model. The page never sums an empty list, because every group is non-empty.
- `Object.entries` order for integer-like keys. JavaScript lists such keys
  first, in numeric order, whatever order they were inserted in. Real gems are
  never integer-like, so the model uses insertion (first-seen) order for every
  key.
- Stale closures in `toggleRow`. Two toggles before React re-renders both read
  the same `expandedRows`. The model applies each `ToggleRow` to the latest
  map.
