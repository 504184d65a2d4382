# basedollar AERO reward accounting — a Dafny model

basedollar is a lending protocol on Base. Its borrowers' positions ("troves") hold collateral, and some collaterals are Aerodrome LP tokens that are staked in Aerodrome gauges through an `AeroManager` contract. The AERO rewards those gauges pay are claimed into the protocol. Later they are to be handed out to the borrowers, according to how much collateral each trove held and for how long.

This project models four parts of that system:

- **The backend batch job.** It does the following:
  - resolves, per gauge, the epoch to be distributed next, its accounting period and the fee-excluded AERO claimed for it (`aero-events.ts`);
  - selects the troves alive in the period (`trove-query.ts`);
  - integrates each trove's collateral snapshots into a time-weighted average (`collateral-tracker.ts`);
  - groups the results by borrower (`rewards-calculator.ts`).
  The paged queries against the indexer share one cursor loop (`Paging.FetchAll`). Their input is the indexer's rows, given as a sequence.
- **The subgraph handlers.**
  - They register a collateral branch (`shared/collateral.ts`).
  - They record AeroManager stakes, claims and distributions (`AeroManager.mapping.ts`).
  - All of them write into an entity store, the class `SubgraphStore.Store`.
- **The frontend helpers.** They do the following:
  - group collaterals for display;
  - keep the subgraph error list;
  - match LP collaterals to DefiLlama pools;
  - pick the gauges to claim on the AeroManager screen;
  - resolve theme colours;
  - highlight the current menu item;
  - build the token tables;
  - look up AMM token pairs.
- **The white-label configuration.** The frontend reads it as a module constant. Here it is a parameter (`WhiteLabel.CollateralConfig`, `WhiteLabel.Config`).

Other forms the model takes:

- Code that mutates step by step becomes a method with a loop, proved against a specification function. The functions' properties are proved as lemmas.
- BigInt values become `int`/`nat`.
- JavaScript numbers that are floats (LTVs, TVLs) become `real`.
- Strings are `seq<char>`.

Three points where the code's behaviour is easy to misread; the model follows the code:

- The doc comment of `getGaugeDistributionInfo` (aero-events.ts:341-347) gives the claim epoch as the latest distributed epoch plus one. For a gauge with no distribution event the code uses epoch 0 instead (aero-events.ts:367).
- When two distribution events of a gauge share the largest epoch, the first one seen is kept. This is because the comparison is a strict `>` (aero-events.ts:330).
- No pro-rata reward is computed. `rewardAmount` is always left unset (rewards-calculator.ts:64-67).

## Model

| member | source | states |
|---|---|---|
| Paging.Page | backend/src/services/aero-events.ts:58-69 | a page request returns at most 1000 rows (`first: $limit`), those after the cursor in id order |
| Paging.PageAdvances | backend/src/services/aero-events.ts:98-99 | one round of the cursor loop: the page continues the rows already received, and the new cursor (the last row's id) leaves exactly the rest of the store above it |
| Paging.FetchAll | backend/src/services/aero-events.ts:42-103 | the cursor page loop returns every row of the store in id order, after exactly `|store| / 1000 + 1` requests; it stops at the first page shorter than 1000 rows |
| Paging.WhereMembers | backend/src/services/trove-query.ts:102-110 | a query's `where` keeps exactly the store rows that pass the filter |
| Paging.WhereAscending | backend/src/services/trove-query.ts:109 | filtering keeps the ascending id order the cursor relies on |
| AeroEvents.AeroLpCollaterals | backend/src/services/aero-events.ts:249-272 | the unpaged gauge query returns only the first 1000 gauges, each mapped to its gauge and token |
| AeroEvents.LatestOfNone | backend/src/services/aero-events.ts:327-336 | the scan keeps no entry for a gauge exactly when no distribution event names it |
| AeroEvents.LatestOfIsFirstMaximum | backend/src/services/aero-events.ts:329-335 | the kept entry is the epoch and timestamp of the first event of that gauge with the largest epoch (strict `>` keeps the first on a tie) |
| AeroEvents.LatestDistributedEpochPerGauge | backend/src/services/aero-events.ts:324-339 | the map the loop builds holds, for every gauge, exactly what the scan specification keeps |
| AeroEvents.MatchingMembers | backend/src/services/aero-events.ts:371-372 | a claim is counted exactly when it is one of the claims, through this gauge, at the claim epoch |
| AeroEvents.TotalNetSplits | backend/src/services/aero-events.ts:370-376 | the counted claims and all the others together make up the whole net total, so each claim counts at most once |
| AeroEvents.MatchingIgnoresOthers | backend/src/services/aero-events.ts:372 | a claim through another gauge or at another epoch adds nothing to the sum |
| AeroEvents.ClaimsInWindow | backend/src/services/aero-events.ts:126-153 | a period's claim fetch keeps exactly the stored claims with `start <= timestamp < end` |
| AeroEvents.GetClaimedEvents | backend/src/services/aero-events.ts:108-173 | the page loop returns every stored claim that passes the period filter, once each, in id order |
| AeroEvents.TotalClaimedInPeriod | backend/src/services/aero-events.ts:278-287 | the result is the sum of `total - claimFee` over the claims stamped inside the half-open period |
| AeroEvents.IndexedTimestamp | backend/src/services/aero-events.ts:309-313 | the indexed timestamp is the largest of the three latest timestamps, a missing one counting as 0 |
| AeroEvents.CurrentBlockTimestamp | backend/src/services/aero-events.ts:315-317 | a nonzero indexed timestamp is returned as it is; with nothing indexed, the wall-clock seconds are returned |
| AeroEvents.GaugeDistributionInfos | backend/src/services/aero-events.ts:348-392 | one entry per LP collateral, in order. With a distribution: claim epoch = latest + 1, period from its timestamp. Without one: epochs 0 and the origin start. The period always ends at `currentTimestamp`, and the total is the net sum of the matching claims. No LP collaterals gives no entries |
| AeroEvents.SumClaimsAt | backend/src/services/aero-events.ts:370-376 | the inner loop sums `total - claimFee` over exactly the claims of this gauge at the claim epoch |
| AeroEvents.ClaimEpochExample | backend/src/services/aero-events.ts:367-376 | a gauge last distributed at epoch 2 claims epoch 3: a 1000 claim at epoch 2 is ignored, and a 500 claim with fee 50 at epoch 3 gives 450 |
| CollateralTracker.ActiveWindowBounds | backend/src/services/collateral-tracker.ts:124-127 | the window starts no earlier than the period and the creation time, and ends no later than the period end and a nonzero `closedAt`; a `closedAt` of 0 or null leaves the trove open to the period end |
| CollateralTracker.Relevant | backend/src/services/collateral-tracker.ts:155 | every relevant snapshot lies in the closed window `[start, end]` |
| CollateralTracker.RelevantMembers | backend/src/services/collateral-tracker.ts:155 | a snapshot is relevant exactly when it is one of the input and its timestamp lies in `[start, end]` |
| CollateralTracker.RelevantKeepsOrder | backend/src/services/collateral-tracker.ts:155 | filtering keeps the snapshots sorted by time |
| CollateralTracker.Integrate | backend/src/services/collateral-tracker.ts:167-186 | the integration loop plus the tail segment computes the specified weighted sum |
| CollateralTracker.CalculateTwa | backend/src/services/collateral-tracker.ts:118-197 | the method returns the specified TWA record on every input, including its three fallbacks |
| CollateralTracker.TwaShape | backend/src/services/collateral-tracker.ts:130-164 | ids are copied. An empty window gives 0 and 0. Otherwise the active time is the positive window length, and with no relevant snapshot the average is the current deposit |
| CollateralTracker.TwaBounds | backend/src/services/collateral-tracker.ts:166-188 | the floor-divided average lies between the smallest and the largest deposit among the relevant snapshots |
| CollateralTracker.SweepIsIntegral | backend/src/services/collateral-tracker.ts:172-181 | over sorted snapshots the loop's sum equals the integral of the step function "latest deposit at or before τ" from the window start |
| CollateralTracker.WeightedSumIsIntegral | backend/src/services/collateral-tracker.ts:167-186 | the weighted sum is the integral of that step function over the whole window; the segment durations add up to the active time |
| CollateralTracker.TwaIsAverageDeposit | backend/src/services/collateral-tracker.ts:188 | for sorted snapshots, the TWA is the floor of the step function's integral over the window divided by the active time |
| CollateralTracker.TwaExample | backend/src/services/collateral-tracker.ts:118-197 | a worked trove: deposit 100 then 300 halfway through the window averages to 200 |
| CollateralTracker.SortByTimeFacts | backend/src/services/collateral-tracker.ts:101-104 | each trove's list comes out sorted by timestamp, as a permutation, with snapshots of equal timestamp in fetch order |
| CollateralTracker.RowsOf | backend/src/services/collateral-tracker.ts:85-93 | a trove's list holds only rows of that trove |
| CollateralTracker.GroupSnapshots | backend/src/services/collateral-tracker.ts:51-52 | exactly the requested troves get a list (rows of other troves are dropped); each list is that trove's rows in fetch order, sorted by time |
| CollateralTracker.CalculateTwaForTroves | backend/src/services/collateral-tracker.ts:205-216 | one result per trove, in input order, each the TWA of that trove's sorted rows (none when no row matched) |
| RewardsCalculator.BorrowersFacts | backend/src/services/rewards-calculator.ts:39-44 | the Map keys are distinct, and they are exactly the borrowers of some result |
| RewardsCalculator.ForBorrowerMembers | backend/src/services/rewards-calculator.ts:40-43 | a result is in a borrower's group exactly when it belongs to that borrower |
| RewardsCalculator.ForAbsentBorrower | backend/src/services/rewards-calculator.ts:41 | a borrower with no result has an empty group |
| RewardsCalculator.GroupTotalsSumAll | backend/src/services/rewards-calculator.ts:47-58 | the per-borrower totals add up to `totalTWA`, the total over all results |
| RewardsCalculator.CalculateRewards | backend/src/services/rewards-calculator.ts:34-72 | one distribution per distinct borrower in order of first appearance. Each holds that borrower's results in input order and their summed TWA, and the reward amount is unset |
| RewardsCalculator.BuildDistributionResult | backend/src/services/rewards-calculator.ts:81-89 | the result carries the given distributions |
| RewardsCalculator.BuildDistributionResultRoundTrip | backend/src/services/rewards-calculator.ts:81-89 | the partial result's fields come back unchanged, and splitting then rebuilding a full result gives it back |
| TroveQuery.ParseBigInt | backend/src/services/trove-query.ts:70-73 | a decimal string parses exactly when it is all digits |
| TroveQuery.ParseClosedAt | backend/src/services/trove-query.ts:72 | null and the empty string give no closing time; digits parse |
| TroveQuery.ParseTrove | backend/src/services/trove-query.ts:65-76 | parsing succeeds exactly when every numeric field is decimal; strings are copied and numbers parsed field by field |
| TroveQuery.ParseRenderRoundTrip | backend/src/services/trove-query.ts:65-76 | parsing the wire form of a trove gives the trove back |
| TroveQuery.GetTrovesActiveInPeriod | backend/src/services/trove-query.ts:87-183 | the two page loops return all active-branch troves followed by all closed-branch troves, in id order |
| TroveQuery.ParsePages | backend/src/services/trove-query.ts:131 | mapping `parseTrove` over the rows keeps their order |
| TroveQuery.SelectedMembers | backend/src/services/trove-query.ts:103-108 | a row is returned exactly when it passes the active filter (active, listed collateral, created before the end) or the closed filter (other status, listed collateral, created before the end, closed after the start) |
| TroveQuery.SelectedCreatedBeforeEnd | backend/src/services/trove-query.ts:106 | every returned trove was created before the period end |
| TroveQuery.BranchesDisjoint | backend/src/services/trove-query.ts:146 | no trove passes both filters |
| TroveQuery.SelectedIdsDistinct | backend/src/services/trove-query.ts:132-176 | when the store's trove ids are distinct, the returned troves' ids are distinct |
| TroveQuery.Lowered | backend/src/services/trove-query.ts:191 | every token address is lower-cased |
| TroveQuery.CollateralIdsForTokens | backend/src/services/trove-query.ts:189-206 | the query without `first:` returns at most 100 ids |
| TroveQuery.CollateralIdsIgnoreCase | backend/src/services/trove-query.ts:191 | addresses that differ only in letter case give the same ids |
| TroveQuery.CollateralIdsMembers | backend/src/services/trove-query.ts:196-205 | with at most 100 matches, the ids are exactly the collaterals whose token is one of the lower-cased addresses |
| AeroManagerMapping.EventId | subgraph/src/AeroManager.mapping.ts:8-10 | the id is the hash, a colon, then the log index |
| AeroManagerMapping.EventIdInjective | subgraph/src/AeroManager.mapping.ts:8-10 | colon-free hashes make the id identify the (hash, log index) pair |
| AeroManagerMapping.HandleStaked | subgraph/src/AeroManager.mapping.ts:12-32 | an unknown gauge leaves the store as it is. A known gauge stores one `AeroStake` under the event id: collateral from the gauge, the tx sender as active pool, gauge, token and amount from the event. Nothing else changes |
| AeroManagerMapping.HandleClaimed | subgraph/src/AeroManager.mapping.ts:34-53 | an unknown gauge leaves the store as it is. A known gauge stores one `AeroClaim` under the event id with total, fee and epoch copied. Nothing else changes |
| AeroManagerMapping.HandleAeroDistributed | subgraph/src/AeroManager.mapping.ts:55-72 | an unknown gauge leaves the store as it is. A known gauge stores one `AeroDistribution` with recipients, amount and epoch. Nothing else changes |
| SubgraphCollateral.GetCollateralType | subgraph/src/shared/collateral.ts:8-10 | "r" for redeemable, "n" otherwise |
| SubgraphCollateral.GetCollateralId | subgraph/src/shared/collateral.ts:12-14 | the type letter, a colon and the decimal index |
| SubgraphCollateral.CollateralIdInjective | subgraph/src/shared/collateral.ts:12-14 | distinct (index, redeemable) pairs give distinct ids |
| SubgraphCollateral.AddCollateralBranch | subgraph/src/shared/collateral.ts:22-102 | an existing collateral leaves the store unchanged, so a second call does nothing; otherwise the branch is saved as `SaveBranch` states |
| SubgraphCollateral.SaveBranch | subgraph/src/shared/collateral.ts:35-101 | the new `Collateral` has the given index and redeemable flag. The addresses record the gauge, and an `AeroGauge` is stored under its address, only for a nonzero gauge. The data sources are appended in creation order |
| SubgraphStore.RegisterKeepsIntegrity | subgraph/src/shared/collateral.ts:64-75 | adding a collateral and a gauge that names it keeps every gauge under its own address and every entity's collateral present |
| CollateralGrouping.ClassOf | frontend/uikit/src/TokenIcon/collateral-grouping.ts:22-34 | non-AMM goes to Single; AMM with type samm or a "SAMM_" symbol goes to Stable; any other AMM goes to Volatile |
| CollateralGrouping.GroupsPartition | frontend/uikit/src/TokenIcon/collateral-grouping.ts:14-35 | the three groups together hold exactly the configured collaterals, as a multiset |
| CollateralGrouping.ItemsOfMember | frontend/uikit/src/TokenIcon/collateral-grouping.ts:25-34 | each collateral lands in the group of its class |
| CollateralGrouping.NameLeTotal | frontend/uikit/src/TokenIcon/collateral-grouping.ts:41 | the name order compares any two names |
| CollateralGrouping.ItemLeIsTotalPreorder | frontend/uikit/src/TokenIcon/collateral-grouping.ts:39-42 | the comparator (LTV descending, then name) is a total preorder |
| CollateralGrouping.SortGroupFacts | frontend/uikit/src/TokenIcon/collateral-grouping.ts:38-42 | each sorted group is ordered by LTV descending and by name on equal LTV. It is a permutation of the group, and items that compare equal keep their order |
| CollateralGrouping.NonEmpty | frontend/uikit/src/TokenIcon/collateral-grouping.ts:57 | the filter keeps exactly the groups with items |
| CollateralGrouping.GroupCollaterals | frontend/uikit/src/TokenIcon/collateral-grouping.ts:9-58 | the groups Single, Stable, Volatile in that order, each sorted, with the empty ones removed |
| CollateralGrouping.GroupListedIff | frontend/uikit/src/TokenIcon/collateral-grouping.ts:44-57 | a class's group is listed exactly when some collateral has that class |
| CollateralGrouping.GroupHoldsItems | frontend/uikit/src/TokenIcon/collateral-grouping.ts:14-42 | a listed group holds every collateral of its class |
| SubgraphStatus.SetError | frontend/app/src/services/SubgraphStatus.tsx:18-27 | a known id keeps length and ids and changes only that entry's error; a new id is appended at the end; the id then reads the new error |
| SubgraphStatus.ClearError | frontend/app/src/services/SubgraphStatus.tsx:29-37 | the entries with the id are removed and the rest keep their order; an absent id leaves the list as it is |
| SubgraphStatus.ClearAllErrors | frontend/app/src/services/SubgraphStatus.tsx:39-41 | the empty list, which has no error |
| SubgraphStatus.SetErrorKeepsIdsUnique | frontend/app/src/services/SubgraphStatus.tsx:18-27 | unique ids stay unique, and afterwards `hasError` holds |
| SubgraphStatus.ClearErrorKeepsIdsUnique | frontend/app/src/services/SubgraphStatus.tsx:29-37 | unique ids stay unique |
| SubgraphStatus.ClearUndoesNewError | frontend/app/src/services/SubgraphStatus.tsx:18-37 | setting an error under a new id and clearing that id restores the list |
| LpApy.AerodromePools | frontend/app/src/services/LpApy.tsx:46-50 | exactly the pools whose project contains "aerodrome" and whose chain is "base", in any case |
| LpApy.AerodromeFilterIgnoresCase | frontend/app/src/services/LpApy.tsx:48-49 | the filter does not depend on how project and chain are cased |
| LpApy.IsLpToken | frontend/app/src/services/LpApy.tsx:70-74 | the symbol's first configuration exists and has type samm or vamm; it agrees with `isAmmCollateral` |
| LpApy.NormalizeSymbol | frontend/app/src/services/LpApy.tsx:79-85 | upper-cases the symbol and strips one leading "W", and only then |
| LpApy.NormalizeIgnoresCase | frontend/app/src/services/LpApy.tsx:79-85 | normalising does not depend on how the symbol is cased |
| LpApy.JoinSplit | frontend/app/src/services/LpApy.tsx:115 | `split` loses nothing: joining the pieces gives the string back |
| LpApy.PoolTokens | frontend/app/src/services/LpApy.tsx:114-115 | a pool symbol without "-" has no second token |
| LpApy.PoolMatchesSymmetric | frontend/app/src/services/LpApy.tsx:117-120 | a pool matches the pair in either order |
| LpApy.ConfigPair | frontend/app/src/services/LpApy.tsx:94-106 | there is no pair when the configuration or either token is missing; otherwise it is the normalised pair of the first configuration |
| LpApy.Matching | frontend/app/src/services/LpApy.tsx:113-121 | exactly the pools whose tokens are the pair |
| LpApy.FindProject | frontend/app/src/services/LpApy.tsx:129-131 | the first pool of the project, or none when there is none |
| LpApy.MaxTvlIndex | frontend/app/src/services/LpApy.tsx:138-140 | the reduction picks a pool of largest TVL, the earliest on a tie |
| LpApy.ChoosePool | frontend/app/src/services/LpApy.tsx:127-140 | with the samm preference, the first "aerodrome-v1" pool if there is one; otherwise the first pool of largest TVL |
| LpApy.FindMatchingPool | frontend/app/src/services/LpApy.tsx:90-141 | null exactly when the configuration or a token is missing or no pool matches; otherwise a pool of the list, chosen as above |
| AeroManagerScreen.Entry | frontend/app/src/screens/AeroManagerScreen/AeroManagerScreen.tsx:102-107 | the entry's type is "SAMM" or "VAMM", its gauge is the nonzero Base deployment gauge, and symbol and name are copied |
| AeroManagerScreen.LpCollateralsMembers | frontend/app/src/screens/AeroManagerScreen/AeroManagerScreen.tsx:96-110 | an entry is listed exactly for each samm/vamm collateral with a nonzero gauge on chain 8453 |
| AeroManagerScreen.LpCollateralsAppend | frontend/app/src/screens/AeroManagerScreen/AeroManagerScreen.tsx:96-110 | the list follows config order: the entries of a concatenation are the concatenated entries |
| AeroManagerScreen.GetLpCollateralsWithGauges | frontend/app/src/screens/AeroManagerScreen/AeroManagerScreen.tsx:92-113 | the loop builds exactly the specified list |
| AeroManagerScreen.TotalClaimableBounds | frontend/app/src/screens/AeroManagerScreen/AeroManagerScreen.tsx:201-208 | every defined amount is at most the total, and the total is 0 exactly when nothing is claimable |
| AeroManagerScreen.ClaimableMembers | frontend/app/src/screens/AeroManagerScreen/AeroManagerScreen.tsx:211-216 | exactly the gauges whose amount is defined and positive are kept |
| AeroManagerScreen.FirstClaimableIndex | frontend/app/src/screens/AeroManagerScreen/AeroManagerScreen.tsx:241-244 | -1 exactly when nothing is claimable; otherwise the first claimable index |
| AeroManagerScreen.ClaimableHead | frontend/app/src/screens/AeroManagerScreen/AeroManagerScreen.tsx:211-244 | the filtered list is empty exactly when `findIndex` gives -1, and its head is the gauge at that index |
| AeroManagerScreen.ClaimAllTarget | frontend/app/src/screens/AeroManagerScreen/AeroManagerScreen.tsx:233-256 | nothing is claimed when no gauge is claimable; otherwise the first claimable gauge is |
| AeroManagerScreen.ShowClaimAll | frontend/app/src/screens/AeroManagerScreen/AeroManagerScreen.tsx:596 | the button shows exactly when two gauges are claimable, and then there is a claim target |
| AeroManagerScreen.ClaimableTwo | frontend/app/src/screens/AeroManagerScreen/AeroManagerScreen.tsx:211-216 | two claimable indices put two gauges on the claimable list |
| AeroManagerScreen.TwoClaimable | frontend/app/src/screens/AeroManagerScreen/AeroManagerScreen.tsx:211-216 | two gauges on the claimable list come from two claimable indices |
| AeroManagerScreen.TotalPositiveIffClaimable | frontend/app/src/screens/AeroManagerScreen/AeroManagerScreen.tsx:201-216 | with no more amounts than gauges, the total is positive exactly when some gauge is claimable |
| Theme.ThemeColor | frontend/uikit/src/Theme/Theme.tsx:222-234 | a hex value is returned as it is, a palette name gives its palette colour, anything else fails with the source's message; a result is always a hex colour |
| Theme.ThemeColorNeverThrows | frontend/uikit/src/Theme/Theme.tsx:213 | a theme whose values are palette names or hex colours never makes `themeColor` throw |
| Theme.ResolveTwice | frontend/uikit/src/Theme/Theme.tsx:225-231 | replacing a role by its resolved colour resolves it to the same colour |
| Menu.RenderedSelected | frontend/app/src/comps/AppLayout/Menu.tsx:45 | an external link is never selected; a selected link is a prefix of the path |
| Menu.HomeSelectedExactly | frontend/app/src/comps/AppLayout/Menu.tsx:45 | "/" is selected exactly on "/" |
| Menu.InternalSelectedIffPrefix | frontend/app/src/comps/AppLayout/Menu.tsx:45 | any other internal link is selected exactly on the paths it prefixes |
| Tokens.CollateralSymbolIsTokenSymbol | frontend/uikit/src/tokens.ts:46-58 | every collateral symbol is a token symbol |
| Tokens.CollateralToken | frontend/uikit/src/tokens.ts:90-95 | symbol, name and ratio are copied; the icon is the bundled one or the main token's |
| Tokens.Collaterals | frontend/uikit/src/tokens.ts:90-95 | one token per configured collateral, in order |
| Tokens.TokenOrFirst | frontend/uikit/src/tokens.ts:98-100 | the first collateral with the symbol (no earlier collateral has it); if there is none, `COLLATERALS[0]`; nothing only when there are no collaterals |
| Tokens.WriteAllKeys | frontend/uikit/src/tokens.ts:111-113 | writing tokens into a table adds exactly their symbols |
| Tokens.WriteAllLast | frontend/uikit/src/tokens.ts:111-113 | a symbol maps to the last token written with it |
| Tokens.TokensBySymbol | frontend/uikit/src/tokens.ts:103-115 | the keys are exactly the token symbols; a collateral symbol maps to its last collateral token; any other symbol keeps its named token |
| TokenIconUtils.IsAmmCollateral | frontend/uikit/src/TokenIcon/utils.ts:4-7 | the symbol's first configuration has type samm or vamm |
| TokenIconUtils.GetAmmTokenPair | frontend/uikit/src/TokenIcon/utils.ts:9-21 | null exactly for an unknown symbol or a non-AMM type; otherwise the configuration's two tokens |
| WhiteLabel.FindCollateral | frontend/app/src/services/LpApy.tsx:61-65 | the first configured collateral with the symbol, absent exactly when none has it |

## Left out

- The GraphQL transport, its error handling and the HTTP fetches are left out. Query results arrive as sequences of rows ordered by id.
- The batching of trove ids in `getSnapshotsForTroves` (collateral-tracker.ts:54-55) is left out. `GroupSnapshots` starts from all rows the batched page loops return. When the requested trove ids are distinct, the batching only changes the number of requests; the ids `TroveQuery.GetTrovesActiveInPeriod` returns are distinct when the store's are (`TroveQuery.SelectedIdsDistinct`). An id repeated in two batches would have its rows listed once per batch, which the model does not capture.
- `backend/src/index.ts` is left out: it only calls the modelled services in sequence and writes the output file. So are `config.ts` and the environment it reads.
- No reward formula is modelled, because the code has none: `rewardAmount` stays unset.
- The `Date.now()` fallback of `getCurrentBlockTimestamp` is left out. The wall-clock seconds are a parameter instead.
- The DefiLlama fetch, its cache and `getStaticApy` are left out. So are the React hooks, components, state and effects that call the helpers; the helpers themselves are modelled.
- The contract calls of `addCollateralBranch` (trove manager, borrower operations, active pool) are left out. Their answers are a parameter (`BranchCalls`).
- Theme.ThemeColor reads the palette through a parameter. `Theme.Colors` is the source's `colors` table; its value type records that every value is a hex colour.
- The light theme's role table (Theme.tsx:112-214) is not reproduced. Its well-formedness is what the `satisfies` clause at line 213 makes TypeScript check. Here it is the precondition of `Theme.ThemeColorNeverThrows`.
- Theme.ThemeColor does not model the JavaScript `in` operator's prototype keys (for example "toString"). Such values are treated as absent from the palette.
- JavaScript floats (`maxLTV`, `tvlUsd`) are exact reals: no NaN, no rounding.
- `localeCompare` is modelled as code-point lexicographic order, without locale collation.
- `toUpperCase` and `toLowerCase` are ASCII-only.
- `BigInt(string)` is modelled on unsigned decimal strings only. Signs, whitespace and "0x" prefixes are not modelled.
- The in-place `Array.prototype.sort` calls are modelled as a stable insertion sort on sequences. The model does not capture in-place mutation or the aliasing of the sorted arrays.
- Icons are modelled as their asset file names.
- Claimable amounts are `nat`, since gauge reads never return negative values.
- The label of the "Claim All" button (`Claiming...` or `Claim All (n gauges)`) is left out; `AeroManagerScreen.ShowClaimAll` models only whether the button shows.
- The template de-duplication that the indexer performs when a data source is created twice is left out. `dataSources` records every creation.
