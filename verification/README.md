# Shock selection and markdown in ruby_rhino

This project models the `Shock` class of the ruby_rhino financial network
simulator (`src/shock.py`). A shock is applied once per simulation step. It
picks a target, either the bank with the largest interbank exposure or an
asset class, and then changes balance-sheet values:

- **Bank target selection** (`find_largest_bank`). For each node of the
  exposure graph, the weights of its edges are summed. The first bank of the
  environment is the incumbent at exposure 0.0, and a node replaces the
  incumbent only when its sum is strictly larger.
- **Asset shocks** (`do_shock_asset`).
  - Type 3 takes a random asset from the asset list.
  - Type 4 takes the asset with the largest system-wide total. The running
    maximum starts at -1 with the empty asset name, and an asset replaces the
    incumbent only on a strict `>`.
  - Type 5 takes the first asset while the running value still equals the
    sentinel -1. After that, a later asset replaces the incumbent only on a
    strict `>`.
  - Every transaction tagged with the chosen asset is then multiplied by
    `1 - AssetShockLoss`, whatever its transaction type.
- **Bank shocks** (`do_shock`).
  - Type 1 lowers the target bank's capital by 10.0.
  - Type 2 sets the target bank's `Lp` parameter to -10.0.
  - Any other type changes nothing.

Modules:

- `Ledger` (ledger.dfy): transactions, banks, the graph nodes, the
  environment, and the sums that selection ranks by.
- `Argmax` (argmax.dfy): the two selection scans over a sequence of totals,
  with a reference definition of "first maximum".
- `Shock` (shock.dfy): selection, markdown and dispatch, all written as pure
  functions from the environment before the shock to the environment after
  it.
- `Scenarios` (scenarios.dfy): worked examples.

Two details of the type-5 code are easy to misread, and the model follows
the code as written:

- The comment at src/shock.py:97 calls type 5 the "smallest asset". The
  code keeps a running `max_dummie` and replaces the incumbent only when
  `sum_dummie > max_dummie` (line 111), so it selects the largest asset. For
  non-negative totals it picks exactly the type-4 asset
  (`Shock.SeededAssetIsLargest`, `Shock.LargestAndSmallestShocksAgree`,
  `Argmax.SeededPicksLargestOfTwo`).
- The test at line 107 compares the running value with -1, not with a
  "nothing picked yet" flag. So a total equal to -1 lets the next asset in
  unconditionally. With totals -5, -1, -3 type 5 picks the third asset,
  while type 4 picks none (`Argmax.SeededSentinelReopens`). When no total
  is exactly -1, type 5 picks the first maximum even if every total is
  below -1, where type 4 picks none (`Argmax.SeededPicksBelowSentinel`).

## Model

| member | source | states |
|---|---|---|
| Argmax.ScanFrom | src/shock.py:130-136 | The remaining strict-`>` scan, given the invariant over the part already scanned. It returns nothing exactly when no total exceeds the floor. Otherwise it returns the first index whose total is at least every total and above the floor. |
| Argmax.ArgMaxAbove | src/shock.py:128-137 | The full scan, starting at the floor with nothing picked. It returns nothing iff every total is at or below the floor. Otherwise it returns the first maximal index, so ties keep the earlier one. |
| Argmax.FirstMaxUnique | src/shock.py:134 | The first maximum above a floor is unique: an index whose every earlier total is strictly smaller and whose total is at least all others is the only such index, so the scan contracts fix the index. |
| Argmax.ArgMaxMatchesReference | src/shock.py:130-136 | The scan agrees with an independent definition. It picks the first position of the maximum when the maximum exceeds the floor, and nothing otherwise. |
| Argmax.SeededFrom | src/shock.py:101-113 | The remaining type-5 scan. It picks nothing only when the list is empty, and otherwise a listed index. When no total equals -1, it ends on the first maximal index. This holds from the initial state, and from a picked index that is the first maximum of the part already scanned. |
| Argmax.SeededMax | src/shock.py:99-113 | The type-5 scan picks an index iff the list is non-empty. When no total equals the sentinel -1, the index is the first maximal one, whatever the signs of the totals. |
| Argmax.SeededAgreesFrom | src/shock.py:107-113 | Once an index is picked and every total is above -1, the rest of the type-5 scan and the strict-`>` scan from -1 return the same index. |
| Argmax.SeededAgrees | src/shock.py:79-113 | When every total is above -1, the type-5 scan and the type-4 scan pick the same index, the first maximum. |
| Argmax.SeededPicksLargestOfTwo | src/shock.py:96-113 | With totals 100 and 40, the type-5 scan picks the first (largest) one. |
| Argmax.SeededSentinelReopens | src/shock.py:100-113 | With totals -5, -1, -3, the type-5 scan picks the third, while the type-4 scan picks none. |
| Argmax.SeededPicksBelowSentinel | src/shock.py:79-113 | With totals -5 and -3, the type-5 scan picks the second, while the type-4 scan picks none. |
| Ledger.AssetTotalNonNegative | src/shock.py:81-85 | If no transaction value is negative, no asset's system-wide total is negative. |
| Ledger.PresentUniqueOccursOnce | src/shock.py:50 | With unique bank identities, a bank in the list is hit once by a change addressed to it. |
| Shock.FindLargestBank | src/shock.py:127-137 | Returns the first bank of the environment when no node's summed edge weight exceeds 0.0. Otherwise returns the bank of the first node whose sum is positive and at least every node's sum. |
| Shock.TargetIsABank | src/shock.py:127-137 | If every graph node is a bank of the environment, the selected target is one of its banks. |
| Shock.LargestAsset | src/shock.py:78-88 | Returns the empty asset name when no asset total exceeds -1. Otherwise returns the first listed asset whose total is above -1 and at least every listed asset's total. |
| Shock.LargestAssetIsFirstMax | src/shock.py:79-88 | For non-negative values and a non-empty list, the type-4 asset has a total at least every listed asset's total, and every earlier asset's total is strictly smaller. |
| Shock.SeededAsset | src/shock.py:98-113 | Returns the empty asset name for an empty list, and a listed asset otherwise. When no asset total equals exactly -1, it returns the first listed asset whose total is at least every listed asset's total. |
| Shock.SeededAssetIsLargest | src/shock.py:99-113 | For non-negative values, the type-5 asset is the type-4 asset. |
| Shock.SelectAsset | src/shock.py:64-113 | Type 3 hits the caller's draw from the list. Types 4 and 5 hit a listed asset, or the empty name. With an empty list they hit the empty name. |
| Shock.ShockAsset | src/shock.py:70-73 | The markdown of an asset keeps the banks and their order, each bank's capital and `Lp`, and its accounts with their order, asset and type. It multiplies by `1 - AssetShockLoss` exactly the values tagged with that asset. |
| Shock.MarkAccountsHolding | src/shock.py:71-73 | Within one bank, the holding of the shocked asset is scaled by the factor. Holdings of other assets are unchanged. |
| Shock.MarkBanksHoldings | src/shock.py:70-73 | Bank by bank, the holding of the shocked asset is scaled by the factor. Every bank's holding of any other asset is unchanged. |
| Shock.MarkBanksScalesTotal | src/shock.py:91-94 | The system-wide total of the shocked asset is scaled by exactly the factor. Every other asset total is unchanged. |
| Shock.MarkdownShrinks | src/shock.py:116-119 | For a loss in [0, 1], the markdown keeps non-negative values non-negative and never raises them. |
| Shock.DoShockAsset | src/shock.py:60-119 | Types 3, 4 and 5 mark down the selected asset by `1 - AssetShockLoss` and change nothing else. Any other type leaves the environment unchanged. |
| Shock.AssetShockScalesTotal | src/shock.py:70-73 | After the markdown of an asset, that asset's system-wide total is the old total times `1 - AssetShockLoss`. Every other asset total is unchanged. |
| Shock.DoShockAssetScalesTotal | src/shock.py:60-119 | After an asset shock of type 3, 4 or 5, the selected asset's system-wide total is the old total times `1 - AssetShockLoss`. Every other asset total is unchanged. |
| Shock.LargestAndSmallestShocksAgree | src/shock.py:75-119 | For non-negative values, shock types 4 and 5 produce the same environment. |
| Shock.EmptyAssetListShocksUntagged | src/shock.py:78-94 | With an empty asset list, types 4 and 5 change only transactions tagged with the empty name. |
| Shock.ReduceCapital | src/shock.py:50 | Only banks carrying the target identity lose the amount from their capital. Identity, `Lp` and accounts stay unchanged. |
| Shock.ReduceCapitalTotal | src/shock.py:50 | Total capital falls by the amount once per bank carrying the target identity. |
| Shock.SetLp | src/shock.py:57 | Only banks carrying the target identity get the new `Lp` value. Identity, capital and accounts stay unchanged, as does every other bank's `Lp`. |
| Shock.DoShock | src/shock.py:40-57 | Requires a non-empty bank list. Type 1 lowers only the target's capital by 10.0. Type 2 sets only the target's `Lp` to -10.0. Any other type changes nothing. |
| Shock.CapitalShockLowersTotal | src/shock.py:46-51 | With unique identities and a graph over the banks, a type-1 shock lowers total capital by exactly 10.0. |
| Shock.LpShockChangesOneBank | src/shock.py:53-57 | With unique identities and a graph over the banks, a type-2 shock leaves every bank but one unchanged. That one is the selected target, and its `Lp` is -10.0. |
| Scenarios.ThreeBankExposures | src/shock.py:127-137 | With exposures 5, 10 and 1, the second bank is the target. A type-1 shock lowers its capital from 50 to 40 and leaves the first bank's capital unchanged. |
| Scenarios.BondAndEquityShock | src/shock.py:75-119 | With totals bond 100 and equity 40 and a loss of 0.1, type 4 marks the bond down to 90 and leaves equity at 40. Type 5 has the same effect. |

## Left out

- Logging (src/shock.py:45, 63): diagnostics only. It has no effect on state.
- The random draw of type 3 (src/shock.py:68): the model takes the drawn asset as the parameter `pick`, required to be in the asset list. `random.choice` fails on an empty list, so type 3 needs a non-empty list.
- `check_solvency` after a type-1 shock (src/shock.py:51): it belongs to the bank and its code is not part of this model. The model treats it as having no effect.
- `reduce_banking_capital` (src/shock.py:50): the bank's internals are not part of this model. Capital is a single `real` field lowered by the amount.
- The graph library (src/shock.py:130-133): the exposure graph is an ordered sequence of nodes. Each node has the weights of its edges in iteration order.
- Object identity: a bank is identified by its `id` field. Changes apply to every bank carrying the target identity. The "exactly one bank" lemmas assume unique identities, and that every graph node is a bank of the environment.
- Sharing: the model treats the bank list and every account list as values, so every bank appears once in the bank list and every transaction belongs to one account list once. The source changes objects in place, so a shared bank or transaction would be marked down once per occurrence, while the model marks each position once. `Shock.ShockAsset`, `Shock.AssetShockScalesTotal` and `Shock.DoShockAssetScalesTotal` hold for the source only when nothing is shared.
- Floating point: amounts are `real`, so rounding, and the order in which the source adds, do not matter.
- Shock type: the parameter `code` is the integer the source reads from the time step's state.
- Argmax.SeededFrom: when some total equals exactly -1, the contract says only that a listed index is picked. The exact pick then follows the definition, and `Argmax.SeededSentinelReopens` shows one case.
- Argmax.SeededMax: when some total equals exactly -1, the contract says only that a listed index is picked, for the same reason as `Argmax.SeededFrom`.
- Shock.SeededAsset: when some asset total equals exactly -1, the contract says only that a listed asset is picked, for the same reason as `Argmax.SeededFrom`.
