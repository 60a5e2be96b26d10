/** The shock of one simulation step: picking the target bank or asset
    class, the asset markdown (shock types 3, 4, 5) and the bank shocks
    (types 1, 2). Every operation is a pure function from the environment
    before the shock to the environment after it. */
module Shock {
  import opened Ledger
  import opened Argmax

  /** Capital taken from the target bank by a type-1 shock. */
  const CapitalShock: real := 10.0

  /** Value written into the target bank's `Lp` by a type-2 shock. */
  const LpShock: real := -10.0

  // ---------------------------------------------------------------------
  // Target selection
  // ---------------------------------------------------------------------

  /** The bank with the largest interbank exposure. The first bank of the
      environment is the incumbent at exposure 0.0; a graph node replaces
      the incumbent only when its summed edge weight is strictly larger. */
  function FindLargestBank(env: Env): (b: string)
    requires |env.banks| > 0
    ensures (forall j :: 0 <= j < |env.exposures| ==> Exposure(env.exposures[j]) <= 0.0)
              ==> b == env.banks[0].id
    ensures (exists j :: 0 <= j < |env.exposures| && Exposure(env.exposures[j]) > 0.0)
              ==> exists p :: 0 <= p < |env.exposures| && b == env.exposures[p].bank
                              && IsFirstMaxAbove(ExposureTotals(env.exposures), 0.0, p)
  {
    var xs := ExposureTotals(env.exposures);
    assert forall j :: 0 <= j < |env.exposures| ==> xs[j] == Exposure(env.exposures[j]);
    match ArgMaxAbove(xs, 0.0)
    case None => env.banks[0].id
    case Some(p) => env.exposures[p].bank
  }

  /** The asset class of a type-4 shock: the running maximum starts at -1
      with the empty asset name, and an asset replaces the incumbent only
      when its system-wide total is strictly larger. */
  function LargestAsset(banks: seq<Bank>, assets: seq<string>): (a: string)
    ensures (forall k :: 0 <= k < |assets| ==> AssetTotal(banks, assets[k]) <= -1.0) ==> a == ""
    ensures (exists k :: 0 <= k < |assets| && AssetTotal(banks, assets[k]) > -1.0)
              ==> exists p :: 0 <= p < |assets| && a == assets[p]
                              && IsFirstMaxAbove(AssetTotals(banks, assets), -1.0, p)
  {
    var xs := AssetTotals(banks, assets);
    assert forall k :: 0 <= k < |assets| ==> xs[k] == AssetTotal(banks, assets[k]);
    match ArgMaxAbove(xs, -1.0)
    case None => ""
    case Some(p) => assets[p]
  }

  /** The asset class of a type-5 shock: the first asset is taken while the
      running value still equals the sentinel -1, later ones only when their
      total is strictly larger. Unless some total is exactly -1, this is the
      first asset with the largest total, even when every total is negative. */
  function SeededAsset(banks: seq<Bank>, assets: seq<string>): (a: string)
    ensures |assets| == 0 ==> a == ""
    ensures |assets| > 0 ==> exists p :: 0 <= p < |assets| && a == assets[p]
    ensures (|assets| > 0 && forall k :: 0 <= k < |assets| ==> AssetTotal(banks, assets[k]) != -1.0)
              ==> exists p :: 0 <= p < |assets| && a == assets[p] && IsFirstMax(AssetTotals(banks, assets), p)
  {
    var xs := AssetTotals(banks, assets);
    assert forall k :: 0 <= k < |assets| ==> xs[k] == AssetTotal(banks, assets[k]);
    assert (forall k :: 0 <= k < |assets| ==> AssetTotal(banks, assets[k]) != -1.0) ==> NoSentinel(xs);
    match SeededMax(xs)
    case None => ""
    case Some(p) => assets[p]
  }

  /** With non-negative transaction values, and a non-empty asset list, the
      type-4 asset is the first asset whose total is at least every other
      asset's total. */
  lemma LargestAssetIsFirstMax(banks: seq<Bank>, assets: seq<string>)
    requires NonNegative(banks)
    requires |assets| > 0
    ensures exists p :: 0 <= p < |assets| && LargestAsset(banks, assets) == assets[p]
                        && (forall k :: 0 <= k < |assets| ==> AssetTotal(banks, assets[k]) <= AssetTotal(banks, assets[p]))
                        && (forall k :: 0 <= k < p ==> AssetTotal(banks, assets[k]) < AssetTotal(banks, assets[p]))
  {
    AssetTotalNonNegative(banks, assets[0]);
    var xs := AssetTotals(banks, assets);
    assert xs[0] > -1.0;
    var p :| 0 <= p < |assets| && LargestAsset(banks, assets) == assets[p] && IsFirstMaxAbove(xs, -1.0, p);
    assert IsFirstMaxAbove(xs, -1.0, p);
    forall k | 0 <= k < |assets| ensures AssetTotal(banks, assets[k]) <= AssetTotal(banks, assets[p]) {
      assert xs[k] <= xs[p];
    }
    forall k | 0 <= k < p ensures AssetTotal(banks, assets[k]) < AssetTotal(banks, assets[p]) {
      assert xs[k] < xs[p];
    }
  }

  /** With non-negative transaction values the type-5 selection, although
      its source comment says "smallest asset", picks exactly the type-4
      (largest) asset. */
  lemma SeededAssetIsLargest(banks: seq<Bank>, assets: seq<string>)
    requires NonNegative(banks)
    ensures SeededAsset(banks, assets) == LargestAsset(banks, assets)
  {
    var xs := AssetTotals(banks, assets);
    forall k | 0 <= k < |xs| ensures xs[k] > -1.0 {
      AssetTotalNonNegative(banks, assets[k]);
    }
    SeededAgrees(xs);
  }

  /** The asset hit by an asset shock of type `code` (3, 4 or 5). A type-3
      shock draws an asset at random from the list; the draw is the caller's
      `pick`. */
  function SelectAsset(env: Env, code: int, pick: string): (a: string)
    requires 3 <= code <= 5
    requires code == 3 ==> pick in env.assets
    ensures a in env.assets || (a == "" && code != 3)
    ensures code == 3 ==> a == pick
    ensures code != 3 && |env.assets| == 0 ==> a == ""
  {
    if code == 3 then pick
    else if code == 4 then LargestAsset(env.banks, env.assets)
    else SeededAsset(env.banks, env.assets)
  }

  // ---------------------------------------------------------------------
  // Asset markdown
  // ---------------------------------------------------------------------

  /** Each transaction tagged `a` has its value multiplied by `factor`; the
      transaction type is not consulted. */
  function MarkAccounts(ts: seq<Transaction>, a: string, factor: real): seq<Transaction>
  {
    seq(|ts|, k requires 0 <= k < |ts| => MarkOne(ts[k], a, factor))
  }

  /** One transaction after the markdown of asset `a`. */
  function MarkOne(t: Transaction, a: string, factor: real): Transaction
  {
    if t.asset == a then t.(value := factor * t.value) else t
  }

  /** `after` is `before` with every transaction tagged `a` scaled by
      `factor` and nothing else changed: the same banks in the same order,
      the same capital and `Lp`, the same accounts in the same order. */
  predicate MarkedDown(before: seq<Bank>, after: seq<Bank>, a: string, factor: real)
  {
    && |after| == |before|
    && (forall i :: 0 <= i < |before| ==>
          && after[i].id == before[i].id
          && after[i].capital == before[i].capital
          && after[i].lp == before[i].lp
          && |after[i].accounts| == |before[i].accounts|)
    && (forall i, k :: 0 <= i < |before| && 0 <= k < |before[i].accounts| ==>
          && after[i].accounts[k].asset == before[i].accounts[k].asset
          && after[i].accounts[k].kind == before[i].accounts[k].kind
          && after[i].accounts[k].value ==
               (if before[i].accounts[k].asset == a then factor * before[i].accounts[k].value
                else before[i].accounts[k].value))
  }

  /** The markdown loop over all banks and all their accounts. */
  function MarkBanks(banks: seq<Bank>, a: string, factor: real): seq<Bank>
  {
    seq(|banks|, i requires 0 <= i < |banks| =>
      banks[i].(accounts := MarkAccounts(banks[i].accounts, a, factor)))
  }

  /** Within one bank the holding of the shocked asset is scaled by
      `factor`, and the holding of any other asset is unchanged. */
  lemma MarkAccountsHolding(ts: seq<Transaction>, a: string, b: string, factor: real)
    ensures Holding(MarkAccounts(ts, a, factor), b) == (if a == b then factor * Holding(ts, b) else Holding(ts, b))
  {
    var xs, ys := Contributions(ts, b), Contributions(MarkAccounts(ts, a, factor), b);
    if a == b {
      SumScaled(xs, ys, factor);
    } else {
      assert ys == xs;
    }
  }

  /** Bank by bank, the holding of the shocked asset is scaled by `factor`,
      and the holding of any other asset is unchanged. */
  lemma MarkBanksHoldings(banks: seq<Bank>, a: string, b: string, factor: real)
    ensures var xs, ys := Holdings(banks, b), Holdings(MarkBanks(banks, a, factor), b);
            |ys| == |xs| && (a == b ==> forall i :: 0 <= i < |xs| ==> ys[i] == factor * xs[i])
    ensures a != b ==> Holdings(MarkBanks(banks, a, factor), b) == Holdings(banks, b)
  {
    var r := MarkBanks(banks, a, factor);
    forall i | 0 <= i < |banks| ensures Holding(r[i].accounts, b) == (if a == b then factor * Holding(banks[i].accounts, b) else Holding(banks[i].accounts, b)) {
      MarkAccountsHolding(banks[i].accounts, a, b, factor);
    }
  }

  /** After the markdown the system-wide total of the shocked asset is the
      old total times `factor`; the total of every other asset is unchanged. */
  lemma MarkBanksScalesTotal(banks: seq<Bank>, a: string, b: string, factor: real)
    ensures AssetTotal(MarkBanks(banks, a, factor), b) == (if a == b then factor * AssetTotal(banks, b) else AssetTotal(banks, b))
  {
    if a == b {
      MarkBanksScalesOwnTotal(banks, a, factor);
    } else {
      MarkBanksHoldings(banks, a, b, factor);
    }
  }

  /** The system-wide total of the shocked asset is scaled by `factor`. */
  lemma MarkBanksScalesOwnTotal(banks: seq<Bank>, a: string, factor: real)
    ensures AssetTotal(MarkBanks(banks, a, factor), a) == factor * AssetTotal(banks, a)
  {
    MarkBanksHoldings(banks, a, a, factor);
    ScaledHoldingsScaleTotal(banks, MarkBanks(banks, a, factor), a, factor);
  }

  /** With a loss fraction in [0, 1] the markdown keeps non-negative values
      non-negative and never raises them. */
  lemma MarkdownShrinks(before: seq<Bank>, after: seq<Bank>, a: string, loss: real)
    requires 0.0 <= loss <= 1.0
    requires MarkedDown(before, after, a, 1.0 - loss)
    ensures forall i, k :: 0 <= i < |before| && 0 <= k < |before[i].accounts| && before[i].accounts[k].value >= 0.0
              ==> 0.0 <= after[i].accounts[k].value <= before[i].accounts[k].value
    ensures NonNegative(before) ==> NonNegative(after)
  {
    forall i, k | 0 <= i < |before| && 0 <= k < |before[i].accounts| && before[i].accounts[k].value >= 0.0
      ensures 0.0 <= after[i].accounts[k].value <= before[i].accounts[k].value
    {
      var v := before[i].accounts[k].value;
      assert 0.0 <= (1.0 - loss) * v <= v by {
        assert (1.0 - loss) * v == v - loss * v;
        assert loss * v >= 0.0;
      }
    }
  }

  // ---------------------------------------------------------------------
  // Dispatch
  // ---------------------------------------------------------------------

  /** Every transaction tagged with asset `a` marked down by the fraction
      `AssetShockLoss`. */
  function ShockAsset(env: Env, a: string): (r: Env)
    ensures r.assets == env.assets && r.assetShockLoss == env.assetShockLoss && r.exposures == env.exposures
    ensures MarkedDown(env.banks, r.banks, a, 1.0 - env.assetShockLoss)
  {
    env.(banks := MarkBanks(env.banks, a, 1.0 - env.assetShockLoss))
  }

  /** The asset shock of one step. Codes 3, 4 and 5 select an asset and mark
      down every transaction tagged with it by the fraction
      `AssetShockLoss`; any other code changes nothing. */
  function DoShockAsset(env: Env, code: int, pick: string): (r: Env)
    requires code == 3 ==> pick in env.assets
    ensures r.assets == env.assets && r.assetShockLoss == env.assetShockLoss && r.exposures == env.exposures
    ensures !(3 <= code <= 5) ==> r == env
    ensures 3 <= code <= 5 ==> MarkedDown(env.banks, r.banks, SelectAsset(env, code, pick), 1.0 - env.assetShockLoss)
  {
    if 3 <= code <= 5 then ShockAsset(env, SelectAsset(env, code, pick))
    else env
  }

  /** After the markdown of asset `a` the system-wide total of `a` is scaled
      by exactly `1 - AssetShockLoss`, and every other asset total is
      unchanged. */
  lemma AssetShockScalesTotal(env: Env, a: string, b: string)
    ensures AssetTotal(ShockAsset(env, a).banks, b)
              == (if a == b then (1.0 - env.assetShockLoss) * AssetTotal(env.banks, b) else AssetTotal(env.banks, b))
  {
    MarkBanksScalesTotal(env.banks, a, b, 1.0 - env.assetShockLoss);
  }

  /** An asset shock of type 3, 4 or 5 scales the system-wide total of the
      selected asset by `1 - AssetShockLoss` and leaves every other asset
      total unchanged. */
  lemma DoShockAssetScalesTotal(env: Env, code: int, pick: string, b: string)
    requires 3 <= code <= 5
    requires code == 3 ==> pick in env.assets
    ensures var a := SelectAsset(env, code, pick);
            AssetTotal(DoShockAsset(env, code, pick).banks, b)
              == (if a == b then (1.0 - env.assetShockLoss) * AssetTotal(env.banks, b) else AssetTotal(env.banks, b))
  {
    AssetShockScalesTotal(env, SelectAsset(env, code, pick), b);
  }

  /** With non-negative transaction values shock types 4 and 5 have the same
      effect. */
  lemma LargestAndSmallestShocksAgree(env: Env, pick: string)
    requires NonNegative(env.banks)
    ensures DoShockAsset(env, 4, pick) == DoShockAsset(env, 5, pick)
  {
    SeededAssetIsLargest(env.banks, env.assets);
  }

  /** With an empty asset list shock types 4 and 5 mark down only the
      transactions tagged with the empty asset name. */
  lemma EmptyAssetListShocksUntagged(env: Env, code: int, pick: string)
    requires code == 4 || code == 5
    requires |env.assets| == 0
    ensures var r := DoShockAsset(env, code, pick);
            forall i, k :: 0 <= i < |env.banks| && 0 <= k < |env.banks[i].accounts|
                             && r.banks[i].accounts[k] != env.banks[i].accounts[k]
                           ==> env.banks[i].accounts[k].asset == ""
  {
  }

  /** Lowers the capital of every bank carrying identity `id` by `amount`. */
  function ReduceCapital(banks: seq<Bank>, id: string, amount: real): (r: seq<Bank>)
    ensures |r| == |banks|
    ensures forall i :: 0 <= i < |banks| ==>
              && r[i].id == banks[i].id && r[i].lp == banks[i].lp && r[i].accounts == banks[i].accounts
              && r[i].capital == (if banks[i].id == id then banks[i].capital - amount else banks[i].capital)
  {
    if |banks| == 0 then []
    else
      var b := banks[0];
      [if b.id == id then b.(capital := b.capital - amount) else b] + ReduceCapital(banks[1..], id, amount)
  }

  /** Total capital falls by `amount` for every bank carrying identity `id`. */
  lemma {:induction false} ReduceCapitalTotal(banks: seq<Bank>, id: string, amount: real)
    ensures TotalCapital(ReduceCapital(banks, id, amount)) == TotalCapital(banks) - amount * (Occurrences(banks, id) as real)
  {
    if |banks| > 0 {
      ReduceCapitalTotal(banks[1..], id, amount);
      var r := ReduceCapital(banks, id, amount);
      var n := Occurrences(banks[1..], id) as real;
      assert r[1..] == ReduceCapital(banks[1..], id, amount);
      assert TotalCapital(r) == r[0].capital + TotalCapital(r[1..]);
      if banks[0].id == id {
        assert Occurrences(banks, id) as real == 1.0 + n;
        assert amount * (1.0 + n) == amount + amount * n;
      } else {
        assert Occurrences(banks, id) as real == n;
      }
    }
  }

  /** Overwrites the `Lp` parameter of every bank carrying identity `id`. */
  function SetLp(banks: seq<Bank>, id: string, v: real): (r: seq<Bank>)
    ensures |r| == |banks|
    ensures forall i :: 0 <= i < |banks| ==>
              && r[i].id == banks[i].id && r[i].capital == banks[i].capital && r[i].accounts == banks[i].accounts
              && r[i].lp == (if banks[i].id == id then v else banks[i].lp)
  {
    seq(|banks|, i requires 0 <= i < |banks| => if banks[i].id == id then banks[i].(lp := v) else banks[i])
  }

  /** The bank shock of one step. Code 1 lowers the capital of the bank with
      the largest interbank exposure by 10.0; code 2 sets its `Lp` to -10.0;
      any other code changes nothing. The first bank is read whatever the
      code, so the bank list must not be empty. */
  function DoShock(env: Env, code: int): (r: Env)
    requires |env.banks| > 0
    ensures r.assets == env.assets && r.assetShockLoss == env.assetShockLoss && r.exposures == env.exposures
    ensures |r.banks| == |env.banks|
    ensures forall i :: 0 <= i < |env.banks| ==> r.banks[i].id == env.banks[i].id && r.banks[i].accounts == env.banks[i].accounts
    ensures code == 1 ==> forall i :: 0 <= i < |env.banks| ==>
              && r.banks[i].lp == env.banks[i].lp
              && r.banks[i].capital == (if env.banks[i].id == FindLargestBank(env) then env.banks[i].capital - 10.0
                                        else env.banks[i].capital)
    ensures code == 2 ==> forall i :: 0 <= i < |env.banks| ==>
              && r.banks[i].capital == env.banks[i].capital
              && r.banks[i].lp == (if env.banks[i].id == FindLargestBank(env) then -10.0 else env.banks[i].lp)
    ensures code != 1 && code != 2 ==> r == env
  {
    if code == 1 then env.(banks := ReduceCapital(env.banks, FindLargestBank(env), CapitalShock))
    else if code == 2 then env.(banks := SetLp(env.banks, FindLargestBank(env), LpShock))
    else env
  }

  /** The selected bank is one of the environment's banks whenever every
      node of the exposure graph is. */
  lemma TargetIsABank(env: Env)
    requires |env.banks| > 0
    requires GraphOverBanks(env)
    ensures HasBank(env.banks, FindLargestBank(env))
  {
  }

  /** When bank identities are unique and the graph is over the banks, a
      type-1 shock lowers the system's total capital by exactly 10.0. */
  lemma CapitalShockLowersTotal(env: Env)
    requires |env.banks| > 0
    requires UniqueIds(env.banks)
    requires GraphOverBanks(env)
    ensures TotalCapital(DoShock(env, 1).banks) == TotalCapital(env.banks) - CapitalShock
  {
    var t := FindLargestBank(env);
    TargetIsABank(env);
    PresentUniqueOccursOnce(env.banks, t);
    assert DoShock(env, 1).banks == ReduceCapital(env.banks, t, CapitalShock);
    ReduceCapitalTotal(env.banks, t, CapitalShock);
  }

  /** When bank identities are unique and the graph is over the banks, a
      type-2 shock leaves every bank but the target unchanged, and the
      target's `Lp` is -10.0. */
  lemma LpShockChangesOneBank(env: Env)
    requires |env.banks| > 0
    requires UniqueIds(env.banks)
    requires GraphOverBanks(env)
    ensures var r := DoShock(env, 2);
            exists i :: 0 <= i < |env.banks| && env.banks[i].id == FindLargestBank(env) && r.banks[i].lp == LpShock
                        && forall j :: 0 <= j < |env.banks| && j != i ==> r.banks[j] == env.banks[j]
  {
    var r := DoShock(env, 2);
    TargetIsABank(env);
    var i :| 0 <= i < |env.banks| && env.banks[i].id == FindLargestBank(env);
    forall j | 0 <= j < |env.banks| && j != i ensures r.banks[j] == env.banks[j] {
      assert env.banks[j].id != env.banks[i].id;
    }
  }
}
