/** The balance-sheet data a shock reads and changes: transactions, banks,
    the interbank exposure graph and the environment that owns them, and the
    sums the target selection ranks by.

    Amounts are `real`: floating-point rounding is not modelled. All sums are
    written head-first; the source accumulates left to right, which gives the
    same value over the reals. */
module Ledger {

  /** One account entry of a bank: the asset class it is tagged with, its
      transaction type (interbank loan, investment, ...) and its value. */
  datatype Transaction = Transaction(asset: string, kind: string, value: real)

  /** A bank with the two parameters a bank shock can change: its banking
      capital and its liquidity parameter `Lp`. `id` stands for the identity
      of the bank object. */
  datatype Bank = Bank(id: string, capital: real, lp: real, accounts: seq<Transaction>)

  /** A node of the exposure graph: the bank it stands for and the weights of
      its edges to its neighbours, in the order the graph yields them. */
  datatype Node = Node(bank: string, weights: seq<real>)

  /** The part of the simulation environment a shock touches: the banks, the
      list of asset classes, the `AssetShockLoss` static parameter and the
      exposure graph as an ordered sequence of nodes. */
  datatype Env = Env(banks: seq<Bank>, assets: seq<string>, assetShockLoss: real, exposures: seq<Node>)

  function Sum(xs: seq<real>): real
  {
    if |xs| == 0 then 0.0 else xs[0] + Sum(xs[1..])
  }

  /** Total interbank exposure of a node: the sum of its edge weights. */
  function Exposure(n: Node): real
  {
    Sum(n.weights)
  }

  /** The exposure of every node, in node order. */
  function ExposureTotals(nodes: seq<Node>): seq<real>
  {
    seq(|nodes|, j requires 0 <= j < |nodes| => Exposure(nodes[j]))
  }

  /** What one transaction adds to the holding of asset `a`. */
  function Contribution(t: Transaction, a: string): real
  {
    if t.asset == a then t.value else 0.0
  }

  /** What each transaction adds to the holding of asset `a`, in account
      order. */
  function Contributions(ts: seq<Transaction>, a: string): seq<real>
  {
    seq(|ts|, k requires 0 <= k < |ts| => Contribution(ts[k], a))
  }

  /** Sum of the values of the transactions tagged with asset `a`. */
  function Holding(ts: seq<Transaction>, a: string): real
  {
    Sum(Contributions(ts, a))
  }

  /** Every bank's holding of asset `a`, in bank order. */
  function Holdings(banks: seq<Bank>, a: string): seq<real>
  {
    seq(|banks|, i requires 0 <= i < |banks| => Holding(banks[i].accounts, a))
  }

  /** Sum over all banks and all their accounts of the values tagged `a`. */
  function AssetTotal(banks: seq<Bank>, a: string): real
  {
    Sum(Holdings(banks, a))
  }

  /** The system-wide total of every listed asset class, in list order. */
  function AssetTotals(banks: seq<Bank>, assets: seq<string>): seq<real>
  {
    seq(|assets|, k requires 0 <= k < |assets| => AssetTotal(banks, assets[k]))
  }

  function TotalCapital(banks: seq<Bank>): real
  {
    if |banks| == 0 then 0.0 else banks[0].capital + TotalCapital(banks[1..])
  }

  /** How many banks carry the identity `id`. */
  function Occurrences(banks: seq<Bank>, id: string): nat
  {
    if |banks| == 0 then 0 else (if banks[0].id == id then 1 else 0) + Occurrences(banks[1..], id)
  }

  predicate HasBank(banks: seq<Bank>, id: string)
  {
    exists i :: 0 <= i < |banks| && banks[i].id == id
  }

  /** Every bank object appears once in the bank list. */
  predicate UniqueIds(banks: seq<Bank>)
  {
    forall i, j :: 0 <= i < j < |banks| ==> banks[i].id != banks[j].id
  }

  /** Every node of the exposure graph is one of the environment's banks. */
  predicate GraphOverBanks(env: Env)
  {
    forall j :: 0 <= j < |env.exposures| ==> HasBank(env.banks, env.exposures[j].bank)
  }

  /** No transaction of any bank has a negative value. */
  predicate NonNegative(banks: seq<Bank>)
  {
    forall i, k :: 0 <= i < |banks| && 0 <= k < |banks[i].accounts| ==> banks[i].accounts[k].value >= 0.0
  }

  lemma {:induction false} SumNonNegative(xs: seq<real>)
    requires forall j :: 0 <= j < |xs| ==> xs[j] >= 0.0
    ensures Sum(xs) >= 0.0
  {
    if |xs| > 0 {
      assert forall j :: 0 <= j < |xs| - 1 ==> xs[1..][j] == xs[j + 1];
      SumNonNegative(xs[1..]);
    }
  }

  /** Scaling every summand by `c` scales the sum by `c`. */
  lemma {:induction false} SumScaled(xs: seq<real>, ys: seq<real>, c: real)
    requires |ys| == |xs|
    requires forall j :: 0 <= j < |xs| ==> ys[j] == c * xs[j]
    ensures Sum(ys) == c * Sum(xs)
  {
    if |xs| > 0 {
      assert forall j :: 0 <= j < |xs| - 1 ==> ys[1..][j] == ys[j + 1] && xs[1..][j] == xs[j + 1];
      SumScaled(xs[1..], ys[1..], c);
      assert c * (xs[0] + Sum(xs[1..])) == c * xs[0] + c * Sum(xs[1..]);
    }
  }

  /** When every bank's holding of `b` is scaled by `c`, so is the
      system-wide total of `b`. */
  lemma ScaledHoldingsScaleTotal(before: seq<Bank>, after: seq<Bank>, b: string, c: real)
    requires |after| == |before|
    requires forall i :: 0 <= i < |before| ==> Holdings(after, b)[i] == c * Holdings(before, b)[i]
    ensures AssetTotal(after, b) == c * AssetTotal(before, b)
  {
    SumScaled(Holdings(before, b), Holdings(after, b), c);
  }

  /** With non-negative transaction values every asset total is non-negative. */
  lemma AssetTotalNonNegative(banks: seq<Bank>, a: string)
    requires NonNegative(banks)
    ensures AssetTotal(banks, a) >= 0.0
  {
    var hs := Holdings(banks, a);
    forall i | 0 <= i < |banks| ensures hs[i] >= 0.0 {
      SumNonNegative(Contributions(banks[i].accounts, a));
    }
    SumNonNegative(hs);
  }

  /** A bank that is present and whose identity is unique occurs exactly once. */
  lemma {:induction false} PresentUniqueOccursOnce(banks: seq<Bank>, id: string)
    requires UniqueIds(banks)
    requires HasBank(banks, id)
    ensures Occurrences(banks, id) == 1
  {
    var i :| 0 <= i < |banks| && banks[i].id == id;
    if i == 0 {
      AbsentOccursNever(banks[1..], id);
    } else {
      assert banks[1..][i - 1] == banks[i];
      PresentUniqueOccursOnce(banks[1..], id);
    }
  }

  lemma {:induction false} AbsentOccursNever(banks: seq<Bank>, id: string)
    requires !HasBank(banks, id)
    ensures Occurrences(banks, id) == 0
  {
    if |banks| > 0 {
      assert banks[0].id != id;
      AbsentOccursNever(banks[1..], id);
    }
  }
}
