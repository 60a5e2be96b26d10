/** Small worked examples of the shock on concrete environments. */
module Scenarios {
  import opened Ledger
  import opened Shock

  function ThreeBanks(): Env
  {
    Env([Bank("bank1", 50.0, 0.0, []), Bank("bank2", 50.0, 0.0, []), Bank("bank3", 50.0, 0.0, [])],
        [], 0.1,
        [Node("bank1", [5.0]), Node("bank2", [10.0]), Node("bank3", [1.0])])
  }

  /** Exposures 5, 10 and 1: the second bank is the target, and a type-1
      shock takes 10.0 from its capital only. */
  lemma ThreeBankExposures()
    ensures FindLargestBank(ThreeBanks()) == "bank2"
    ensures DoShock(ThreeBanks(), 1).banks[1].capital == 40.0
    ensures DoShock(ThreeBanks(), 1).banks[0].capital == 50.0
  {
  }

  function BondAndEquity(): Env
  {
    Env([Bank("bank1", 50.0, 0.0, [Transaction("bond", "investments", 100.0), Transaction("equity", "investments", 40.0)])],
        ["bond", "equity"], 0.1, [])
  }

  /** Totals bond 100 and equity 40: shock types 4 and 5 both mark down the
      bond holding to 90 and leave the equity holding at 40. */
  lemma BondAndEquityShock()
    ensures DoShockAsset(BondAndEquity(), 4, "").banks[0].accounts[0].value == 90.0
    ensures DoShockAsset(BondAndEquity(), 4, "").banks[0].accounts[1].value == 40.0
    ensures DoShockAsset(BondAndEquity(), 5, "") == DoShockAsset(BondAndEquity(), 4, "")
  {
    var banks := BondAndEquity().banks;
    assert Contributions(banks[0].accounts, "bond") == [100.0, 0.0];
    assert Contributions(banks[0].accounts, "equity") == [0.0, 40.0];
    assert Holdings(banks, "bond") == [100.0];
    assert Holdings(banks, "equity") == [40.0];
    assert AssetTotals(banks, ["bond", "equity"]) == [100.0, 40.0];
  }
}
