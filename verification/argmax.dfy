/** The two selection scans of the shock, stated over a sequence of totals.

    `ArgMaxAbove` is the loop shared by the bank selection (floor 0.0, the
    incumbent being the first bank) and the largest-asset selection (floor -1,
    the incumbent being the empty asset name): an index replaces the
    incumbent only when its total is strictly greater than the best so far.
    `SeededMax` is the scan of shock type 5, which takes the first index
    unconditionally while the running best still equals the sentinel -1. */
module Argmax {

  datatype Option<T> = None | Some(value: T)

  /** `p` is the first index whose total is maximal. */
  predicate IsFirstMax(xs: seq<real>, p: int)
  {
    && 0 <= p < |xs|
    && (forall j :: 0 <= j < |xs| ==> xs[j] <= xs[p])
    && (forall j :: 0 <= j < p ==> xs[j] < xs[p])
  }

  /** `p` is the first index whose total is maximal, and that total lies
      strictly above `floor`. */
  predicate IsFirstMaxAbove(xs: seq<real>, floor: real, p: int)
  {
    IsFirstMax(xs, p) && xs[p] > floor
  }

  /** What holds after the scan has looked at the first `i` totals. */
  predicate ScanInv(xs: seq<real>, floor: real, i: nat, best: real, pick: Option<nat>)
  {
    && i <= |xs|
    && match pick
       case None => best == floor && forall j :: 0 <= j < i ==> xs[j] <= floor
       case Some(p) =>
         && p < i
         && best == xs[p]
         && best > floor
         && (forall j :: 0 <= j < i ==> xs[j] <= best)
         && (forall j :: 0 <= j < p ==> xs[j] < best)
  }

  /** The rest of the strict-`>` scan from position `i`, with incumbent
      `pick` (None: still the initial incumbent) at running best `best`. */
  function ScanFrom(xs: seq<real>, floor: real, i: nat, best: real, pick: Option<nat>): (r: Option<nat>)
    requires ScanInv(xs, floor, i, best, pick)
    ensures r.None? <==> (forall j :: 0 <= j < |xs| ==> xs[j] <= floor)
    ensures r.Some? ==> IsFirstMaxAbove(xs, floor, r.value)
    decreases |xs| - i
  {
    if i == |xs| then pick
    else if xs[i] > best then ScanFrom(xs, floor, i + 1, xs[i], Some(i))
    else ScanFrom(xs, floor, i + 1, best, pick)
  }

  /** The strict-`>` scan started at `floor` with nothing picked. */
  function ArgMaxAbove(xs: seq<real>, floor: real): (r: Option<nat>)
    ensures r.None? <==> (forall j :: 0 <= j < |xs| ==> xs[j] <= floor)
    ensures r.Some? ==> IsFirstMaxAbove(xs, floor, r.value)
  {
    ScanFrom(xs, floor, 0, floor, None)
  }

  /** Two first maxima above the same floor are the same index. */
  lemma FirstMaxUnique(xs: seq<real>, floor: real, p: int, q: int)
    requires IsFirstMaxAbove(xs, floor, p)
    requires IsFirstMaxAbove(xs, floor, q)
    ensures p == q
  {
  }

  /** No total equals the sentinel -1 of the type-5 scan. */
  predicate NoSentinel(xs: seq<real>)
  {
    forall j :: 0 <= j < |xs| ==> xs[j] != -1.0
  }

  /** What holds after the type-5 scan has looked at the first `i` totals
      and picked `p`, as long as no total met so far is the sentinel. */
  predicate SeededInv(xs: seq<real>, i: nat, best: real, p: nat)
  {
    && p < i <= |xs|
    && best == xs[p]
    && (forall j :: 0 <= j < i ==> xs[j] <= best)
    && (forall j :: 0 <= j < p ==> xs[j] < best)
  }

  /** The rest of the type-5 scan: while the running best equals the
      sentinel -1 the next total is taken unconditionally, otherwise only a
      strictly greater total replaces the incumbent. Unless a total equals
      the sentinel, the scan ends on the first maximum, whatever the signs
      of the totals. */
  function SeededFrom(xs: seq<real>, i: nat, best: real, pick: Option<nat>): (r: Option<nat>)
    requires i <= |xs|
    requires pick.None? ==> i == 0 && best == -1.0
    requires pick.Some? ==> pick.value < i
    ensures r.None? <==> |xs| == 0
    ensures r.Some? ==> r.value < |xs|
    ensures NoSentinel(xs) && pick.None? && |xs| > 0 ==> IsFirstMax(xs, r.value)
    ensures NoSentinel(xs) && pick.Some? && SeededInv(xs, i, best, pick.value) ==> IsFirstMax(xs, r.value)
    decreases |xs| - i
  {
    if i == |xs| then pick
    else if best == -1.0 then SeededFrom(xs, i + 1, xs[i], Some(i))
    else if xs[i] > best then SeededFrom(xs, i + 1, xs[i], Some(i))
    else SeededFrom(xs, i + 1, best, pick)
  }

  /** The type-5 scan from its initial state: best -1, nothing picked. It
      picks nothing only for no totals, and the first maximum whenever no
      total equals the sentinel. */
  function SeededMax(xs: seq<real>): (r: Option<nat>)
    ensures r.None? <==> |xs| == 0
    ensures r.Some? ==> r.value < |xs|
    ensures NoSentinel(xs) && |xs| > 0 ==> IsFirstMax(xs, r.value)
  {
    SeededFrom(xs, 0, -1.0, None)
  }

  lemma {:induction false} SeededAgreesFrom(xs: seq<real>, i: nat, best: real, pick: Option<nat>)
    requires forall j :: 0 <= j < |xs| ==> xs[j] > -1.0
    requires ScanInv(xs, -1.0, i, best, pick)
    requires pick.Some?
    ensures SeededFrom(xs, i, best, pick) == ScanFrom(xs, -1.0, i, best, pick)
    decreases |xs| - i
  {
    if i < |xs| {
      if xs[i] > best {
        SeededAgreesFrom(xs, i + 1, xs[i], Some(i));
      } else {
        SeededAgreesFrom(xs, i + 1, best, pick);
      }
    }
  }

  /** When every total lies above the sentinel -1, the type-5 scan picks the
      same index as the strict-`>` scan from -1: the first maximum. */
  lemma SeededAgrees(xs: seq<real>)
    requires forall j :: 0 <= j < |xs| ==> xs[j] > -1.0
    ensures SeededMax(xs) == ArgMaxAbove(xs, -1.0)
    ensures |xs| > 0 ==> IsFirstMaxAbove(xs, -1.0, SeededMax(xs).value)
  {
    if |xs| > 0 {
      SeededAgreesFrom(xs, 1, xs[0], Some(0));
    }
  }

  /** The type-5 scan takes the largest total, not the smallest. */
  lemma SeededPicksLargestOfTwo()
    ensures SeededMax([100.0, 40.0]) == Some(0)
  {
  }

  /** A total equal to the sentinel reopens the type-5 scan: after taking
      -1 the next total is taken unconditionally, even a smaller one, while
      the strict-`>` scan from -1 picks nothing. */
  lemma SeededSentinelReopens()
    ensures SeededMax([-5.0, -1.0, -3.0]) == Some(2)
    ensures ArgMaxAbove([-5.0, -1.0, -3.0], -1.0) == None
  {
  }

  /** With all totals below -1 the type-5 scan still picks the first
      maximum, while the strict-`>` scan from -1 picks nothing. */
  lemma SeededPicksBelowSentinel()
    ensures SeededMax([-5.0, -3.0]) == Some(1)
    ensures ArgMaxAbove([-5.0, -3.0], -1.0) == None
  {
  }

  /** Reference definition of the largest total. */
  function MaxOf(xs: seq<real>): real
    requires |xs| > 0
  {
    if |xs| == 1 then xs[0]
    else if xs[0] >= MaxOf(xs[1..]) then xs[0]
    else MaxOf(xs[1..])
  }

  /** Reference definition of the first position holding `m` (|xs| if none). */
  function FirstIndex(xs: seq<real>, m: real): nat
  {
    if |xs| == 0 || xs[0] == m then 0 else 1 + FirstIndex(xs[1..], m)
  }

  lemma {:induction false} MaxOfIsMax(xs: seq<real>)
    requires |xs| > 0
    ensures forall j :: 0 <= j < |xs| ==> xs[j] <= MaxOf(xs)
    ensures exists j :: 0 <= j < |xs| && xs[j] == MaxOf(xs)
  {
    if |xs| == 1 {
      assert xs[0] == MaxOf(xs);
    } else {
      MaxOfIsMax(xs[1..]);
      var w :| 0 <= w < |xs[1..]| && xs[1..][w] == MaxOf(xs[1..]);
      assert xs[w + 1] == MaxOf(xs[1..]);
      if xs[0] >= MaxOf(xs[1..]) {
        assert xs[0] == MaxOf(xs);
      } else {
        assert xs[w + 1] == MaxOf(xs);
      }
      forall j | 0 <= j < |xs| ensures xs[j] <= MaxOf(xs) {
        if j > 0 {
          assert xs[j] == xs[1..][j - 1];
        }
      }
    }
  }

  lemma {:induction false} FirstIndexFinds(xs: seq<real>, m: real, w: int)
    requires 0 <= w < |xs| && xs[w] == m
    ensures FirstIndex(xs, m) <= w
    ensures xs[FirstIndex(xs, m)] == m
    ensures forall j :: 0 <= j < FirstIndex(xs, m) ==> xs[j] != m
  {
    if xs[0] != m {
      FirstIndexFinds(xs[1..], m, w - 1);
      forall j | 0 < j < FirstIndex(xs, m) ensures xs[j] != m {
        assert xs[j] == xs[1..][j - 1];
      }
    }
  }

  /** The strict-`>` scan agrees with the reference definition: it picks the
      first position of the maximum when the maximum exceeds the floor, and
      nothing otherwise. */
  lemma ArgMaxMatchesReference(xs: seq<real>, floor: real)
    requires |xs| > 0
    ensures ArgMaxAbove(xs, floor) == (if MaxOf(xs) > floor then Some(FirstIndex(xs, MaxOf(xs))) else None)
  {
    var m := MaxOf(xs);
    MaxOfIsMax(xs);
    var w :| 0 <= w < |xs| && xs[w] == m;
    var r := ArgMaxAbove(xs, floor);
    if m > floor {
      assert r.Some?;
      var p := r.value;
      var q := FirstIndex(xs, m);
      FirstIndexFinds(xs, m, w);
      assert xs[p] == m;
      assert IsFirstMaxAbove(xs, floor, q);
      FirstMaxUnique(xs, floor, p, q);
    }
  }
}
