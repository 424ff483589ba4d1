/** Running-stock arithmetic shared by both simulation scripts: the total of a
    sequence of daily demands and the stock level left at the end of each day. */
module Ledger {

  /** Total of the demands, folded from the back so that one more day is one more step. */
  function Sum(s: seq<int>): int
  {
    if |s| == 0 then 0 else Sum(s[..|s| - 1]) + s[|s| - 1]
  }

  /** Adding a day in front adds its demand to the total. */
  lemma {:induction false} SumCons(x: int, s: seq<int>)
    ensures Sum([x] + s) == x + Sum(s)
  {
    if |s| == 0 {
      assert ([x] + s)[..0] == [];
    } else {
      var t := [x] + s;
      assert t[..|t| - 1] == [x] + s[..|s| - 1];
      SumCons(x, s[..|s| - 1]);
    }
  }

  /** The stock level at the end of each day when `demands` are taken, one per
      day in order, from an initial `stock`: the running stock of the day loop. */
  function Levels(stock: int, demands: seq<int>): (h: seq<int>)
    ensures |h| == |demands|
    decreases demands
  {
    if |demands| == 0 then []
    else [stock - demands[0]] + Levels(stock - demands[0], demands[1..])
  }

  /** Day i ends with the initial stock minus everything demanded up to and including day i. */
  lemma {:induction false} LevelsClosedForm(stock: int, demands: seq<int>)
    ensures forall i :: 0 <= i < |demands| ==>
      Levels(stock, demands)[i] == stock - Sum(demands[..i + 1])
    decreases demands
  {
    if |demands| > 0 {
      var d := demands[0];
      var rest := demands[1..];
      LevelsClosedForm(stock - d, rest);
      forall i | 0 <= i < |demands|
        ensures Levels(stock, demands)[i] == stock - Sum(demands[..i + 1])
      {
        assert demands[..i + 1] == [d] + rest[..i];
        SumCons(d, rest[..i]);
        if i == 0 {
          assert rest[..0] == [];
        }
      }
    }
  }

  /** The level of the last day equals the initial stock minus the total demand. */
  lemma LevelsLast(stock: int, demands: seq<int>)
    requires |demands| > 0
    ensures Levels(stock, demands)[|demands| - 1] == stock - Sum(demands)
  {
    LevelsClosedForm(stock, demands);
    assert demands[..|demands|] == demands;
  }

  /** One more day appends exactly one level and leaves the earlier ones as they were. */
  lemma LevelsSnoc(stock: int, demands: seq<int>, d: int)
    ensures Levels(stock, demands + [d]) == Levels(stock, demands) + [stock - Sum(demands) - d]
  {
    var ds := demands + [d];
    LevelsClosedForm(stock, ds);
    LevelsClosedForm(stock, demands);
    assert ds[..|ds|] == ds;
    assert ds[..|ds| - 1] == demands;
    forall i | 0 <= i < |demands|
      ensures Levels(stock, ds)[i] == Levels(stock, demands)[i]
    {
      assert ds[..i + 1] == demands[..i + 1];
    }
  }

  /** If every day takes at least `lo` (lo >= 0) units, every level lies at least
      `lo` below the initial stock and at least `lo` below every earlier level:
      with lo = 1 the levels strictly decrease, with lo = 0 they never increase. */
  lemma {:induction false} LevelsDescend(stock: int, demands: seq<int>, lo: int)
    requires lo >= 0
    requires forall i :: 0 <= i < |demands| ==> demands[i] >= lo
    ensures forall k :: 0 <= k < |demands| ==> Levels(stock, demands)[k] <= stock - lo
    ensures forall i, j :: 0 <= i < j < |demands| ==>
      Levels(stock, demands)[j] <= Levels(stock, demands)[i] - lo
    decreases demands
  {
    if |demands| > 0 {
      var d := demands[0];
      var rest := demands[1..];
      LevelsDescend(stock - d, rest, lo);
      var h := Levels(stock, demands);
      assert forall k :: 1 <= k < |h| ==> h[k] == Levels(stock - d, rest)[k - 1];
    }
  }
}
