/** The Monte Carlo demand table of monte_poisson.py: a draw in 0..99 is mapped
    to a daily demand of 1..5 by scanning inclusive ranges in order and taking
    the first row that contains the draw. */
module MonteCarlo {
  import opened Wrappers

  /** One row of the table: the demand for every draw in start..end (inclusive). */
  datatype Row = Row(demand: int, start: int, end: int)

  /** `MC_TABLE`. */
  const Table: seq<Row> := [
    Row(1, 0, 9),
    Row(2, 10, 29),
    Row(3, 30, 69),
    Row(4, 70, 89),
    Row(5, 90, 99)
  ]

  /** The lowest and highest draw `random.randint(0, 99)` can produce. */
  const MinDraw: int := 0
  const MaxDraw: int := 99

  predicate Contains(row: Row, draw: int)
  {
    row.start <= draw <= row.end
  }

  /** Non-empty rows, each starting right after the previous one ends:
      ascending, contiguous and non-overlapping. */
  predicate WellFormed(table: seq<Row>)
  {
    && |table| > 0
    && (forall i :: 0 <= i < |table| ==> table[i].start <= table[i].end)
    && (forall i :: 0 <= i < |table| - 1 ==> table[i + 1].start == table[i].end + 1)
  }

  /** The loop over the table: the demand of the first row containing the draw,
      or None when the loop falls off the end. */
  function Lookup(table: seq<Row>, draw: int): (r: Option<int>)
    ensures r.None? <==> forall i :: 0 <= i < |table| ==> !Contains(table[i], draw)
    ensures forall i :: FirstMatch(table, draw, i) ==> r == Some(table[i].demand)
  {
    if |table| == 0 then None
    else if Contains(table[0], draw) then Some(table[0].demand)
    else
      assert forall i :: 1 <= i < |table| ==> table[i] == table[1..][i - 1];
      assert forall i :: 1 <= i < |table| && FirstMatch(table, draw, i) ==> FirstMatch(table[1..], draw, i - 1);
      Lookup(table[1..], draw)
  }

  /** Row i is the first row of the table that contains the draw. */
  predicate FirstMatch(table: seq<Row>, draw: int, i: int)
  {
    && 0 <= i < |table|
    && Contains(table[i], draw)
    && forall j :: 0 <= j < i ==> !Contains(table[j], draw)
  }

  /** `MC_TABLE` is well formed and covers exactly 0..99, with demands 1..5 ascending. */
  lemma TableShape()
    ensures WellFormed(Table)
    ensures Table[0].start == MinDraw && Table[|Table| - 1].end == MaxDraw
    ensures forall i :: 0 <= i < |Table| ==> Table[i].demand == i + 1
  {
  }

  /** In a well-formed table every row ends before any later row starts. */
  lemma {:induction false} RowsAscend(table: seq<Row>, i: int, j: int)
    requires WellFormed(table)
    requires 0 <= i < j < |table|
    ensures table[i].end < table[j].start
    decreases j - i
  {
    if j > i + 1 {
      RowsAscend(table, i, j - 1);
    }
  }

  /** In a well-formed table no draw lies in two rows. */
  lemma RowsDisjoint(table: seq<Row>, i: int, j: int, draw: int)
    requires WellFormed(table)
    requires 0 <= i < |table| && 0 <= j < |table|
    requires Contains(table[i], draw) && Contains(table[j], draw)
    ensures i == j
  {
    if i < j {
      RowsAscend(table, i, j);
    } else if j < i {
      RowsAscend(table, j, i);
    }
  }

  /** The lookup returns the demand of the row that contains the draw. */
  lemma {:induction false} LookupFindsRow(table: seq<Row>, i: int, draw: int)
    requires WellFormed(table)
    requires 0 <= i < |table| && Contains(table[i], draw)
    ensures Lookup(table, draw) == Some(table[i].demand)
    decreases i
  {
    if i > 0 {
      RowsAscend(table, 0, i);
      assert WellFormed(table[1..]);
      LookupFindsRow(table[1..], i - 1, draw);
    }
  }

  /** The rows of a well-formed table cover every draw from the first start to the last end. */
  lemma {:induction false} RowsCover(table: seq<Row>, draw: int) returns (i: int)
    requires WellFormed(table)
    requires table[0].start <= draw <= table[|table| - 1].end
    ensures 0 <= i < |table| && Contains(table[i], draw)
    decreases |table|
  {
    if Contains(table[0], draw) {
      i := 0;
    } else {
      assert |table| > 1;
      assert WellFormed(table[1..]);
      var k := RowsCover(table[1..], draw);
      i := k + 1;
    }
  }

  /** A draw inside the span of a well-formed table gets the demand of its row. */
  lemma LookupInSpan(table: seq<Row>, draw: int)
    requires WellFormed(table)
    requires table[0].start <= draw <= table[|table| - 1].end
    ensures exists i :: 0 <= i < |table| && Contains(table[i], draw) && Lookup(table, draw) == Some(table[i].demand)
  {
    var i := RowsCover(table, draw);
    LookupFindsRow(table, i, draw);
  }

  /** A draw outside the span of a well-formed table matches no row. */
  lemma {:induction false} LookupMisses(table: seq<Row>, draw: int)
    requires WellFormed(table)
    requires draw < table[0].start || table[|table| - 1].end < draw
    ensures Lookup(table, draw) == None
    decreases |table|
  {
    if |table| > 1 {
      RowsAscend(table, 0, |table| - 1);
      assert WellFormed(table[1..]);
      LookupMisses(table[1..], draw);
    }
  }

  /** `MonteCarloProduct.generate_stochastic_demand` once the draw is known:
      a demand of 1..5 for a draw in 0..99, and None (the method returns
      nothing) for any other draw. */
  function Demand(draw: int): (r: Option<int>)
    ensures r.Some? <==> MinDraw <= draw <= MaxDraw
    ensures r.Some? ==> 1 <= r.value <= 5
    ensures r.Some? ==> exists i :: 0 <= i < |Table| && Contains(Table[i], draw) && r.value == Table[i].demand
  {
    TableShape();
    if MinDraw <= draw <= MaxDraw then
      LookupInSpan(Table, draw);
      Lookup(Table, draw)
    else
      LookupMisses(Table, draw);
      Lookup(Table, draw)
  }

  /** A reference statement of the table as thresholds on the draw. */
  function Bands(draw: int): Option<int>
  {
    if draw < 0 || 99 < draw then None
    else if draw <= 9 then Some(1)
    else if draw <= 29 then Some(2)
    else if draw <= 69 then Some(3)
    else if draw <= 89 then Some(4)
    else Some(5)
  }

  /** The table lookup and the threshold statement agree on every integer draw. */
  lemma DemandMatchesBands(draw: int)
    ensures Demand(draw) == Bands(draw)
  {
    TableShape();
    if MinDraw <= draw <= MaxDraw {
      var i := RowsCover(Table, draw);
      LookupFindsRow(Table, i, draw);
    } else {
      LookupMisses(Table, draw);
    }
  }

  /** Over 0..99 a larger draw never gives a smaller demand. */
  lemma DemandMonotone(a: int, b: int)
    requires MinDraw <= a <= b <= MaxDraw
    ensures Demand(a).Some? && Demand(b).Some?
    ensures Demand(a).value <= Demand(b).value
  {
    DemandMatchesBands(a);
    DemandMatchesBands(b);
  }

  /** Worked values at the row boundaries, and draws just outside the range. */
  lemma DemandExamples()
    ensures Demand(0) == Some(1) && Demand(9) == Some(1) && Demand(10) == Some(2)
    ensures Demand(45) == Some(3) && Demand(89) == Some(4) && Demand(90) == Some(5)
    ensures Demand(99) == Some(5)
    ensures Demand(-1) == None && Demand(100) == None
  {
    DemandMatchesBands(0);
    DemandMatchesBands(9);
    DemandMatchesBands(10);
    DemandMatchesBands(45);
    DemandMatchesBands(89);
    DemandMatchesBands(90);
    DemandMatchesBands(99);
    DemandMatchesBands(-1);
    DemandMatchesBands(100);
  }
}
