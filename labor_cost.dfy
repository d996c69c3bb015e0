/**
 * The labor-cost arithmetic: the `total_cost` column that is added to a role
 * table (`count * duration_days * daily_rate` per row) and the sum of that
 * column that is shown and exported as the estimated total.
 */
module LaborCost {
  import opened Multisets

  /** One role row as read from the store: role, "count", duration_days, daily_rate. */
  datatype Row = Row(role: string, count: int, durationDays: int, dailyRate: int)

  /** A role row together with the `total_cost` value added to it. */
  datatype PricedRow = PricedRow(row: Row, totalCost: int)

  /**
   * The cost of one role: headcount times days times daily rate, exactly. It
   * is not negative when no multiplicand is, and zero when any of them is zero.
   */
  function Cost(r: Row): (c: int)
    ensures NonNegative(r) ==> c >= 0
    ensures r.count == 0 || r.durationDays == 0 || r.dailyRate == 0 ==> c == 0
  {
    var perDay := r.count * r.durationDays;
    assert NonNegative(r) ==> perDay >= 0;
    assert NonNegative(r) ==> perDay * r.dailyRate >= 0;
    perDay * r.dailyRate
  }

  /** A row whose three multiplicands are not negative. */
  predicate NonNegative(r: Row) {
    r.count >= 0 && r.durationDays >= 0 && r.dailyRate >= 0
  }

  /**
   * The table with its `total_cost` column: the same rows, in the same order,
   * each unchanged and carrying its own cost.
   */
  function AddTotals(rows: seq<Row>): (priced: seq<PricedRow>)
    ensures |priced| == |rows|
    ensures forall i :: 0 <= i < |rows| ==> priced[i].row == rows[i]
    ensures forall i :: 0 <= i < |rows| ==>
              priced[i].totalCost == rows[i].count * rows[i].durationDays * rows[i].dailyRate
  {
    if rows == [] then [] else [PricedRow(rows[0], Cost(rows[0]))] + AddTotals(rows[1..])
  }

  /**
   * `total_cost.sum()`: the sum of the column. It is not negative when no
   * row's total is negative.
   */
  function Aggregate(priced: seq<PricedRow>): (total: int)
    ensures (forall i :: 0 <= i < |priced| ==> priced[i].totalCost >= 0) ==> total >= 0
  {
    if priced == [] then 0 else priced[0].totalCost + Aggregate(priced[1..])
  }

  /** Summing a split table is summing its parts. */
  lemma {:induction false} AggregateAppend(a: seq<PricedRow>, b: seq<PricedRow>)
    ensures Aggregate(a + b) == Aggregate(a) + Aggregate(b)
  {
    if a == [] {
      assert a + b == b;
    } else {
      assert (a + b)[1..] == a[1..] + b;
      AggregateAppend(a[1..], b);
    }
  }

  /** Adding the column to a split table is adding it to each part. */
  lemma {:induction false} AddTotalsAppend(a: seq<Row>, b: seq<Row>)
    ensures AddTotals(a + b) == AddTotals(a) + AddTotals(b)
  {
    var l, r := AddTotals(a + b), AddTotals(a) + AddTotals(b);
    assert |l| == |r|;
    forall i | 0 <= i < |l|
      ensures l[i] == r[i]
    {
      if i < |a| {
        assert (a + b)[i] == a[i];
      } else {
        assert (a + b)[i] == b[i - |a|];
      }
    }
  }

  /** The estimated total of rows whose multiplicands are not negative is not negative. */
  lemma {:induction false} AggregateNonNegative(rows: seq<Row>)
    requires forall i :: 0 <= i < |rows| ==> NonNegative(rows[i])
    ensures Aggregate(AddTotals(rows)) >= 0
  {
    var priced := AddTotals(rows);
    forall i | 0 <= i < |priced|
      ensures priced[i].totalCost >= 0
    {
      assert NonNegative(rows[i]);
    }
  }

  /**
   * The store returns rows in no particular order; the estimated total is
   * the same for every order of the same rows.
   */
  lemma {:induction false} AggregatePermutation(a: seq<Row>, b: seq<Row>)
    requires multiset(a) == multiset(b)
    ensures Aggregate(AddTotals(a)) == Aggregate(AddTotals(b))
    decreases |a|
  {
    if a != [] {
      assert a[0] in multiset(b);
      var j :| 0 <= j < |b| && b[j] == a[0];
      RemoveMatching(a, b, j);
      AggregatePermutation(a[1..], b[..j] + b[j + 1..]);
      AggregateWithout(b, j);
      AggregateWithout(a, 0);
      assert a[..0] + a[1..] == a[1..];
    }
  }

  /** The total of a table is the cost of row `j` plus the total of the other rows. */
  lemma {:induction false} AggregateWithout(b: seq<Row>, j: nat)
    requires j < |b|
    ensures Aggregate(AddTotals(b)) == Cost(b[j]) + Aggregate(AddTotals(b[..j] + b[j + 1..]))
  {
    var left, right := b[..j], b[j + 1..];
    assert b == left + ([b[j]] + right);
    AggregateOfAppend(left, [b[j]] + right);
    AggregateOfAppend([b[j]], right);
    AggregateOfAppend(left, right);
    assert Aggregate(AddTotals([b[j]])) == Cost(b[j]);
  }

  /** The total of two tables put together is the sum of their totals. */
  lemma {:induction false} AggregateOfAppend(a: seq<Row>, b: seq<Row>)
    ensures Aggregate(AddTotals(a + b)) == Aggregate(AddTotals(a)) + Aggregate(AddTotals(b))
  {
    AddTotalsAppend(a, b);
    AggregateAppend(AddTotals(a), AddTotals(b));
  }

  /**
   * A role table as a DataFrame: the columns read from the store, and the
   * `total_cost` column once it has been assigned. The invariant is that the
   * column, when present, never drifts from the row values it is derived from.
   */
  class RoleFrame {
    const rows: seq<Row>
    var totalCost: array<int>
    var hasTotalCost: bool

    ghost predicate Valid()
      reads this, totalCost
    {
      hasTotalCost ==>
        totalCost.Length == |rows| &&
        forall i :: 0 <= i < |rows| ==> totalCost[i] == Cost(rows[i])
    }

    /** A frame holding the rows the query returned, with no `total_cost` column yet. */
    constructor (rows: seq<Row>)
      ensures Valid() && this.rows == rows && !hasTotalCost
    {
      this.rows := rows;
      totalCost := new int[0];
      hasTotalCost := false;
    }

    /** The rows with their `total_cost` values, as the frame holds them. */
    function Priced(): (priced: seq<PricedRow>)
      reads this, totalCost
      requires Valid() && hasTotalCost
      ensures priced == AddTotals(rows)
    {
      seq(|rows|, i reads this, totalCost requires 0 <= i < |rows| && Valid() && hasTotalCost =>
        PricedRow(rows[i], totalCost[i]))
    }

    /**
     * `df["total_cost"] = df["count"] * df["duration_days"] * df["daily_rate"]`:
     * a new column, filled element by element, is assigned into the frame.
     */
    method AssignTotalCost()
      requires Valid()
      modifies this
      ensures Valid() && hasTotalCost && fresh(totalCost)
      ensures Priced() == AddTotals(rows)
    {
      var column := new int[|rows|];
      var i := 0;
      while i < |rows|
        invariant 0 <= i <= |rows|
        invariant forall j :: 0 <= j < i ==> column[j] == Cost(rows[j])
      {
        column[i] := rows[i].count * rows[i].durationDays * rows[i].dailyRate;
        i := i + 1;
      }
      totalCost := column;
      hasTotalCost := true;
    }

    /** `df["total_cost"].sum()`: the column summed front to back. */
    method SumTotalCost() returns (total: int)
      requires Valid() && hasTotalCost
      ensures total == Aggregate(AddTotals(rows))
    {
      total := 0;
      var i := 0;
      while i < totalCost.Length
        invariant 0 <= i <= totalCost.Length
        invariant total == Aggregate(AddTotals(rows[..i]))
      {
        assert rows[..i + 1] == rows[..i] + [rows[i]];
        AddTotalsAppend(rows[..i], [rows[i]]);
        AggregateAppend(AddTotals(rows[..i]), AddTotals([rows[i]]));
        total := total + totalCost[i];
        i := i + 1;
      }
      assert rows[..i] == rows;
    }
  }
}
