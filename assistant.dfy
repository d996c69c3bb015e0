/**
 * The two places that turn text into a labor estimate: the sidebar assistant
 * (a typed question) and the "Generate Labor Estimation Summary" button (the
 * text of an uploaded RFP). Both resolve a task keyword, query the role table
 * for it, add the `total_cost` column and sum it.
 */
module Assistant {
  import opened Wrappers
  import opened Text
  import opened ProjectType
  import opened LaborCost
  import opened RoleStore

  /** What the page shows for a piece of text. */
  datatype Reply =
    | Silent                                   // the sidebar question is empty: nothing is shown
    | NoKeyword                                // no task keyword could be detected
    | NoRoles(projectType: string)             // a keyword was found but the store has no roles for it
    | Estimated(projectType: string, rows: seq<PricedRow>, total: int)

  /**
   * The estimate for a text against a role table. The keyword is the one the
   * scan finds; the rows are those the query returns, priced; the total is
   * their sum.
   */
  function EstimateFor(text: string, table: seq<TaskRole>): (reply: Reply)
    ensures reply != Silent
    ensures reply == NoKeyword <==> forall w :: w in Keywords ==> !IsSubstring(w, LowerString(text))
    ensures !reply.NoKeyword? ==> ExtractProjectType(text) == Some(reply.projectType)
    ensures reply.NoRoles? <==> !reply.NoKeyword? && RolesFor(table, reply.projectType) == []
    ensures reply.Estimated? ==> reply.rows == AddTotals(RolesFor(table, reply.projectType))
    ensures reply.Estimated? ==> reply.total == Aggregate(reply.rows)
  {
    match ExtractProjectType(text)
    case None => NoKeyword
    case Some(projectType) =>
      var rows := RolesFor(table, projectType);
      if rows == [] then NoRoles(projectType)
      else
        var priced := AddTotals(rows);
        Estimated(projectType, priced, Aggregate(priced))
  }

  /** Every priced row comes from a table entry for the detected keyword and carries that entry's cost. */
  lemma {:induction false} EstimatedRowsFromTable(text: string, table: seq<TaskRole>, i: nat)
    requires EstimateFor(text, table).Estimated? && i < |EstimateFor(text, table).rows|
    ensures exists t :: t in table && Matches(t, EstimateFor(text, table).projectType) &&
                        t.row == EstimateFor(text, table).rows[i].row &&
                        Cost(t.row) == EstimateFor(text, table).rows[i].totalCost
  {
    var reply := EstimateFor(text, table);
    var rows := RolesFor(table, reply.projectType);
    assert rows[i] in rows;
  }

  /** The estimate does not depend on the case of the text. */
  lemma {:induction false} EstimateForIgnoresCase(text: string, table: seq<TaskRole>)
    ensures EstimateFor(text, table) == EstimateFor(LowerString(text), table)
  {
    ExtractProjectTypeIgnoresCase(text);
  }

  /** With no negative count, duration or rate in the table, the estimated total is not negative. */
  lemma {:induction false} EstimateForTotalNonNegative(text: string, table: seq<TaskRole>)
    requires forall t :: t in table ==> NonNegative(t.row)
    ensures EstimateFor(text, table).Estimated? ==> EstimateFor(text, table).total >= 0
  {
    var reply := EstimateFor(text, table);
    if reply.Estimated? {
      var rows := RolesFor(table, reply.projectType);
      forall i | 0 <= i < |rows|
        ensures NonNegative(rows[i])
      {
        assert rows[i] in rows;
      }
      AggregateNonNegative(rows);
    }
  }

  /**
   * The query has no ORDER BY, so the store may return the rows in any order:
   * the outcome and the total are the same for every order of the same table.
   */
  lemma {:induction false} EstimateForIgnoresStoreOrder(text: string, a: seq<TaskRole>, b: seq<TaskRole>)
    requires multiset(a) == multiset(b)
    ensures EstimateFor(text, a).NoRoles? <==> EstimateFor(text, b).NoRoles?
    ensures EstimateFor(text, a).Estimated? <==> EstimateFor(text, b).Estimated?
    ensures EstimateFor(text, a).Estimated? ==> EstimateFor(text, a).total == EstimateFor(text, b).total
  {
    match ExtractProjectType(text)
    case None =>
    case Some(projectType) =>
      var ra, rb := RolesFor(a, projectType), RolesFor(b, projectType);
      RolesForPermutation(a, b, projectType);
      assert |ra| == |multiset(ra)| == |multiset(rb)| == |rb|;
      AggregatePermutation(ra, rb);
  }

  /**
   * The RFP upload path: resolve the keyword, build the role frame from the
   * query result, assign its `total_cost` column, and sum the column when
   * the frame is not empty.
   */
  method Summarize(text: string, table: seq<TaskRole>) returns (reply: Reply)
    ensures reply == EstimateFor(text, table)
  {
    var projectType := ExtractProjectType(text);
    if projectType.None? {
      return NoKeyword;
    }
    var frame := new RoleFrame(RolesFor(table, projectType.value));
    frame.AssignTotalCost();
    if |frame.rows| == 0 {
      return NoRoles(projectType.value);
    }
    var total := frame.SumTotalCost();
    reply := Estimated(projectType.value, frame.Priced(), total);
  }

  /** The sidebar assistant: nothing for an empty question, otherwise the same estimate. */
  method Assist(query: string, table: seq<TaskRole>) returns (reply: Reply)
    ensures query == [] ==> reply == Silent
    ensures query != [] ==> reply == EstimateFor(query, table)
  {
    if query == [] {
      return Silent;
    }
    reply := Summarize(query, table);
  }
}
