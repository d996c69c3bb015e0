/**
 * What the role query means: the rows of `standard_task_roles` whose
 * `task_keyword`, lower-cased, equals the lower-cased project type.
 */
module RoleStore {
  import opened Text
  import opened Multisets
  import opened LaborCost

  /** One row of `standard_task_roles`: its task keyword and its role columns. */
  datatype TaskRole = TaskRole(taskKeyword: string, row: Row)

  /**
   * `LOWER(task_keyword) = project_type.lower()`: an entry stored under the
   * project type itself matches, and a matching keyword has its length.
   */
  predicate Matches(t: TaskRole, projectType: string)
    ensures t.taskKeyword == projectType ==> Matches(t, projectType)
    ensures Matches(t, projectType) ==> |t.taskKeyword| == |projectType|
  {
    LowerString(t.taskKeyword) == LowerString(projectType)
  }

  /** The positions of the table entries for `projectType` whose role columns are `x`. */
  function MatchingIndices(table: seq<TaskRole>, projectType: string, x: Row): set<nat> {
    set i: nat | i < |table| && Matches(table[i], projectType) && table[i].row == x
  }

  /** The case of either side of the comparison does not matter. */
  lemma {:induction false} MatchesIgnoresCase(t: TaskRole, projectType: string)
    ensures Matches(t, projectType) <==> Matches(t, LowerString(projectType))
    ensures Matches(t, projectType) <==> Matches(t.(taskKeyword := LowerString(t.taskKeyword)), projectType)
  {
    LowerStringIdempotent(projectType);
    LowerStringIdempotent(t.taskKeyword);
  }

  /**
   * The role rows for a project type, in table order: exactly the rows of
   * entries whose keyword matches, each as many times as the table holds an
   * entry for it, and so no more rows than the table has.
   */
  function RolesFor(table: seq<TaskRole>, projectType: string): (rows: seq<Row>)
    ensures |rows| <= |table|
    ensures forall x :: x in rows <==> exists t :: t in table && Matches(t, projectType) && t.row == x
    ensures forall x :: multiset(rows)[x] == |MatchingIndices(table, projectType, x)|
  {
    if table == [] then
      assert forall x :: MatchingIndices(table, projectType, x) == {};
      []
    else
      var rest := RolesFor(table[1..], projectType);
      assert forall t :: t in table ==> t == table[0] || t in table[1..];
      MatchingIndicesStep(table, projectType);
      if Matches(table[0], projectType) then [table[0].row] + rest else rest
  }

  /** Counting matching entries: the first entry, if it matches, plus the matching entries after it. */
  lemma {:induction false} MatchingIndicesStep(table: seq<TaskRole>, projectType: string)
    requires table != []
    ensures forall x :: |MatchingIndices(table, projectType, x)| ==
                        (if Matches(table[0], projectType) && table[0].row == x then 1 else 0) +
                        |MatchingIndices(table[1..], projectType, x)|
  {
    forall x
      ensures |MatchingIndices(table, projectType, x)| ==
              (if Matches(table[0], projectType) && table[0].row == x then 1 else 0) +
              |MatchingIndices(table[1..], projectType, x)|
    {
      var tail := MatchingIndices(table[1..], projectType, x);
      MatchingIndicesSplit(table, projectType, x);
      ShiftCardinality(tail);
      assert 0 !in Shift(tail);
    }
  }

  /** The matching positions are 0, if the first entry matches, and the matching positions of the rest, moved up by one. */
  lemma {:induction false} MatchingIndicesSplit(table: seq<TaskRole>, projectType: string, x: Row)
    requires table != []
    ensures MatchingIndices(table, projectType, x) ==
            (if Matches(table[0], projectType) && table[0].row == x then {0} else {}) +
            Shift(MatchingIndices(table[1..], projectType, x))
  {
    var all, tail := MatchingIndices(table, projectType, x), MatchingIndices(table[1..], projectType, x);
    var head: set<nat> := if Matches(table[0], projectType) && table[0].row == x then {0} else {};
    forall i: nat | i in all
      ensures i in head + Shift(tail)
    {
      if i > 0 {
        assert table[1..][i - 1] == table[i];
        assert i - 1 in tail;
      }
    }
    forall i: nat | i in head + Shift(tail)
      ensures i in all
    {
      if i > 0 {
        var j :| j in tail && i == j + 1;
        assert table[1..][j] == table[i];
      }
    }
  }

  /** Every element of `a`, plus one. */
  function Shift(a: set<nat>): set<nat> {
    set j | j in a :: j + 1
  }

  /** Adding one to every element of a set keeps its size. */
  lemma {:induction false} ShiftCardinality(a: set<nat>)
    ensures |Shift(a)| == |a|
    decreases |a|
  {
    if a != {} {
      var k :| k in a;
      ShiftCardinality(a - {k});
      forall y | y in Shift(a)
        ensures y in Shift(a - {k}) + {k + 1}
      {
        var j :| j in a && y == j + 1;
        if j != k {
          assert j in a - {k};
        }
      }
      forall y | y in Shift(a - {k}) + {k + 1}
        ensures y in Shift(a)
      {
        if y != k + 1 {
          var j :| j in a - {k} && y == j + 1;
        }
      }
      assert Shift(a) == Shift(a - {k}) + {k + 1};
      assert k + 1 !in Shift(a - {k});
    }
  }

  /** Querying a split table is querying its parts. */
  lemma {:induction false} RolesForAppend(a: seq<TaskRole>, b: seq<TaskRole>, projectType: string)
    ensures RolesFor(a + b, projectType) == RolesFor(a, projectType) + RolesFor(b, projectType)
  {
    if a == [] {
      assert a + b == b;
    } else {
      assert (a + b)[1..] == a[1..] + b;
      RolesForAppend(a[1..], b, projectType);
    }
  }

  /** The query returns the same rows, with the same multiplicities, whatever order the table is stored in. */
  lemma {:induction false} RolesForPermutation(a: seq<TaskRole>, b: seq<TaskRole>, projectType: string)
    requires multiset(a) == multiset(b)
    ensures multiset(RolesFor(a, projectType)) == multiset(RolesFor(b, projectType))
    decreases |a|
  {
    if a != [] {
      assert a[0] in multiset(b);
      var j :| 0 <= j < |b| && b[j] == a[0];
      RemoveMatching(a, b, j);
      RolesForPermutation(a[1..], b[..j] + b[j + 1..], projectType);
      RolesForWithout(b, j, projectType);
      RolesForWithout(a, 0, projectType);
      assert a[..0] + a[1..] == a[1..];
    }
  }

  /** Querying a table gives row `j`'s result together with the result for the other rows. */
  lemma {:induction false} RolesForWithout(b: seq<TaskRole>, j: nat, projectType: string)
    requires j < |b|
    ensures multiset(RolesFor(b, projectType)) ==
            multiset(RolesFor([b[j]], projectType)) + multiset(RolesFor(b[..j] + b[j + 1..], projectType))
  {
    var left, right := b[..j], b[j + 1..];
    assert b == left + ([b[j]] + right);
    RolesForAppend(left, [b[j]] + right, projectType);
    RolesForAppend([b[j]], right, projectType);
    RolesForAppend(left, right, projectType);
  }

  /** An entry stored twice is returned twice, so its cost is counted twice. */
  lemma {:induction false} RolesForKeepsDuplicates(t: TaskRole, projectType: string)
    requires Matches(t, projectType)
    ensures RolesFor([t, t], projectType) == [t.row, t.row]
  {
    assert [t, t][1..] == [t];
    assert [t][1..] == [];
  }
}
