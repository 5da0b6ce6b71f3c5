/** The three cardinalities `extract_features` attaches to every plan node.
    The database's `SELECT COUNT(*) FROM "<table>"` is the injected
    `RowCounter`: `None` stands for a lookup that raised. */
module Cardinality {
  import opened Wrappers
  import opened Plan

  type RowCounter = string -> Option<int>

  /** Counts that, when they succeed, are never negative (what COUNT(*) returns). */
  ghost predicate NonNegativeCounts(countRows: RowCounter) {
    forall t :: countRows(t).Some? ==> countRows(t).value >= 0
  }

  /** Sum of the children's "Actual Rows", a missing value counting as 0. */
  function ChildRows(kids: seq<Node>): (r: int)
    ensures (forall i :: 0 <= i < |kids| ==> kids[i].actualRows.GetOr(0) >= 0) ==> r >= 0
  {
    if kids == [] then 0 else kids[0].actualRows.GetOr(0) + ChildRows(kids[1..])
  }

  /** Input cardinality: with a "Plans" key, the children's actual rows; for a
      leaf naming a relation, that relation's row count or -1 when the count
      fails; for any other leaf, -1 without a lookup. */
  function InputCardinality(n: Node, countRows: RowCounter): (r: int)
    ensures n.plans.Plans? ==> r == ChildRows(n.plans.children)
    ensures n.plans.NoPlans? && !HasRelation(n) ==> r == -1
    ensures n.plans.NoPlans? && HasRelation(n) ==> r == -1 || countRows(n.relationName.value) == Some(r)
  {
    match n.plans
    case Plans(kids) => ChildRows(kids)
    case NoPlans =>
      if HasRelation(n) then countRows(n.relationName.value).GetOr(-1) else -1
  }

  /** What one table of the query adds to the base cardinality: its row count,
      or -1 when the count fails. */
  function TableContribution(table: string, countRows: RowCounter): int {
    countRows(table).GetOr(-1)
  }

  /** Base cardinality: the running total over the table list, repeats
      included. */
  function BaseCardinality(tables: seq<string>, countRows: RowCounter): (r: int)
    ensures NonNegativeCounts(countRows) ==> r >= -|tables|
  {
    if tables == [] then 0
    else BaseCardinality(tables[..|tables| - 1], countRows) + TableContribution(tables[|tables| - 1], countRows)
  }

  // ---------------------------------------------------------------------
  // Input cardinality

  lemma {:induction false} ChildRowsAppend(a: seq<Node>, b: seq<Node>)
    ensures ChildRows(a + b) == ChildRows(a) + ChildRows(b)
  {
    if a == [] {
      assert a + b == b;
    } else {
      assert (a + b)[1..] == a[1..] + b;
      ChildRowsAppend(a[1..], b);
    }
  }

  /** Children without "Actual Rows" add nothing to the sum, so a "Plans" list
      of such children, in particular an empty one, gives 0 and not -1. */
  lemma {:induction false} ChildRowsMissing(kids: seq<Node>)
    requires forall i :: 0 <= i < |kids| ==> kids[i].actualRows.None?
    ensures ChildRows(kids) == 0
  {
    if kids != [] {
      ChildRowsMissing(kids[1..]);
    }
  }

  /** No row count is looked up for a node with a "Plans" key or for a leaf
      without a relation name: its input cardinality is the same under every
      row counter. */
  lemma InputCardinalityNeedsNoLookup(n: Node, c1: RowCounter, c2: RowCounter)
    requires n.plans.Plans? || !HasRelation(n)
    ensures InputCardinality(n, c1) == InputCardinality(n, c2)
    ensures n.plans.NoPlans? ==> InputCardinality(n, c1) == -1
  {
  }

  /** The leaf rule: the relation's row count when it succeeds, -1 otherwise. */
  lemma LeafInputCardinality(n: Node, countRows: RowCounter)
    requires n.plans.NoPlans?
    ensures HasRelation(n) && countRows(n.relationName.value).Some? ==>
      InputCardinality(n, countRows) == countRows(n.relationName.value).value
    ensures !HasRelation(n) || countRows(n.relationName.value).None? ==>
      InputCardinality(n, countRows) == -1
  {
  }

  /** With non-negative counts and child rows, a negative input cardinality is
      exactly the sentinel -1, and it arises exactly for a leaf that names no
      relation or whose count failed; it is never confused with a true 0. */
  lemma InputCardinalitySentinel(n: Node, countRows: RowCounter)
    requires NonNegativeCounts(countRows)
    requires n.plans.Plans? ==>
      forall i :: 0 <= i < |n.plans.children| ==> n.plans.children[i].actualRows.GetOr(0) >= 0
    ensures InputCardinality(n, countRows) < 0 <==>
      n.plans.NoPlans? && (!HasRelation(n) || countRows(n.relationName.value).None?)
    ensures InputCardinality(n, countRows) < 0 ==> InputCardinality(n, countRows) == -1
  {
  }

  // ---------------------------------------------------------------------
  // Base cardinality

  /** Each occurrence of a table adds its own contribution. */
  lemma {:induction false} BaseCardinalityAppend(a: seq<string>, b: seq<string>, countRows: RowCounter)
    ensures BaseCardinality(a + b, countRows) == BaseCardinality(a, countRows) + BaseCardinality(b, countRows)
    decreases |b|
  {
    if b == [] {
      assert a + b == a;
    } else {
      var init := b[..|b| - 1];
      assert (a + b)[..|a + b| - 1] == a + init;
      assert (a + b)[|a + b| - 1] == b[|b| - 1];
      BaseCardinalityAppend(a, init, countRows);
    }
  }

  /** When every lookup fails the base cardinality is minus the number of
      tables (0 for a query with no tables). */
  lemma {:induction false} BaseCardinalityAllFail(tables: seq<string>, countRows: RowCounter)
    requires forall i :: 0 <= i < |tables| ==> countRows(tables[i]).None?
    ensures BaseCardinality(tables, countRows) == -|tables|
  {
    if tables != [] {
      BaseCardinalityAllFail(tables[..|tables| - 1], countRows);
    }
  }

  /** With non-negative counts the total reaches its lower bound -|tables|
      exactly when every lookup fails. */
  lemma {:induction false} BaseCardinalityLowerBound(tables: seq<string>, countRows: RowCounter)
    requires NonNegativeCounts(countRows)
    ensures BaseCardinality(tables, countRows) == -|tables| <==>
      forall i :: 0 <= i < |tables| ==> countRows(tables[i]).None?
  {
    if tables != [] {
      var init := tables[..|tables| - 1];
      BaseCardinalityLowerBound(init, countRows);
      assert forall i :: 0 <= i < |init| ==> init[i] == tables[i];
    }
  }

  /** The running total `base_cardinality` over the table list, one lookup
      per table name. */
  method ComputeBaseCardinality(tables: seq<string>, countRows: RowCounter) returns (total: int)
    ensures total == BaseCardinality(tables, countRows)
  {
    total := 0;
    var i := 0;
    while i < |tables|
      invariant 0 <= i <= |tables|
      invariant total == BaseCardinality(tables[..i], countRows)
    {
      var table := tables[i];
      var count := countRows(table);
      if count.Some? {
        total := total + count.value;
      } else {
        total := total + -1;
      }
      assert tables[..i + 1][..i] == tables[..i];
      i := i + 1;
    }
    assert tables[..i] == tables;
  }
}
