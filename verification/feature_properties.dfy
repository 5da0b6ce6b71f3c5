/** What the flattener guarantees about the records it emits: one per node in
    pre-order, the lineage numbering, the query text on the root only, and
    per-node and per-query cardinalities. */
module FeatureProperties {
  import opened Wrappers
  import opened TableNames
  import opened Plan
  import opened Cardinality
  import opened Features
  import opened ChildLayout

  /** Record `j` is the parent of record `k` as a reader of the table would
      find it: the nearest earlier record one level up, and `k`'s parent
      lineage names it. */
  ghost predicate ParentAt(r: seq<Record>, k: int, j: int) {
    && 0 <= j < k < |r|
    && r[j].levelNo.level == r[k].levelNo.level - 1
    && r[k].parentLevel == Some(r[j].levelNo)
    && forall m :: j < m < k ==> r[m].levelNo.level >= r[k].levelNo.level
  }

  /** Record `k` has its parent earlier in the stream. */
  ghost predicate HasParent(r: seq<Record>, k: int) {
    exists j :: ParentAt(r, k, j)
  }

  /** Every record but the first has its parent earlier in the stream. */
  ghost predicate Linked(r: seq<Record>) {
    forall k :: 0 < k < |r| ==> HasParent(r, k)
  }

  /** The records of a list of sibling subtrees at `level` under `parent`:
      none above `level`, those at `level` under `parent`, the deeper ones
      with their parent earlier in the stream. */
  ghost predicate ForestLinked(r: seq<Record>, level: int, parent: Lineage) {
    && (forall k :: 0 <= k < |r| ==>
          r[k].levelNo.level >= level &&
          (r[k].levelNo.level == level ==> r[k].parentLevel == Some(parent)))
    && (forall k {:trigger HasParent(r, k)} :: 0 <= k < |r| && r[k].levelNo.level > level ==> HasParent(r, k))
  }

  lemma ParentAtPrefix(a: seq<Record>, b: seq<Record>, k: int, j: int)
    requires ParentAt(a, k, j)
    ensures ParentAt(a + b, k, j)
  {
    forall m | j < m < k ensures (a + b)[m].levelNo.level >= (a + b)[k].levelNo.level {
      assert (a + b)[m] == a[m];
    }
  }

  lemma ParentAtShift(a: seq<Record>, b: seq<Record>, k: int, j: int)
    requires ParentAt(b, k, j)
    ensures ParentAt(a + b, k + |a|, j + |a|)
  {
    forall m | j + |a| < m < k + |a| ensures (a + b)[m].levelNo.level >= (a + b)[k + |a|].levelNo.level {
      assert (a + b)[m] == b[m - |a|];
    }
  }

    /** Record `k` of `r` is the record of node `k` of `nodes`, at whatever
      lineage it was given. */
  ghost predicate BuiltFrom(r: seq<Record>, nodes: seq<Node>, queryIndex: int, query: string, env: Env) {
    && |r| == |nodes|
    && forall k :: 0 <= k < |r| ==>
         r[k] == NodeRecord(nodes[k], queryIndex, query, env,
                            r[k].levelNo.level, r[k].parentLevel, r[k].levelNo.nodeNum)
  }

  lemma BuiltFromConcat(t: seq<Record>, f: seq<Record>, pt: seq<Node>, pf: seq<Node>,
                        queryIndex: int, query: string, env: Env)
    requires BuiltFrom(t, pt, queryIndex, query, env) && BuiltFrom(f, pf, queryIndex, query, env)
    ensures BuiltFrom(t + f, pt + pf, queryIndex, query, env)
  {
    var r, p := t + f, pt + pf;
    forall k | 0 <= k < |r|
      ensures r[k] == NodeRecord(p[k], queryIndex, query, env,
                                 r[k].levelNo.level, r[k].parentLevel, r[k].levelNo.nodeNum)
    {
      if k < |t| {
        assert r[k] == t[k] && p[k] == pt[k];
      } else {
        assert r[k] == f[k - |t|] && p[k] == pf[k - |t|];
      }
    }
  }

  /** The records of a subtree are built from its nodes in pre-order: one
      record per node, the k-th record from the k-th node. */
  lemma {:induction false} ExtractRecords(n: Node, queryIndex: int, query: string, env: Env,
                                          level: int, parent: Option<Lineage>, nodeNum: int)
    ensures BuiltFrom(ExtractFeatures(n, queryIndex, query, env, level, parent, nodeNum), PreOrder(n),
                      queryIndex, query, env)
    decreases n
  {
    var r := ExtractFeatures(n, queryIndex, query, env, level, parent, nodeNum);
    var rec := NodeRecord(n, queryIndex, query, env, level, parent, nodeNum);
    assert BuiltFrom([rec], [n], queryIndex, query, env);
    match n.plans
    case NoPlans =>
      assert r == [rec] && PreOrder(n) == [n];
    case Plans(kids) =>
      var c := ExtractChildren(kids, queryIndex, query, env, level + 1, Lineage(level, nodeNum), 1);
      ChildrenRecords(kids, queryIndex, query, env, level + 1, Lineage(level, nodeNum), 1);
      assert r == [rec] + c;
      assert PreOrder(n) == [n] + PreOrderAll(kids);
      BuiltFromConcat([rec], c, [n], PreOrderAll(kids), queryIndex, query, env);
  }

  /** The same for the subtrees of a child list, in list order. */
  lemma {:induction false} ChildrenRecords(kids: seq<Node>, queryIndex: int, query: string, env: Env,
                                           level: int, parent: Lineage, first: int)
    ensures BuiltFrom(ExtractChildren(kids, queryIndex, query, env, level, parent, first), PreOrderAll(kids),
                      queryIndex, query, env)
    decreases kids
  {
    if kids != [] {
      var t := ExtractFeatures(kids[0], queryIndex, query, env, level, Some(parent), first);
      var f := ExtractChildren(kids[1..], queryIndex, query, env, level, parent, first + 1);
      ExtractRecords(kids[0], queryIndex, query, env, level, Some(parent), first);
      ChildrenRecords(kids[1..], queryIndex, query, env, level, parent, first + 1);
      assert PreOrderAll(kids) == PreOrder(kids[0]) + PreOrderAll(kids[1..]);
      BuiltFromConcat(t, f, PreOrder(kids[0]), PreOrderAll(kids[1..]), queryIndex, query, env);
    }
  }

  /** A node's record followed by its children's records is linked. */
  lemma LinkNode(rec: Record, c: seq<Record>, level: int)
    requires rec.levelNo.level == level
    requires ForestLinked(c, level + 1, rec.levelNo)
    ensures forall k :: 0 < k < |[rec] + c| ==> ([rec] + c)[k].levelNo.level > level
    ensures Linked([rec] + c)
  {
    var r := [rec] + c;
    forall k | 0 < k < |r|
      ensures r[k].levelNo.level > level && HasParent(r, k)
    {
      assert r[k] == c[k - 1];
      if c[k - 1].levelNo.level == level + 1 {
        forall m | 0 < m < k ensures r[m].levelNo.level >= r[k].levelNo.level {
          assert r[m] == c[m - 1];
        }
        assert ParentAt(r, k, 0);
      } else {
        assert HasParent(c, k - 1);
        var j :| ParentAt(c, k - 1, j);
        ParentAtShift([rec], c, k - 1, j);
      }
    }
  }

  /** A subtree's records followed by its later siblings' records stay linked. */
  lemma LinkSiblings(t: seq<Record>, f: seq<Record>, level: int, parent: Lineage)
    requires |t| > 0 && t[0].levelNo.level == level && t[0].parentLevel == Some(parent)
    requires forall k :: 0 < k < |t| ==> t[k].levelNo.level > level
    requires Linked(t)
    requires ForestLinked(f, level, parent)
    ensures ForestLinked(t + f, level, parent)
  {
    forall k | 0 <= k < |t + f|
      ensures (t + f)[k].levelNo.level >= level
      ensures (t + f)[k].levelNo.level == level ==> (t + f)[k].parentLevel == Some(parent)
      ensures (t + f)[k].levelNo.level > level ==> HasParent(t + f, k)
    {
      if k < |t| {
        LinkSiblingsLeft(t, f, level, parent, k);
      } else {
        LinkSiblingsRight(t, f, level, parent, k);
      }
    }
  }

  lemma LinkSiblingsLeft(t: seq<Record>, f: seq<Record>, level: int, parent: Lineage, k: int)
    requires 0 <= k < |t| && t[0].levelNo.level == level && t[0].parentLevel == Some(parent)
    requires forall i :: 0 < i < |t| ==> t[i].levelNo.level > level
    requires Linked(t)
    ensures (t + f)[k].levelNo.level >= level
    ensures (t + f)[k].levelNo.level == level ==> (t + f)[k].parentLevel == Some(parent)
    ensures (t + f)[k].levelNo.level > level ==> HasParent(t + f, k)
  {
    assert (t + f)[k] == t[k];
    if k > 0 {
      assert HasParent(t, k);
      var j :| ParentAt(t, k, j);
      ParentAtPrefix(t, f, k, j);
    }
  }

  lemma LinkSiblingsRight(t: seq<Record>, f: seq<Record>, level: int, parent: Lineage, k: int)
    requires |t| <= k < |t| + |f|
    requires ForestLinked(f, level, parent)
    ensures (t + f)[k].levelNo.level >= level
    ensures (t + f)[k].levelNo.level == level ==> (t + f)[k].parentLevel == Some(parent)
    ensures (t + f)[k].levelNo.level > level ==> HasParent(t + f, k)
  {
    assert (t + f)[k] == f[k - |t|];
    if f[k - |t|].levelNo.level > level {
      assert HasParent(f, k - |t|);
      var j :| ParentAt(f, k - |t|, j);
      ParentAtShift(t, f, k - |t|, j);
    }
  }

  /** The lineage structure of a subtree's records: the first is the node's
      own, at the given lineage; all others lie deeper, and each finds its
      parent as the nearest earlier record one level up. */
  lemma {:induction false} ExtractLinked(n: Node, queryIndex: int, query: string, env: Env,
                                         level: int, parent: Option<Lineage>, nodeNum: int)
    ensures var r := ExtractFeatures(n, queryIndex, query, env, level, parent, nodeNum);
      && (forall k :: 0 < k < |r| ==> r[k].levelNo.level > level)
      && Linked(r)
    decreases n
  {
    var r := ExtractFeatures(n, queryIndex, query, env, level, parent, nodeNum);
    var rec := NodeRecord(n, queryIndex, query, env, level, parent, nodeNum);
    match n.plans
    case NoPlans =>
      assert r == [rec];
    case Plans(kids) =>
      var c := ExtractChildren(kids, queryIndex, query, env, level + 1, Lineage(level, nodeNum), 1);
      ChildrenLinked(kids, queryIndex, query, env, level + 1, Lineage(level, nodeNum), 1);
      assert r == [rec] + c;
      LinkNode(rec, c, level);
  }

  lemma {:induction false} ChildrenLinked(kids: seq<Node>, queryIndex: int, query: string, env: Env,
                                          level: int, parent: Lineage, first: int)
    ensures ForestLinked(ExtractChildren(kids, queryIndex, query, env, level, parent, first), level, parent)
    decreases kids
  {
    if kids != [] {
      var t := ExtractFeatures(kids[0], queryIndex, query, env, level, Some(parent), first);
      var f := ExtractChildren(kids[1..], queryIndex, query, env, level, parent, first + 1);
      ExtractLinked(kids[0], queryIndex, query, env, level, Some(parent), first);
      ChildrenLinked(kids[1..], queryIndex, query, env, level, parent, first + 1);
      LinkSiblings(t, f, level, parent);
    }
  }

  // ---------------------------------------------------------------------
  // The records of one query, as the driver requests them.

  /** The query text is on the root's record only, every other record has
      ""; so with a non-empty text exactly one record of the query carries it. */
  lemma QueryOnRootOnly(plan: Node, queryIndex: int, query: string, env: Env)
    ensures var r := ExtractPlan(plan, queryIndex, query, env);
      forall k :: 0 <= k < |r| ==> r[k].query == (if k == 0 then query else "")
    ensures var r := ExtractPlan(plan, queryIndex, query, env);
      query != "" ==> forall k :: 0 <= k < |r| ==> (r[k].query == query <==> k == 0)
  {
    var r := ExtractPlan(plan, queryIndex, query, env);
    ExtractRecords(plan, queryIndex, query, env, 1, None, 1);
    ExtractLinked(plan, queryIndex, query, env, 1, None, 1);
    forall k | 0 <= k < |r| ensures r[k].query == (if k == 0 then query else "") {
      assert r[k].query == (if r[k].levelNo.level == 1 then query else "");
    }
  }

  /** Each record carries its own node's values: the query index, the copied
      plan fields (blank when missing), the node's input cardinality, its
      "Actual Rows" as output cardinality (absent when missing, never 0), its
      "Actual Loops" defaulting to 1, and the query's base cardinality. */
  lemma RecordsFollowNodes(n: Node, queryIndex: int, query: string, env: Env,
                           level: int, parent: Option<Lineage>, nodeNum: int)
    ensures var r := ExtractFeatures(n, queryIndex, query, env, level, parent, nodeNum);
      && |r| == |PreOrder(n)|
      && forall k :: 0 <= k < |r| ==>
           && r[k].queryIndex == queryIndex
           && r[k].nodeType == OrBlank(PreOrder(n)[k].nodeType)
           && r[k].parallelAware == OrBlank(PreOrder(n)[k].parallelAware)
           && r[k].startupCost == OrBlank(PreOrder(n)[k].startupCost)
           && r[k].totalCost == OrBlank(PreOrder(n)[k].totalCost)
           && r[k].planRows == OrBlank(PreOrder(n)[k].planRows)
           && r[k].planWidth == OrBlank(PreOrder(n)[k].planWidth)
           && r[k].actualStartupTime == OrBlank(PreOrder(n)[k].actualStartupTime)
           && r[k].actualTotalTime == OrBlank(PreOrder(n)[k].actualTotalTime)
           && r[k].inputCardinality == InputCardinality(PreOrder(n)[k], env.countRows)
           && r[k].outputCardinality == PreOrder(n)[k].actualRows
           && r[k].loop == PreOrder(n)[k].actualLoops.GetOr(1)
           && r[k].baseCardinality == QueryBaseCardinality(query, env)
  {
    ExtractRecords(n, queryIndex, query, env, level, parent, nodeNum);
  }

  /** Base cardinality depends on the query text and the row counter only: it
      is the same on every record of the query; it is minus the number of
      table names found when every lookup fails, and 0 when none is found. */
  lemma BaseCardinalityPerQuery(plan: Node, queryIndex: int, query: string, env: Env)
    ensures var r := ExtractPlan(plan, queryIndex, query, env);
      forall k :: 0 <= k < |r| ==> r[k].baseCardinality == r[0].baseCardinality
    ensures var r := ExtractPlan(plan, queryIndex, query, env);
      (forall t :: env.countRows(t).None?) ==>
        forall k :: 0 <= k < |r| ==> r[k].baseCardinality == -|TablesIn(env.parse(query))|
    ensures var r := ExtractPlan(plan, queryIndex, query, env);
      TablesIn(env.parse(query)) == [] ==> forall k :: 0 <= k < |r| ==> r[k].baseCardinality == 0
  {
    RecordsFollowNodes(plan, queryIndex, query, env, 1, None, 1);
    var tables := TablesIn(env.parse(query));
    if forall t :: env.countRows(t).None? {
      BaseCardinalityAllFail(tables, env.countRows);
    }
  }

  /** Every record after the first finds its parent as the nearest earlier
      record one level up, and names that record's lineage as its
      `parent_level`; `ChildFindsItsParent` shows that record is the node's
      parent in the tree. */
  lemma ParentIsNearestShallower(plan: Node, queryIndex: int, query: string, env: Env)
    ensures var r := ExtractPlan(plan, queryIndex, query, env);
      forall k :: 0 < k < |r| ==> r[k].levelNo.level >= 2 && HasParent(r, k)
  {
    ExtractLinked(plan, queryIndex, query, env, 1, None, 1);
  }

  /** The parent a reader finds in the stream is the parent in the tree: the
      record that opens the i-th child's block has the node's own record,
      the first of its records, as its nearest earlier record one level up,
      named by its `parent_level`. */
  lemma ChildFindsItsParent(n: Node, queryIndex: int, query: string, env: Env,
                            level: int, parent: Option<Lineage>, nodeNum: int, i: nat)
    requires n.plans.Plans? && i < |n.plans.children|
    ensures var r := ExtractFeatures(n, queryIndex, query, env, level, parent, nodeNum);
      ParentAt(r, 1 + |PreOrderAll(n.plans.children[..i])|, 0)
  {
    ChildSubtree(n, queryIndex, query, env, level, parent, nodeNum, i);
    ExtractLinked(n, queryIndex, query, env, level, parent, nodeNum);
  }
}
