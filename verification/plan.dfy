/** One node of a profiled execution plan, as `EXPLAIN (ANALYZE, FORMAT JSON)`
    reports it: a key/value record whose keys may be missing. */
module Plan {
  import opened Wrappers

  /** The keys the feature extractor reads; every one of them may be absent.
      Costs and times are floating point in the plan and are only copied into
      records, so they are carried as `real` and never computed with.
      `plans` is `NoPlans` when the `Plans` key is absent, which is not the
      same as a present but empty list of children. */
  datatype Node = Node(
    nodeType: Option<string>,          // "Node Type"
    parallelAware: Option<bool>,       // "Parallel Aware"
    startupCost: Option<real>,         // "Startup Cost"
    totalCost: Option<real>,           // "Total Cost"
    planRows: Option<int>,             // "Plan Rows"
    planWidth: Option<int>,            // "Plan Width"
    actualStartupTime: Option<real>,   // "Actual Startup Time"
    actualTotalTime: Option<real>,     // "Actual Total Time"
    actualRows: Option<int>,           // "Actual Rows"
    actualLoops: Option<int>,          // "Actual Loops"
    relationName: Option<string>,      // "Relation Name"
    plans: Subplans)                   // "Plans"

  /** The "Plans" key: absent, or present with a (possibly empty) list. */
  datatype Subplans = NoPlans | Plans(children: seq<Node>)

  /** A leaf that names a relation (Python's truthiness test `if relation_name:`). */
  predicate HasRelation(n: Node)
    ensures HasRelation(n) ==> n.relationName.Some? && |n.relationName.value| >= 1
  {
    n.relationName.Some? && n.relationName.value != ""
  }

  /** The nodes of a plan tree in pre-order: a node before its children, the
      children in list order. */
  function PreOrder(n: Node): (r: seq<Node>)
    ensures |r| >= 1 && r[0] == n
    decreases n
  {
    [n] + (if n.plans.Plans? then PreOrderAll(n.plans.children) else [])
  }

  /** The pre-order of each child, one after the other. */
  function PreOrderAll(kids: seq<Node>): (r: seq<Node>)
    ensures |r| >= |kids|
    decreases kids
  {
    if kids == [] then [] else PreOrder(kids[0]) + PreOrderAll(kids[1..])
  }
}
