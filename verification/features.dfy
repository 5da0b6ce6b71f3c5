/** The plan-tree flattener `extract_features`: a pre-order walk of the plan
    that emits one flat feature record per node, with lineage fields from
    which the tree can be reassembled. */
module Features {
  import opened Wrappers
  import opened TableNames
  import opened Plan
  import opened Cardinality

  /** A lineage `"<level>.<node_num>"`, kept as the pair of numbers. */
  datatype Lineage = Lineage(level: int, nodeNum: int)

  /** A copied plan value: `Blank` is the empty string `plan.get(key, '')`
      yields for a missing key. */
  datatype Field<T> = Blank | Given(value: T)

  function OrBlank<T>(o: Option<T>): Field<T> {
    match o
    case Some(v) => Given(v)
    case None => Blank
  }

  /** One feature record (one CSV row). `outputCardinality` is `None` where the
      source stores Python's `None`; `parentLevel` is `None` for the sentinel
      `'-1'` of a record without parent. */
  datatype Record = Record(
    queryIndex: int,
    query: string,
    nodeType: Field<string>,
    parallelAware: Field<bool>,
    startupCost: Field<real>,
    totalCost: Field<real>,
    planRows: Field<int>,
    planWidth: Field<int>,
    actualStartupTime: Field<real>,
    actualTotalTime: Field<real>,
    inputCardinality: int,
    outputCardinality: Option<int>,
    baseCardinality: int,
    loop: int,
    levelNo: Lineage,
    parentLevel: Option<Lineage>)

  /** The collaborators the extractor cannot see: `parse` is `sqlparse.parse`
      reduced to top-level tokens, `countRows` the `COUNT(*)` lookup through
      the cursor. */
  datatype Env = Env(parse: string -> seq<Statement>, countRows: RowCounter)

  /** The base cardinality of a query: one lookup per table name found in its
      text, whatever the node. */
  function QueryBaseCardinality(query: string, env: Env): int {
    BaseCardinality(TablesIn(env.parse(query)), env.countRows)
  }

  /** The record `extract_features` builds for one node at a given lineage. */
  function NodeRecord(n: Node, queryIndex: int, query: string, env: Env,
                      level: int, parent: Option<Lineage>, nodeNum: int): (r: Record)
    ensures r.levelNo == Lineage(level, nodeNum) && r.parentLevel == parent
    ensures level != 1 ==> r.query == ""
    ensures r.outputCardinality.None? <==> n.actualRows.None?
    ensures n.actualLoops.None? ==> r.loop == 1
  {
    Record(
      queryIndex := queryIndex,
      query := if level == 1 then query else "",
      nodeType := OrBlank(n.nodeType),
      parallelAware := OrBlank(n.parallelAware),
      startupCost := OrBlank(n.startupCost),
      totalCost := OrBlank(n.totalCost),
      planRows := OrBlank(n.planRows),
      planWidth := OrBlank(n.planWidth),
      actualStartupTime := OrBlank(n.actualStartupTime),
      actualTotalTime := OrBlank(n.actualTotalTime),
      inputCardinality := InputCardinality(n, env.countRows),
      outputCardinality := n.actualRows,
      baseCardinality := QueryBaseCardinality(query, env),
      loop := n.actualLoops.GetOr(1),
      levelNo := Lineage(level, nodeNum),
      parentLevel := parent)
  }

  /** `extract_features(plan, query_index, query, cur, level, parent, node_num)`:
      the node's own record, then the records of each child's subtree in
      list order, the i-th child (from 1) at `(level + 1, i)` under this
      node's lineage. */
  function ExtractFeatures(n: Node, queryIndex: int, query: string, env: Env,
                           level: int, parent: Option<Lineage>, nodeNum: int): (r: seq<Record>)
    ensures |r| >= 1 && r[0].levelNo == Lineage(level, nodeNum) && r[0].parentLevel == parent
    decreases n
  {
    [NodeRecord(n, queryIndex, query, env, level, parent, nodeNum)] +
    match n.plans
    case NoPlans => []
    case Plans(kids) => ExtractChildren(kids, queryIndex, query, env, level + 1, Lineage(level, nodeNum), 1)
  }

  /** The children's records, the first child numbered `first`. */
  function ExtractChildren(kids: seq<Node>, queryIndex: int, query: string, env: Env,
                           level: int, parent: Lineage, first: int): (r: seq<Record>)
    ensures |r| >= |kids|
    decreases kids
  {
    if kids == [] then []
    else
      ExtractFeatures(kids[0], queryIndex, query, env, level, Some(parent), first) +
      ExtractChildren(kids[1..], queryIndex, query, env, level, parent, first + 1)
  }

  /** The call the driver makes: level 1, no parent, node number 1. */
  function ExtractPlan(plan: Node, queryIndex: int, query: string, env: Env): (r: seq<Record>)
    ensures |r| >= 1 && r[0].levelNo == Lineage(1, 1) && r[0].parentLevel == None && r[0].query == query
  {
    ExtractFeatures(plan, queryIndex, query, env, 1, None, 1)
  }

  /** One visit of `extract_features` before it recurses, step by step: the
      table names of the query through the scanning loop, the running
      base-cardinality total through its loop, and the record built from the
      node. `NodeRecord` is the specification it meets, the form the
      recursive flattener and its lemmas use; it is kept as a function
      because functions and lemmas cannot call these methods. */
  method NodeFeatures(n: Node, queryIndex: int, query: string, env: Env,
                      level: int, parent: Option<Lineage>, nodeNum: int) returns (rec: Record)
    ensures rec == NodeRecord(n, queryIndex, query, env, level, parent, nodeNum)
  {
    var loop := n.actualLoops.GetOr(1);
    var inputCardinality := InputCardinality(n, env.countRows);
    var outputCardinality := n.actualRows;
    var tables := GetTableNames(query, env.parse);
    var baseCardinality := ComputeBaseCardinality(tables, env.countRows);
    rec := Record(
      queryIndex := queryIndex,
      query := if level == 1 then query else "",
      nodeType := OrBlank(n.nodeType),
      parallelAware := OrBlank(n.parallelAware),
      startupCost := OrBlank(n.startupCost),
      totalCost := OrBlank(n.totalCost),
      planRows := OrBlank(n.planRows),
      planWidth := OrBlank(n.planWidth),
      actualStartupTime := OrBlank(n.actualStartupTime),
      actualTotalTime := OrBlank(n.actualTotalTime),
      inputCardinality := inputCardinality,
      outputCardinality := outputCardinality,
      baseCardinality := baseCardinality,
      loop := loop,
      levelNo := Lineage(level, nodeNum),
      parentLevel := parent);
  }
}
