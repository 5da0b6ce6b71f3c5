/** Concrete plans and token streams, worked through the model. */
module Scenarios {
  import opened Wrappers
  import opened TableNames
  import opened Plan
  import opened Cardinality
  import opened Features
  import opened FeatureProperties

  // ---------------------------------------------------------------------
  // Table names

  /** FROM and JOIN keywords in the letter cases the scenarios use, and in
      mixed case; other keywords, such as a `LEFT JOIN` token, do not set the
      flag. */
  lemma KeywordsRecognised()
    ensures IsFromOrJoin(Keyword("from")) && IsFromOrJoin(Keyword("FROM")) && IsFromOrJoin(Keyword("JOIN"))
    ensures IsFromOrJoin(Keyword("Join")) && IsFromOrJoin(Keyword("fRoM"))
    ensures !IsFromOrJoin(Keyword("LEFT JOIN")) && !IsFromOrJoin(Keyword("ON"))
  {
    assert Upper("from") == "FROM";
    assert Upper("FROM") == "FROM";
    assert Upper("JOIN") == "JOIN";
    assert Upper("Join") == "JOIN";
    assert Upper("fRoM") == "FROM";
  }

  /** A single statement is scanned on its own tokens. */
  lemma OneStatement(s: Statement)
    ensures TablesIn([s]) == Scan(s, false)
  {
    assert [s][0] == s && [s][1..] == [];
    assert Flatten([s]) == s + Flatten([]);
    assert s + [] == s;
  }

  /** `SELECT * from a JOIN b`, one statement (SELECT is a DML keyword, not
      a plain one): the names after FROM, in order; a lower-case keyword
      counts too. */
  lemma JoinedTables(a: string, b: string)
    requires a != "" && b != ""
    ensures TablesIn([[Other, Other, Keyword("from"), Identifier(Some(a)),
                       Keyword("JOIN"), Identifier(Some(b))]]) == [a, b]
  {
    var s := [Other, Other, Keyword("from"), Identifier(Some(a)), Keyword("JOIN"), Identifier(Some(b))];
    OneStatement(s);
    KeywordsRecognised();
    assert s[5..][1..] == [] && s[4..][1..] == s[5..] && s[3..][1..] == s[4..];
    assert s[2..][1..] == s[3..] && s[1..][1..] == s[2..];
    assert Scan(s[5..], true) == [b];
    assert Scan(s[4..], true) == [b];
    assert Scan(s[3..], true) == [a, b];
    assert Scan(s[2..], false) == [a, b];
    assert Scan(s[1..], false) == [a, b];
  }

  /** An identifier list drops absent and empty names. */
  lemma SkippedNames(t: string)
    requires t != ""
    ensures RealNames([Some(t), None, Some("")]) == [t]
  {
    var names := [Some(t), None, Some("")];
    assert names[..2] == [Some(t), None] && names[..2][..1] == [Some(t)] && names[..2][..1][..0] == [];
    assert RealNames([Some(t)]) == [t];
    assert RealNames([Some(t), None]) == [t];
  }

  /** A table joined with itself is reported twice; an identifier before the
      keyword is not reported, nor are the absent and empty names of an
      identifier list. */
  lemma RepeatedTable(x: string, t: string)
    requires t != ""
    ensures TablesIn([[Identifier(Some(x)), Keyword("FROM"), IdentifierList([Some(t), None, Some("")]),
                       Keyword("JOIN"), Identifier(Some(t))]]) == [t, t]
  {
    var s := [Identifier(Some(x)), Keyword("FROM"), IdentifierList([Some(t), None, Some("")]),
              Keyword("JOIN"), Identifier(Some(t))];
    OneStatement(s);
    KeywordsRecognised();
    SkippedNames(t);
    assert s[4..][1..] == [] && s[3..][1..] == s[4..] && s[2..][1..] == s[3..] && s[1..][1..] == s[2..];
    assert Scan(s[4..], true) == [t];
    assert Scan(s[3..], true) == [t];
    assert Scan(s[2..], true) == [t, t];
    assert Scan(s[1..], false) == [t, t];
  }

  // ---------------------------------------------------------------------
  // Plans

  /** A plan node with only the given rows, relation and children. */
  function PlanNode(rows: Option<int>, relation: Option<string>, plans: Subplans): Node {
    Node(nodeType := None, parallelAware := None, startupCost := None, totalCost := None,
         planRows := None, planWidth := None, actualStartupTime := None, actualTotalTime := None,
         actualRows := rows, actualLoops := None, relationName := relation, plans := plans)
  }

  lemma LeafRecords(n: Node, queryIndex: int, query: string, env: Env,
                    level: int, parent: Option<Lineage>, nodeNum: int)
    requires n.plans.NoPlans?
    ensures ExtractFeatures(n, queryIndex, query, env, level, parent, nodeNum) ==
      [NodeRecord(n, queryIndex, query, env, level, parent, nodeNum)]
  {
    assert [NodeRecord(n, queryIndex, query, env, level, parent, nodeNum)] + [] ==
      [NodeRecord(n, queryIndex, query, env, level, parent, nodeNum)];
  }

  lemma OnlyChildRecords(n: Node, queryIndex: int, query: string, env: Env,
                         level: int, parent: Option<Lineage>, nodeNum: int)
    requires n.plans.Plans? && |n.plans.children| == 1
    ensures ExtractFeatures(n, queryIndex, query, env, level, parent, nodeNum) ==
      [NodeRecord(n, queryIndex, query, env, level, parent, nodeNum)] +
      ExtractFeatures(n.plans.children[0], queryIndex, query, env, level + 1, Some(Lineage(level, nodeNum)), 1)
  {
    var kids := n.plans.children;
    var first := ExtractFeatures(kids[0], queryIndex, query, env, level + 1, Some(Lineage(level, nodeNum)), 1);
    assert kids[1..] == [];
    assert ExtractChildren(kids, queryIndex, query, env, level + 1, Lineage(level, nodeNum), 1) == first + [];
    assert first + [] == first;
  }

  lemma TwoChildrenRecords(n: Node, queryIndex: int, query: string, env: Env,
                           level: int, parent: Option<Lineage>, nodeNum: int)
    requires n.plans.Plans? && |n.plans.children| == 2
    ensures ExtractFeatures(n, queryIndex, query, env, level, parent, nodeNum) ==
      [NodeRecord(n, queryIndex, query, env, level, parent, nodeNum)] +
      (ExtractFeatures(n.plans.children[0], queryIndex, query, env, level + 1, Some(Lineage(level, nodeNum)), 1) +
       ExtractFeatures(n.plans.children[1], queryIndex, query, env, level + 1, Some(Lineage(level, nodeNum)), 2))
  {
    var kids := n.plans.children;
    var me := Lineage(level, nodeNum);
    var second := ExtractFeatures(kids[1], queryIndex, query, env, level + 1, Some(me), 2);
    assert kids[1..][0] == kids[1] && kids[1..][1..] == [];
    assert ExtractChildren(kids[1..], queryIndex, query, env, level + 1, me, 2) == second + [];
    assert second + [] == second;
  }

  /** A root with two scanned leaves over x (10 rows, 100 counted) and y
      (20 rows, count fails). */
  lemma TwoLeafPlan(env: Env)
    requires env.countRows("x") == Some(100) && env.countRows("y") == None
    ensures var x := PlanNode(Some(10), Some("x"), NoPlans);
      var y := PlanNode(Some(20), Some("y"), NoPlans);
      var r := ExtractPlan(PlanNode(Some(30), None, Plans([x, y])), 0, "q", env);
      && |r| == 3
      && r[0].levelNo == Lineage(1, 1) && r[0].parentLevel == None && r[0].inputCardinality == 30
      && r[1].levelNo == Lineage(2, 1) && r[1].parentLevel == Some(Lineage(1, 1)) && r[1].inputCardinality == 100
      && r[2].levelNo == Lineage(2, 2) && r[2].parentLevel == Some(Lineage(1, 1)) && r[2].inputCardinality == -1
      && r[0].query == "q" && r[1].query == "" && r[2].query == ""
  {
    var x := PlanNode(Some(10), Some("x"), NoPlans);
    var y := PlanNode(Some(20), Some("y"), NoPlans);
    var root := PlanNode(Some(30), None, Plans([x, y]));
    TwoChildrenRecords(root, 0, "q", env, 1, None, 1);
    LeafRecords(x, 0, "q", env, 2, Some(Lineage(1, 1)), 1);
    LeafRecords(y, 0, "q", env, 2, Some(Lineage(1, 1)), 2);
    assert [x, y][1..] == [y] && [x, y][1..][1..] == [];
    assert ChildRows([y]) == 20;
    assert ChildRows([x, y]) == 30;
  }

  /** The lineage pair of a record need not be unique within a query: in the
      plan root(A(C(E)), A(C(E))) the two E nodes both get level "4.1"
      under parent "3.1". */
  lemma LineagePairsRepeat(env: Env)
    ensures var e := PlanNode(None, None, NoPlans);
      var c := PlanNode(None, None, Plans([e]));
      var a := PlanNode(None, None, Plans([c]));
      var r := ExtractPlan(PlanNode(None, None, Plans([a, a])), 0, "q", env);
      && |r| == 7
      && r[3].levelNo == r[6].levelNo == Lineage(4, 1)
      && r[3].parentLevel == r[6].parentLevel == Some(Lineage(3, 1))
  {
    var e := PlanNode(None, None, NoPlans);
    var c := PlanNode(None, None, Plans([e]));
    var a := PlanNode(None, None, Plans([c]));
    var root := PlanNode(None, None, Plans([a, a]));
    TwoChildrenRecords(root, 0, "q", env, 1, None, 1);
    OnlyChildRecords(a, 0, "q", env, 2, Some(Lineage(1, 1)), 1);
    OnlyChildRecords(a, 0, "q", env, 2, Some(Lineage(1, 1)), 2);
    OnlyChildRecords(c, 0, "q", env, 3, Some(Lineage(2, 1)), 1);
    OnlyChildRecords(c, 0, "q", env, 3, Some(Lineage(2, 2)), 1);
    LeafRecords(e, 0, "q", env, 4, Some(Lineage(3, 1)), 1);
  }
}
