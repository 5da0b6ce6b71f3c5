# Plan-feature extraction, modelled in Dafny

This project models the core of `extract_feature_from_10k_queries.py`. That
script flattens PostgreSQL `EXPLAIN (ANALYZE, FORMAT JSON)` plan trees into
CSV rows, one row per operator node. The model covers three parts:

- **`get_table_names`** (`TableNames`, imperative): a scan over the top-level
  tokens of every statement that sqlparse produces for the query text. A
  plain `FROM`/`JOIN` keyword sets a flag. Once the flag is set, every later
  identifier, or identifier list, contributes its real names. The method
  `GetTableNames` keeps the nested loops of the source. It is proved equal to
  the scan function `TablesIn`. That function is then proved equal to a
  reference definition: the names of every token after the first
  `FROM`/`JOIN` keyword.
- **The three cardinalities** (`Cardinality`):
  - input cardinality: the children's `Actual Rows`, or the leaf relation's
    row count, or -1;
  - output cardinality: the node's own `Actual Rows`, passed through;
  - base cardinality: a running total over the query's table names, with -1
    for each failed count. The loop is `ComputeBaseCardinality`.
- **`extract_features`** (`Features`, `FeatureProperties`, `ChildLayout`): the
  recursive generator becomes a recursive function that returns the whole
  record sequence. The lemmas prove:
  - one record per node, in pre-order;
  - the lineage numbering;
  - each record's parent is the nearest earlier record one level up, and its
    `parent_level` names that record, which is its parent in the tree;
  - the query text appears on the root record only;
  - the per-node and per-query cardinalities.

Three collaborators are parameters of `Features.Env`:

- sqlparse's parser, as `parse: string -> seq<Statement>`, whose tokens are
  reduced to the four kinds the scan distinguishes;
- the database cursor, as `countRows: string -> Option<int>`, where `None` is
  a `COUNT(*)` that raised;
- nothing else: no I/O is modelled.

A lineage string `"<level>.<node_num>"` is kept as the pair `Lineage(level,
nodeNum)`. The parent sentinel `'-1'` is `None`. A plan value missing from
the JSON (`plan.get(key, '')`) is `Blank`.

## Model

| member | source | states |
|---|---|---|
| TableNames.IsFromOrJoin | extract_feature_from_10k_queries.py:32 | only a plain keyword whose upper-cased text is FROM or JOIN sets the flag, so such a keyword has four letters |
| TableNames.GetTableNames | extract_feature_from_10k_queries.py:15-35 | the nested loops over statements and tokens return exactly `TablesIn(parse(query))`: the flag starts clear and carries over from one statement to the next |
| TableNames.AppendNames | extract_feature_from_10k_queries.py:22-31 | once the flag is set, a token appends its names: an identifier its non-empty real name, an identifier list the non-empty real names of its members in order, anything else nothing |
| TableNames.ScanIsAfterFirstKeyword | extract_feature_from_10k_queries.py:20-33 | with no FROM/JOIN keyword the scan yields nothing; otherwise it yields exactly the names of the tokens strictly after the first such keyword |
| TableNames.TablesInIsAfterFirstKeyword | extract_feature_from_10k_queries.py:15-35 | the same characterisation for `get_table_names` on a list of statements, over the statements' concatenated top-level tokens |
| TableNames.ScanWhenSeen | extract_feature_from_10k_queries.py:22-31 | with the flag set, every token contributes its names, in order and without deduplication |
| TableNames.ScanAppend | extract_feature_from_10k_queries.py:18-33 | the flag is never cleared: the scan of `a + b` is the scan of `a`, followed by the scan of `b` with the flag as `a` left it |
| TableNames.TablesInNextStatement | extract_feature_from_10k_queries.py:20-33 | a later statement contributes all its names when an earlier statement set the flag, and is otherwise scanned from a clear flag |
| TableNames.ScanNonEmpty | extract_feature_from_10k_queries.py:25-31 | no reported table name is empty |
| TableNames.RealNamesNonEmpty | extract_feature_from_10k_queries.py:28-31 | the names taken from an identifier list are all non-empty |
| TableNames.RealNames | extract_feature_from_10k_queries.py:28-31 | an identifier list contributes at most one name per member |
| TableNames.FirstFromJoin | extract_feature_from_10k_queries.py:32-33 | the first token that sets the flag: a FROM/JOIN keyword with none before it, or none at all |
| Plan.HasRelation | extract_feature_from_10k_queries.py:49-50 | a leaf counts as naming a relation only when `Relation Name` is present and non-empty (Python truthiness) |
| Cardinality.ChildRows | extract_feature_from_10k_queries.py:47 | the sum of the children's `Actual Rows`, a missing value counting as 0, is non-negative when no child reports negative rows |
| Cardinality.InputCardinality | extract_feature_from_10k_queries.py:45-57 | with `Plans`, the children's row sum; for a leaf without a relation name, -1; for a leaf naming a relation, its row count or -1 |
| Cardinality.BaseCardinality | extract_feature_from_10k_queries.py:63-71 | the total over the table list; with non-negative counts it is at least minus the number of names |
| Cardinality.ChildRowsMissing | extract_feature_from_10k_queries.py:46-47 | children without `Actual Rows` add 0, so an empty `Plans` list gives input cardinality 0, not -1 |
| Cardinality.ChildRowsAppend | extract_feature_from_10k_queries.py:47 | the children's sum is additive over a split of the child list |
| Cardinality.InputCardinalityNeedsNoLookup | extract_feature_from_10k_queries.py:46-57 | a node with `Plans`, or a leaf without a relation name, gets the same input cardinality under every row counter (no lookup), and such a leaf gets -1 |
| Cardinality.LeafInputCardinality | extract_feature_from_10k_queries.py:49-57 | a leaf naming a relation gets its row count when the count succeeds; a leaf gets -1 when the count fails or no relation is named |
| Cardinality.InputCardinalitySentinel | extract_feature_from_10k_queries.py:45-57 | with non-negative counts and child rows, the input cardinality is negative if and only if it is the -1 of a leaf without relation or with a failed count |
| Cardinality.ComputeBaseCardinality | extract_feature_from_10k_queries.py:63-71 | the loop's total is `BaseCardinality(tables)`: each table adds its row count, or -1 when the count fails |
| Cardinality.BaseCardinalityAppend | extract_feature_from_10k_queries.py:65-71 | each occurrence of a table name adds its own contribution, repeats included |
| Cardinality.BaseCardinalityAllFail | extract_feature_from_10k_queries.py:63-71 | when every lookup fails the total is minus the number of table names, and 0 with no names |
| Cardinality.BaseCardinalityLowerBound | extract_feature_from_10k_queries.py:63-71 | with non-negative counts the total equals its lower bound, minus the number of names, if and only if every lookup fails |
| Features.NodeRecord | extract_feature_from_10k_queries.py:77-94 | a node's record carries the given lineage and parent, "" as query text below level 1, an absent output cardinality exactly when `Actual Rows` is missing, and loop 1 when `Actual Loops` is missing |
| Features.ExtractFeatures | extract_feature_from_10k_queries.py:41-101 | the flattener: at least one record, the first one (the node's own) at the given lineage and parent; the exact count is `ChildLayout.ExtractSize` |
| Features.ExtractChildren | extract_feature_from_10k_queries.py:98-101 | the children's subtrees, in list order: at least one record per child; the exact count is `ChildLayout.ChildrenSize` |
| Features.ExtractPlan | extract_feature_from_10k_queries.py:74-79 | the driver's call (level 1, no parent, node 1): at least one record, the first with level "1.1", parent "-1" and the query text |
| Features.NodeFeatures | extract_feature_from_10k_queries.py:41-94 | one visit computes loop, input, output and base cardinality (through `GetTableNames` and `ComputeBaseCardinality`) and builds the node's record |
| FeatureProperties.ExtractRecords | extract_feature_from_10k_queries.py:41-101 | exactly one record per plan node, and the k-th record is built from the k-th node in pre-order |
| FeatureProperties.ChildrenRecords | extract_feature_from_10k_queries.py:98-101 | the same for the subtrees of a child list, taken in list order |
| FeatureProperties.ExtractLinked | extract_feature_from_10k_queries.py:74-101 | the first record has the given lineage and parent, all later records are deeper, and every later record finds its parent as the nearest earlier record one level up |
| FeatureProperties.ChildrenLinked | extract_feature_from_10k_queries.py:98-101 | the children's records are at least one level down; those at the children's level name the parent's lineage; every deeper one has its parent earlier |
| FeatureProperties.QueryOnRootOnly | extract_feature_from_10k_queries.py:79 | the query text is on record 0 only, and every other record has ""; with a non-empty text, a record carries it if and only if it is the first |
| FeatureProperties.RecordsFollowNodes | extract_feature_from_10k_queries.py:43-91 | each record carries its own node's copied fields (blank when missing), input cardinality, `Actual Rows` as output (absent stays absent), `Actual Loops` defaulting to 1, and the query's base cardinality |
| FeatureProperties.BaseCardinalityPerQuery | extract_feature_from_10k_queries.py:62-71 | base cardinality is the same on every record of a query; it is minus the number of names found when all lookups fail, and 0 when no name is found |
| FeatureProperties.ParentIsNearestShallower | extract_feature_from_10k_queries.py:96-101 | every non-root record is at level 2 or deeper and has a parent record earlier in the stream, one level up and named by its `parent_level` |
| FeatureProperties.ChildFindsItsParent | extract_feature_from_10k_queries.py:98-101 | the record that opens the i-th child's block has the node's own record as its nearest earlier record one level up, and names it as its `parent_level` |
| ChildLayout.ChildSubtree | extract_feature_from_10k_queries.py:98-101 | the i-th child's subtree is one contiguous block of records after the earlier children's blocks, produced at lineage (level+1).(i+1) under the parent's lineage |
| ChildLayout.ExtractSize | extract_feature_from_10k_queries.py:96-101 | a subtree yields exactly one record per node: its length is the pre-order size of the subtree |
| ChildLayout.ChildrenSize | extract_feature_from_10k_queries.py:98-101 | the children's records number exactly the nodes of their subtrees |
| ChildLayout.ChildrenAppend | extract_feature_from_10k_queries.py:99-101 | the children's records split along a split of the child list, the numbering of the second part continuing after the first |
| ChildLayout.ChildrenSplit | extract_feature_from_10k_queries.py:99-101 | the children's records are those before the i-th child, then the i-th child's subtree numbered i+1, then the rest |
| Scenarios.KeywordsRecognised | extract_feature_from_10k_queries.py:32 | the keywords `from`, `FROM`, `JOIN`, `Join` and `fRoM` set the flag; the keywords `LEFT JOIN` and `ON` do not |
| Scenarios.JoinedTables | extract_feature_from_10k_queries.py:15-35 | `SELECT * from a JOIN b` yields `[a, b]` |
| Scenarios.SkippedNames | extract_feature_from_10k_queries.py:28-31 | an identifier list drops its absent and empty names |
| Scenarios.RepeatedTable | extract_feature_from_10k_queries.py:20-33 | a table named twice after FROM is reported twice; an identifier before FROM is not reported |
| Scenarios.TwoLeafPlan | extract_feature_from_10k_queries.py:41-101 | a root over two scanned leaves gives lineages 1.1, 2.1 and 2.2 with input cardinalities 30, 100 and -1 (failed count), and the query text on the root only |
| Scenarios.LineagePairsRepeat | extract_feature_from_10k_queries.py:74-101 | in the plan root(A(C(E)), A(C(E))) both E records carry level "4.1" under parent "3.1" |
| Scenarios.LeafRecords | extract_feature_from_10k_queries.py:96-98 | a leaf yields its own record only |
| Scenarios.OnlyChildRecords | extract_feature_from_10k_queries.py:96-101 | a node with one child yields its record, then the child's subtree numbered 1 |
| Scenarios.TwoChildrenRecords | extract_feature_from_10k_queries.py:96-101 | a node with two children yields its record, then the subtrees of children 1 and 2 |

## Left out

- The driver script after line 104 is not modelled. It reads the configuration, connects to the database, runs `EXPLAIN ANALYZE` on each query, assigns `query_index`, writes the CSV and prints. All of it is I/O.
- sqlparse is not modelled. Its tokenisation and grouping of identifiers are the injected `parse` function. A token is reduced to an identifier with its optional real name, an identifier list with the optional real names of its members, a token whose ttype is exactly `Keyword`, or anything else. So a DML keyword such as `SELECT` or a punctuation token is "anything else". A `LEFT JOIN` token has ttype `Keyword` and is a keyword whose text is not FROM or JOIN, so it does not set the flag.
- TableNames.GetTableNames: the exception path of `get_real_name` is not modelled. sqlparse can put plain tokens, such as the numbers of `GROUP BY 1, 2`, into an identifier list. Once the flag is set, line 29 calls `get_real_name` on them, and that raises `AttributeError`. `extract_features` then raises at line 64, before its first `yield`, so the driver emits no record for that query. The model's identifier-list members always have an optional real name, so `TableNames.Names` and `Features.ExtractPlan` always produce records there.
- `IsFromOrJoin` upper-cases ASCII letters only. Python's `str.upper` also maps non-ASCII letters, and that does not change the result for the strings "FROM" and "JOIN" except in exotic cases (for example the dotless ı).
- The database is not modelled. `COUNT(*)` is the injected `countRows` function, whose `None` is any exception. The counter is stateless: after one failed statement, psycopg2 leaves the transaction aborted, so every later count on the same cursor would also fail. The model does not capture that coupling.
- FeatureProperties.BaseCardinalityPerQuery: the same base cardinality on every record holds only while no count has failed. With the aborted transaction above, a query over tables `[t1, t2]` where t1 counts c1 and t2 fails gives c1 - 1 on the root record and -2 on every later record.
- FeatureProperties.RecordsFollowNodes: the leaf rule (a relation's own row count) likewise holds only until the first failed count of the traversal. After that, a later leaf whose relation exists gets -1, where the model gives `countRows(relation)`. The quoted SQL text (`"table"`) that is sent is also not modelled.
- Costs and times (`Startup Cost`, `Actual Total Time`, ...) are copied as `real` values and never computed with. Floating-point behaviour is not modelled.
- JSON values of an unexpected type are not modelled: a non-integer `Actual Rows`, or a `Plans` value that is not a list of plan objects.
- Lineage strings are kept as pairs of numbers, so the rendering `f'{level}.{node_num}'` is not modelled. That rendering is injective, so equal pairs and equal strings coincide.
- The generator is modelled as the complete sequence it yields. Laziness and Python's recursion limit on very deep plans are not modelled.
- `extract_features` is modelled for any starting level, parent and node number. The driver always uses the defaults 1, `None`, 1, which is `ExtractPlan`.
- Lineage uniqueness is not proved, because the code does not guarantee it. One might expect `(level_no, parent_level)` to be unique within a query, so that the tree could be rebuilt from those pairs alone. The code numbers children per parent, so two cousins can share both values; `Scenarios.LineagePairsRepeat` exhibits such a plan. The model follows the code. In place of pair uniqueness it proves two things. `FeatureProperties.ExtractLinked` and `FeatureProperties.ParentIsNearestShallower` show that every later record has an earlier record one level up, the nearest one, named by its `parent_level`. `FeatureProperties.ChildFindsItsParent` shows that for each child this record is the child's parent in the tree.
- No function that rebuilds a tree from the records is defined. The round trip is stated through `ExtractRecords` (one record per node, in pre-order) and the parent property above.
