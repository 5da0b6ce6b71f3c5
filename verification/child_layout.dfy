/** Where each child's subtree lands in the records of its parent: one
    contiguous block per child, in list order, numbered from 1. */
module ChildLayout {
  import opened Wrappers
  import opened Plan
  import opened Features
  import opened Sequences

  /** The records of the children of a node form one block per child. */
  lemma {:induction false} ChildrenAppend(a: seq<Node>, b: seq<Node>, queryIndex: int, query: string, env: Env,
                                          level: int, parent: Lineage, first: int)
    ensures ExtractChildren(a + b, queryIndex, query, env, level, parent, first) ==
      ExtractChildren(a, queryIndex, query, env, level, parent, first) +
      ExtractChildren(b, queryIndex, query, env, level, parent, first + |a|)
  {
    if a == [] {
      assert a + b == b;
    } else {
      assert (a + b)[0] == a[0] && (a + b)[1..] == a[1..] + b;
      ChildrenAppend(a[1..], b, queryIndex, query, env, level, parent, first + 1);
      AppendAssoc(ExtractFeatures(a[0], queryIndex, query, env, level, Some(parent), first),
                  ExtractChildren(a[1..], queryIndex, query, env, level, parent, first + 1),
                  ExtractChildren(b, queryIndex, query, env, level, parent, first + |a|));
    }
  }

  /** One record per node. This repeats the size half of
      `FeatureProperties.ExtractRecords` on its own, so that the block
      lemmas below do not carry that lemma's per-record quantifier into
      their proofs. */
  lemma {:induction false} ExtractSize(n: Node, queryIndex: int, query: string, env: Env,
                                       level: int, parent: Option<Lineage>, nodeNum: int)
    ensures |ExtractFeatures(n, queryIndex, query, env, level, parent, nodeNum)| == |PreOrder(n)|
    decreases n
  {
    match n.plans
    case NoPlans =>
    case Plans(kids) =>
      ChildrenSize(kids, queryIndex, query, env, level + 1, Lineage(level, nodeNum), 1);
  }

  lemma {:induction false} ChildrenSize(kids: seq<Node>, queryIndex: int, query: string, env: Env,
                                        level: int, parent: Lineage, first: int)
    ensures |ExtractChildren(kids, queryIndex, query, env, level, parent, first)| == |PreOrderAll(kids)|
    decreases kids
  {
    if kids != [] {
      ExtractSize(kids[0], queryIndex, query, env, level, Some(parent), first);
      ChildrenSize(kids[1..], queryIndex, query, env, level, parent, first + 1);
    }
  }

  /** The children's records around the i-th child. */
  lemma ChildrenSplit(kids: seq<Node>, queryIndex: int, query: string, env: Env,
                      level: int, parent: Lineage, first: int, i: nat)
    requires i < |kids|
    ensures ExtractChildren(kids, queryIndex, query, env, level, parent, first) ==
      ExtractChildren(kids[..i], queryIndex, query, env, level, parent, first) +
      (ExtractFeatures(kids[i], queryIndex, query, env, level, Some(parent), first + i) +
       ExtractChildren(kids[i + 1..], queryIndex, query, env, level, parent, first + i + 1))
  {
    assert kids == kids[..i] + kids[i..];
    ChildrenAppend(kids[..i], kids[i..], queryIndex, query, env, level, parent, first);
    assert kids[i..][0] == kids[i] && kids[i..][1..] == kids[i + 1..];
  }

  lemma BlockAfterHead<T>(c: seq<T>, x: T, before: seq<T>, block: seq<T>, after: seq<T>)
    requires c == [x] + (before + (block + after)) && |block| >= 1
    ensures 1 + |before| + |block| <= |c|
    ensures c[1 + |before|..1 + |before| + |block|] == block
    ensures c[1 + |before|] == block[0]
  {
    assert c == ([x] + before) + block + after;
  }

  /** The i-th child (numbering from 1) of a node at `level` with lineage
      `(level, nodeNum)`: its subtree's records are one contiguous block,
      after the node's own record and the blocks of the earlier children,
      and are exactly the records the extractor gives that child at lineage
      `(level + 1, i)` under parent `(level, nodeNum)`. */
  lemma ChildSubtree(n: Node, queryIndex: int, query: string, env: Env,
                     level: int, parent: Option<Lineage>, nodeNum: int, i: nat)
    requires n.plans.Plans? && i < |n.plans.children|
    ensures var r := ExtractFeatures(n, queryIndex, query, env, level, parent, nodeNum);
      var kids := n.plans.children;
      var offset := 1 + |PreOrderAll(kids[..i])|;
      var size := |PreOrder(kids[i])|;
      && offset + size <= |r|
      && r[offset..offset + size] ==
           ExtractFeatures(kids[i], queryIndex, query, env, level + 1, Some(Lineage(level, nodeNum)), i + 1)
      && r[offset].levelNo == Lineage(level + 1, i + 1)
      && r[offset].parentLevel == Some(Lineage(level, nodeNum))
  {
    var kids := n.plans.children;
    var me := Lineage(level, nodeNum);
    var r := ExtractFeatures(n, queryIndex, query, env, level, parent, nodeNum);
    var before := ExtractChildren(kids[..i], queryIndex, query, env, level + 1, me, 1);
    var block := ExtractFeatures(kids[i], queryIndex, query, env, level + 1, Some(me), 1 + i);
    var after := ExtractChildren(kids[i + 1..], queryIndex, query, env, level + 1, me, 1 + i + 1);
    ChildrenSplit(kids, queryIndex, query, env, level + 1, me, 1, i);
    assert r == [NodeRecord(n, queryIndex, query, env, level, parent, nodeNum)] +
      ExtractChildren(kids, queryIndex, query, env, level + 1, me, 1);
    ChildrenSize(kids[..i], queryIndex, query, env, level + 1, me, 1);
    ExtractSize(kids[i], queryIndex, query, env, level + 1, Some(me), 1 + i);
    BlockAfterHead(r, NodeRecord(n, queryIndex, query, env, level, parent, nodeNum), before, block, after);
    assert 1 + |PreOrderAll(kids[..i])| == 1 + |before| && |PreOrder(kids[i])| == |block|;
    assert block == ExtractFeatures(kids[i], queryIndex, query, env, level + 1, Some(me), i + 1);
  }
}
