/** The deck as a tree of nodes that are told apart by identity: adding cards, deleting nodes. */
module DeckEdit {
  import opened DeckXml
  import opened DeckHash

  /** `id` stands for the node's identity; two nodes with the same contents are still two nodes. */
  datatype Node =
    | Inner(id: int, name: string, children: seq<Node>)
    | Leaf(id: int, name: string, number: int)

  /** One node of the tree as a listing in preorder shows it, with its parent. */
  datatype Row = Row(id: int, parent: int, name: string, number: int, inner: bool)

  // ------------------------------------------------------------------ listing a tree

  function NodesOf(n: Node): seq<Node>
    decreases n
  {
    [n] + if n.Inner? then Nodes(n.children) else []
  }

  function Nodes(ns: seq<Node>): seq<Node>
    decreases ns
  {
    if ns == [] then [] else NodesOf(ns[0]) + Nodes(ns[1..])
  }

  function RowOf(n: Node, parent: int): Row
  {
    if n.Inner? then Row(n.id, parent, n.name, 0, true) else Row(n.id, parent, n.name, n.number, false)
  }

  function RowsOf(n: Node, parent: int): seq<Row>
    decreases n
  {
    [RowOf(n, parent)] + if n.Inner? then Rows(n.children, n.id) else []
  }

  function Rows(ns: seq<Node>, parent: int): seq<Row>
    decreases ns
  {
    if ns == [] then [] else RowsOf(ns[0], parent) + Rows(ns[1..], parent)
  }

  function IdsOf(n: Node): set<int>
  {
    set x | x in NodesOf(n) :: x.id
  }

  function Ids(ns: seq<Node>): set<int>
  {
    set x | x in Nodes(ns) :: x.id
  }

  /** No two nodes of the tree have the same identity. */
  predicate Unique(ns: seq<Node>)
    decreases ns
  {
    ns == []
    || (UniqueNode(ns[0]) && Unique(ns[1..]) && IdsOf(ns[0]) !! Ids(ns[1..]))
  }

  predicate UniqueNode(n: Node)
    decreases n
  {
    n.Inner? ==> Unique(n.children) && n.id !in Ids(n.children)
  }

  function Plain(n: Node): Tree
    decreases n
  {
    match n
    case Inner(_, name, children) => Zone(name, PlainAll(children))
    case Leaf(_, name, number) => Card(name, number)
  }

  function PlainAll(ns: seq<Node>): (ts: seq<Tree>)
    ensures |ts| == |ns| && forall i :: 0 <= i < |ns| ==> ts[i] == Plain(ns[i])
    decreases ns
  {
    if ns == [] then [] else [Plain(ns[0])] + PlainAll(ns[1..])
  }

  /** recursiveCount: cards, or all their copies. */
  function Count(ns: seq<Node>, copies: bool): int
    decreases ns
  {
    if ns == [] then 0 else CountOf(ns[0], copies) + Count(ns[1..], copies)
  }

  function CountOf(n: Node, copies: bool): int
    decreases n
  {
    match n
    case Inner(_, _, children) => Count(children, copies)
    case Leaf(_, _, number) => if copies then number else 1
  }

  // ------------------------------------------------------------------ deleting

  function Position(ns: seq<Node>, target: int): (i: int)
    ensures -1 <= i < |ns|
    ensures i >= 0 ==> ns[i].id == target && forall j :: 0 <= j < i ==> ns[j].id != target
    ensures i == -1 <==> forall j :: 0 <= j < |ns| ==> ns[j].id != target
  {
    if ns == [] then -1
    else if ns[0].id == target then 0
    else var i := Position(ns[1..], target); if i == -1 then -1 else i + 1
  }

  /** deleteNode below one node: the children without the target, and whether it was there. */
  function Pruned(ns: seq<Node>, target: int): (bool, seq<Node>)
    decreases ns, 1
  {
    var i := Position(ns, target);
    if i != -1 then (true, ns[..i] + ns[i + 1..]) else PrunedInside(ns, target)
  }

  /** The target is sought in the inner children, one after the other; a child left empty goes too. */
  function PrunedInside(ns: seq<Node>, target: int): (bool, seq<Node>)
    decreases ns, 0
  {
    if ns == [] then (false, [])
    else if ns[0].Inner? && Pruned(ns[0].children, target).0 then
      (true, Shrunk(ns[0], Pruned(ns[0].children, target).1) + ns[1..])
    else
      var rest := PrunedInside(ns[1..], target);
      (rest.0, [ns[0]] + rest.1)
  }

  function Shrunk(n: Node, children: seq<Node>): seq<Node>
    requires n.Inner?
  {
    if children == [] then [] else [n.(children := children)]
  }

  // ------------------------------------------------------------------ what deleting should remove

  /** From n down to the target every node has no other child. */
  predicate OnlyChain(n: Node, target: int)
    decreases n
  {
    n.id == target || (n.Inner? && |n.children| == 1 && OnlyChain(n.children[0], target))
  }

  /** The target with all below it, and the ancestors that have nothing else below them. */
  function Gone(ns: seq<Node>, target: int): set<int>
  {
    (set x | x in Nodes(ns) && OnlyChain(x, target) :: x.id)
    + (set x, y | x in Nodes(ns) && x.id == target && y in NodesOf(x) :: y.id)
  }

  function Kept(rows: seq<Row>, gone: set<int>): seq<Row>
  {
    if rows == [] then []
    else (if rows[0].id in gone then [] else [rows[0]]) + Kept(rows[1..], gone)
  }

  lemma KeptCons(row: Row, rest: seq<Row>, gone: set<int>)
    ensures Kept([row] + rest, gone) == (if row.id in gone then [] else [row]) + Kept(rest, gone)
  {
    assert ([row] + rest)[1..] == rest;
  }

  lemma NothingKept(gone: set<int>)
    ensures Kept([], gone) == []
  {
  }

  lemma Assoc<T>(a: seq<T>, b: seq<T>, c: seq<T>)
    ensures a + (b + c) == (a + b) + c
  {
  }

  lemma {:induction false} KeptParts(a: seq<Row>, b: seq<Row>, gone: set<int>)
    ensures Kept(a + b, gone) == Kept(a, gone) + Kept(b, gone)
  {
    NothingKept(gone);
    hide Kept;
    if a == [] {
      assert a + b == b;
    } else {
      KeptParts(a[1..], b, gone);
      assert (a + b)[0] == a[0] && (a + b)[1..] == a[1..] + b;
      KeptCons(a[0], a[1..] + b, gone);
      KeptCons(a[0], a[1..], gone);
      assert [a[0]] + (a[1..] + b) == a + b && [a[0]] + a[1..] == a;
      Assoc(if a[0].id in gone then [] else [a[0]], Kept(a[1..], gone), Kept(b, gone));
    }
  }

  lemma {:induction false} KeptNone(rows: seq<Row>, gone: set<int>)
    requires forall r :: r in rows ==> r.id in gone
    ensures Kept(rows, gone) == []
  {
    if rows != [] {
      KeptNone(rows[1..], gone);
    }
  }

  lemma {:induction false} KeptSame(rows: seq<Row>, gone: set<int>, other: set<int>)
    requires forall r :: r in rows ==> (r.id in gone <==> r.id in other)
    ensures Kept(rows, gone) == Kept(rows, other)
  {
    if rows != [] {
      KeptSame(rows[1..], gone, other);
    }
  }

  lemma {:induction false} KeptAll(rows: seq<Row>, gone: set<int>)
    requires forall r :: r in rows ==> r.id !in gone
    ensures Kept(rows, gone) == rows
  {
    if rows != [] {
      KeptAll(rows[1..], gone);
    }
  }

  lemma {:induction false} RowIds(ns: seq<Node>, parent: int)
    ensures forall r :: r in Rows(ns, parent) ==> r.id in Ids(ns)
    decreases ns
  {
    if ns != [] {
      RowIdsOf(ns[0], parent);
      RowIds(ns[1..], parent);
      IdsHead(ns);
    }
  }

  lemma {:induction false} RowIdsOf(n: Node, parent: int)
    ensures forall r :: r in RowsOf(n, parent) ==> r.id in IdsOf(n)
    decreases n
  {
    assert n in NodesOf(n);
    if n.Inner? {
      RowIds(n.children, n.id);
      IdsBelow(n);
    }
  }

  lemma IdsHead(ns: seq<Node>)
    requires ns != []
    ensures Ids(ns) == IdsOf(ns[0]) + Ids(ns[1..])
  {
    assert forall x :: x in Nodes(ns) <==> x in NodesOf(ns[0]) || x in Nodes(ns[1..]);
  }

  lemma IdsBelow(n: Node)
    requires n.Inner?
    ensures IdsOf(n) == {n.id} + Ids(n.children)
  {
    assert forall x :: x in NodesOf(n) <==> x == n || x in Nodes(n.children);
  }

  lemma LeafIds(n: Node)
    ensures n.Leaf? ==> IdsOf(n) == {n.id}
  {
    if n.Leaf? {
      assert NodesOf(n) == [n];
    }
  }

  lemma {:induction false} NodesParts(a: seq<Node>, b: seq<Node>)
    ensures Nodes(a + b) == Nodes(a) + Nodes(b)
    ensures Ids(a + b) == Ids(a) + Ids(b)
  {
    hide NodesOf;
    if a == [] {
      assert a + b == b;
    } else {
      NodesParts(a[1..], b);
      assert (a + b)[0] == a[0] && (a + b)[1..] == a[1..] + b;
      Assoc(NodesOf(a[0]), Nodes(a[1..]), Nodes(b));
    }
    assert forall x :: x in Nodes(a + b) <==> x in Nodes(a) || x in Nodes(b);
  }

  lemma {:induction false} RowsParts(a: seq<Node>, b: seq<Node>, parent: int)
    ensures Rows(a + b, parent) == Rows(a, parent) + Rows(b, parent)
  {
    hide RowsOf;
    if a == [] {
      assert a + b == b;
    } else {
      RowsParts(a[1..], b, parent);
      assert (a + b)[0] == a[0] && (a + b)[1..] == a[1..] + b;
      Assoc(RowsOf(a[0], parent), Rows(a[1..], parent), Rows(b, parent));
    }
  }

  lemma {:induction false} UniqueParts(a: seq<Node>, b: seq<Node>)
    requires Unique(a + b)
    ensures Unique(a) && Unique(b) && Ids(a) !! Ids(b)
  {
    if a == [] {
      assert a + b == b;
    } else {
      assert (a + b)[1..] == a[1..] + b;
      UniqueParts(a[1..], b);
      NodesParts(a[1..], b);
      IdsHead(a);
    }
  }

  // ------------------------------------------------------------------ the gone nodes, part by part

  lemma {:induction false} ChainHasTarget(n: Node, target: int)
    requires OnlyChain(n, target)
    ensures target in IdsOf(n)
    decreases n
  {
    assert n in NodesOf(n);
    if n.id != target {
      ChainHasTarget(n.children[0], target);
      IdsHead(n.children);
      IdsBelow(n);
    }
  }

  lemma {:induction false} BelowIsBelow(ns: seq<Node>, x: Node, y: Node)
    requires x in Nodes(ns) && y in NodesOf(x)
    ensures y in Nodes(ns)
    decreases ns
  {
    if x in NodesOf(ns[0]) {
      if x != ns[0] {
        BelowIsBelow(ns[0].children, x, y);
      }
    } else {
      BelowIsBelow(ns[1..], x, y);
    }
  }

  lemma GoneWithin(ns: seq<Node>, target: int)
    ensures Gone(ns, target) <= Ids(ns)
    ensures target !in Ids(ns) ==> Gone(ns, target) == {}
  {
    forall x, y | x in Nodes(ns) && y in NodesOf(x)
      ensures y.id in Ids(ns)
    {
      BelowIsBelow(ns, x, y);
    }
    forall x | x in Nodes(ns) && OnlyChain(x, target)
      ensures target in Ids(ns)
    {
      ChainHasTarget(x, target);
      var y :| y in NodesOf(x) && y.id == target;
      BelowIsBelow(ns, x, y);
    }
  }

  lemma GoneParts(a: seq<Node>, b: seq<Node>, target: int)
    ensures Gone(a + b, target) == Gone(a, target) + Gone(b, target)
  {
    NodesParts(a, b);
    assert forall x :: x in Nodes(a + b) <==> x in Nodes(a) || x in Nodes(b);
  }

  lemma OneNode(n: Node)
    ensures Nodes([n]) == NodesOf(n) && forall parent :: Rows([n], parent) == RowsOf(n, parent)
    ensures Ids([n]) == IdsOf(n)
  {
    assert [n][1..] == [];
    assert NodesOf(n) + [] == NodesOf(n);
    assert forall parent :: RowsOf(n, parent) + [] == RowsOf(n, parent);
  }

  /** The target itself goes with everything below it. */
  lemma GoneTarget(n: Node, target: int)
    requires n.id == target
    ensures IdsOf(n) <= Gone([n], target)
  {
    OneNode(n);
    assert n in NodesOf(n);
  }

  /** Above the target a node goes exactly when it is left empty. */
  lemma GoneAbove(n: Node, target: int)
    requires n.Inner? && n.id != target && n.id !in Ids(n.children)
    ensures Gone([n], target) == Gone(n.children, target) + if OnlyChain(n, target) then {n.id} else {}
  {
    OneNode(n);
    assert forall x :: x in NodesOf(n) <==> x == n || x in Nodes(n.children);
  }

  // ------------------------------------------------------------------ deleting finds and removes just that

  lemma {:induction false} PrunedFinds(ns: seq<Node>, target: int)
    ensures Pruned(ns, target).0 <==> target in Ids(ns)
    ensures !Pruned(ns, target).0 ==> Pruned(ns, target).1 == ns
    decreases ns, 1
  {
    var i := Position(ns, target);
    if i != -1 {
      assert ns == ns[..i] + ([ns[i]] + ns[i + 1..]);
      NodesParts(ns[..i], [ns[i]] + ns[i + 1..]);
      IdsHead([ns[i]] + ns[i + 1..]);
      assert ns[i] in NodesOf(ns[i]);
    } else {
      PrunedInsideFinds(ns, target);
    }
  }

  lemma {:induction false} PrunedInsideFinds(ns: seq<Node>, target: int)
    requires Position(ns, target) == -1
    ensures PrunedInside(ns, target).0 <==> target in Ids(ns)
    ensures !PrunedInside(ns, target).0 ==> PrunedInside(ns, target).1 == ns
    decreases ns, 0
  {
    if ns != [] {
      IdsHead(ns);
      assert ns == [ns[0]] + ns[1..];
      if ns[0].Inner? {
        PrunedFinds(ns[0].children, target);
        IdsBelow(ns[0]);
      } else {
        assert NodesOf(ns[0]) == [ns[0]];
      }
      PrunedInsideFinds(ns[1..], target);
    }
  }

  lemma {:induction false} PrunedEmptyIff(ns: seq<Node>, target: int)
    requires target in Ids(ns)
    ensures Pruned(ns, target).1 == [] <==> |ns| == 1 && OnlyChain(ns[0], target)
    decreases ns
  {
    var i := Position(ns, target);
    if i != -1 {
      if |ns| == 1 {
        assert i == 0;
      }
    } else {
      PrunedFinds(ns, target);
      if |ns| == 1 {
        assert ns[1..] == [];
        IdsHead(ns);
        LeafIds(ns[0]);
        if ns[0].Inner? {
          IdsBelow(ns[0]);
          PrunedEmptyIff(ns[0].children, target);
        }
      } else {
        InsideKeepsOthers(ns, target);
      }
    }
  }

  lemma {:induction false} InsideKeepsOthers(ns: seq<Node>, target: int)
    requires ns != []
    ensures |PrunedInside(ns, target).1| >= |ns| - 1
  {
    if |ns| > 1 {
      InsideKeepsOthers(ns[1..], target);
    }
  }

  /**
   deleteNode: of the tree's rows, in their order and with their parents, exactly those are left that
   are neither the target nor below it nor above it with nothing else below them.
   */
  lemma {:induction false} PrunedKeepsTheRest(ns: seq<Node>, target: int, parent: int)
    requires Unique(ns) && target in Ids(ns)
    ensures Rows(Pruned(ns, target).1, parent) == Kept(Rows(ns, parent), Gone(ns, target))
    decreases ns, 1
  {
    hide Kept; hide Gone;
    var i := Position(ns, target);
    if i != -1 {
      TakenOut(ns, i, parent);
    } else {
      InsideKeepsTheRest(ns, target, parent);
    }
  }

  lemma TakenOut(ns: seq<Node>, i: nat, parent: int)
    requires Unique(ns) && i < |ns|
    ensures Rows(ns[..i] + ns[i + 1..], parent) == Kept(Rows(ns, parent), Gone(ns, ns[i].id))
  {
    hide Kept; hide Gone; hide Unique; hide Rows; hide Ids; hide IdsOf; hide Nodes; hide NodesOf;
    var a, n, b, gone := ns[..i], ns[i], ns[i + 1..], Gone(ns, ns[i].id);
    assert ns == a + ([n] + b);
    RowsParts(a, [n] + b, parent);
    RowsParts([n], b, parent);
    RowsParts(a, b, parent);
    KeptParts(Rows(a, parent), Rows([n], parent) + Rows(b, parent), gone);
    KeptParts(Rows([n], parent), Rows(b, parent), gone);
    RowIds(a, parent);
    RowIds([n], parent);
    RowIds(b, parent);
    OnlyTargetGoes(ns, a, n, b);
    KeptAll(Rows(a, parent), gone);
    KeptNone(Rows([n], parent), gone);
    KeptAll(Rows(b, parent), gone);
  }

  lemma OnlyTargetGoes(ns: seq<Node>, a: seq<Node>, n: Node, b: seq<Node>)
    requires Unique(ns) && ns == a + ([n] + b)
    ensures Gone(ns, n.id) == Ids([n]) && Ids([n]) !! Ids(a) && Ids([n]) !! Ids(b)
  {
    hide Gone; hide Unique;
    OneNode(n);
    UniqueParts(a, [n] + b);
    UniqueParts([n], b);
    NodesParts([n], b);
    GoneParts(a, [n] + b, n.id);
    GoneParts([n], b, n.id);
    assert n in NodesOf(n) && n.id in IdsOf(n);
    GoneWithin(a, n.id);
    GoneWithin([n], n.id);
    GoneWithin(b, n.id);
    GoneTarget(n, n.id);
  }

  lemma {:induction false} InsideKeepsTheRest(ns: seq<Node>, target: int, parent: int)
    requires Unique(ns) && target in Ids(ns) && Position(ns, target) == -1
    ensures Rows(PrunedInside(ns, target).1, parent) == Kept(Rows(ns, parent), Gone(ns, target))
    decreases ns, 0
  {
    hide Kept; hide Gone;
    var n, rest := ns[0], ns[1..];
    assert ns == [n] + rest;
    IdsHead(ns);
    OneNode(n);
    RowsParts([n], rest, parent);
    GoneParts([n], rest, target);
    GoneWithin(rest, target);
    GoneWithin([n], target);
    RowIds([n], parent);
    RowIds(rest, parent);
    var gone := Gone(ns, target);
    KeptParts(Rows([n], parent), Rows(rest, parent), gone);
    LeafIds(n);
    if target in IdsOf(n) {
      IdsBelow(n);
      PrunedFinds(n.children, target);
      PrunedKeepsTheRest(n.children, target, n.id);
      ShrunkKeepsTheRest(n, target, parent);
      KeptSame(Rows([n], parent), gone, Gone([n], target));
      KeptAll(Rows(rest, parent), gone);
      RowsParts(Shrunk(n, Pruned(n.children, target).1), rest, parent);
    } else {
      if n.Inner? {
        IdsBelow(n);
        PrunedFinds(n.children, target);
      }
      KeptAll(Rows([n], parent), gone);
      InsideKeepsTheRest(rest, target, parent);
      KeptSame(Rows(rest, parent), gone, Gone(rest, target));
      RowsParts([n], PrunedInside(rest, target).1, parent);
    }
  }

  lemma ShrunkKeepsTheRest(n: Node, target: int, parent: int)
    requires n.Inner? && n.id != target && UniqueNode(n) && target in Ids(n.children)
    requires Rows(Pruned(n.children, target).1, n.id) == Kept(Rows(n.children, n.id), Gone(n.children, target))
    ensures Rows(Shrunk(n, Pruned(n.children, target).1), parent) == Kept(Rows([n], parent), Gone([n], target))
  {
    hide Gone; hide Pruned; hide Unique;
    var below := Rows(n.children, n.id);
    var left := Pruned(n.children, target).1;
    OneNode(n);
    GoneAbove(n, target);
    GoneWithin(n.children, target);
    PrunedEmptyIff(n.children, target);
    RowIds(n.children, n.id);
    KeptSame(below, Gone([n], target), Gone(n.children, target));
    var row := RowOf(n, parent);
    assert Rows([n], parent) == [row] + below;
    assert ([row] + below)[1..] == below;
    assert row.id == n.id;
    if left != [] {
      OneNode(n.(children := left));
    }
  }

  lemma {:induction false} CountParts(a: seq<Node>, b: seq<Node>, copies: bool)
    ensures Count(a + b, copies) == Count(a, copies) + Count(b, copies)
  {
    if a == [] {
      assert a + b == b;
    } else {
      CountParts(a[1..], b, copies);
      assert (a + b)[1..] == a[1..] + b;
    }
  }

  lemma {:induction false} SameIdSameNode(ns: seq<Node>, x: Node, y: Node)
    requires Unique(ns) && x in Nodes(ns) && y in Nodes(ns) && x.id == y.id
    ensures x == y
    decreases ns
  {
    var n := ns[0];
    IdsHead(ns);
    assert forall z :: z in Nodes(ns) <==> z in NodesOf(n) || z in Nodes(ns[1..]);
    assert forall z :: z in NodesOf(n) ==> z.id in IdsOf(n);
    assert forall z :: z in Nodes(ns[1..]) ==> z.id in Ids(ns[1..]);
    if x in NodesOf(n) {
      assert forall z :: z in NodesOf(n) <==> z == n || (n.Inner? && z in Nodes(n.children));
      if x != n && y != n {
        SameIdSameNode(n.children, x, y);
      }
    } else {
      SameIdSameNode(ns[1..], x, y);
    }
  }

  /** The counts fall by exactly what the deleted node counted. */
  lemma {:induction false} PrunedCount(ns: seq<Node>, node: Node, copies: bool)
    requires Unique(ns) && node in Nodes(ns)
    ensures Count(Pruned(ns, node.id).1, copies) == Count(ns, copies) - CountOf(node, copies)
    decreases ns, 1
  {
    hide PrunedInside; hide CountOf;
    var i := Position(ns, node.id);
    if i != -1 {
      var a, b := ns[..i], ns[i + 1..];
      assert ns == a + ([ns[i]] + b);
      NodesParts(a, [ns[i]] + b);
      assert ns[i] in Nodes([ns[i]] + b);
      SameIdSameNode(ns, node, ns[i]);
      CountParts(a, [ns[i]] + b, copies);
      CountParts(a, b, copies);
    } else {
      InsideCount(ns, node, copies);
    }
  }

  lemma {:induction false} InsideCount(ns: seq<Node>, node: Node, copies: bool)
    requires Unique(ns) && node in Nodes(ns) && Position(ns, node.id) == -1
    ensures Count(PrunedInside(ns, node.id).1, copies) == Count(ns, copies) - CountOf(node, copies)
    decreases ns, 0
  {
    var n, rest, target := ns[0], ns[1..], node.id;
    IdsHead(ns);
    assert n.id != target;
    if node in NodesOf(n) {
      assert n.Inner? && node in Nodes(n.children);
      PrunedFinds(n.children, target);
      PrunedCount(n.children, node, copies);
      var left := Pruned(n.children, target).1;
      CountParts(Shrunk(n, left), rest, copies);
      if left != [] {
        assert [n.(children := left)][1..] == [];
      }
    } else {
      assert node in Nodes(rest) && target in Ids(rest);
      if n.Inner? {
        IdsBelow(n);
        PrunedFinds(n.children, target);
      }
      InsideCount(rest, node, copies);
    }
  }

  // ------------------------------------------------------------------ a pruned tree is still one

  lemma TakenOutUnique(ns: seq<Node>, i: nat)
    requires Unique(ns) && i < |ns|
    ensures Unique(ns[..i] + ns[i + 1..]) && Ids(ns[..i] + ns[i + 1..]) <= Ids(ns)
  {
    hide NodesOf; hide IdsOf; hide Ids; hide Nodes; hide UniqueNode; hide Unique;
    var a, b := ns[..i], ns[i + 1..];
    assert ns == a + ([ns[i]] + b);
    UniqueParts(a, [ns[i]] + b);
    UniqueParts([ns[i]], b);
    NodesParts(a, [ns[i]] + b);
    NodesParts([ns[i]], b);
    NodesParts(a, b);
    UniqueTogether(a, b);
  }

  lemma {:induction false} PrunedUnique(ns: seq<Node>, target: int)
    requires Unique(ns)
    ensures Unique(Pruned(ns, target).1) && Ids(Pruned(ns, target).1) <= Ids(ns)
    decreases ns, 1
  {
    hide NodesOf; hide IdsOf; hide Ids; hide Nodes; hide PrunedInside; hide UniqueNode; hide Unique;
    var i := Position(ns, target);
    if i != -1 {
      TakenOutUnique(ns, i);
    } else {
      InsideUnique(ns, target);
    }
  }

  lemma {:induction false} InsideUnique(ns: seq<Node>, target: int)
    requires Unique(ns)
    ensures Unique(PrunedInside(ns, target).1) && Ids(PrunedInside(ns, target).1) <= Ids(ns)
    decreases ns, 0
  {
    hide NodesOf; hide IdsOf; hide Ids; hide Nodes;
    if ns != [] {
      IdsHead(ns);
      if ns[0].Inner? && Pruned(ns[0].children, target).0 {
        PrunedUnique(ns[0].children, target);
        var left := Pruned(ns[0].children, target).1;
        assert [] + ns[1..] == ns[1..];
        if left != [] {
          var n := ns[0].(children := left);
          IdsBelow(ns[0]);
          IdsBelow(n);
          ConsUnique(n, ns[1..]);
        }
      } else {
        InsideUnique(ns[1..], target);
        ConsUnique(ns[0], PrunedInside(ns[1..], target).1);
      }
    }
  }

  lemma ConsUnique(n: Node, rest: seq<Node>)
    requires UniqueNode(n) && Unique(rest) && IdsOf(n) !! Ids(rest)
    ensures Unique([n] + rest) && Ids([n] + rest) == IdsOf(n) + Ids(rest)
  {
    assert ([n] + rest)[1..] == rest;
    IdsHead([n] + rest);
  }

  lemma {:induction false} UniqueTogether(a: seq<Node>, b: seq<Node>)
    requires Unique(a) && Unique(b) && Ids(a) !! Ids(b)
    ensures Unique(a + b)
  {
    if a == [] {
      assert a + b == b;
    } else {
      IdsHead(a);
      NodesParts(a[1..], b);
      UniqueTogether(a[1..], b);
      assert (a + b)[0] == a[0] && (a + b)[1..] == a[1..] + b;
    }
  }

  // ------------------------------------------------------------------ adding

  /** The first top-level zone of a name gets more children; without one the zone is new, as node `id`. */
  function ContinuedNodes(ns: seq<Node>, name: string, children: seq<Node>, id: int): seq<Node>
    requires forall n :: n in ns ==> n.Inner?
  {
    if ns == [] then [Inner(id, name, children)]
    else if ns[0].name == name then [ns[0].(children := ns[0].children + children)] + ns[1..]
    else [ns[0]] + ContinuedNodes(ns[1..], name, children, id)
  }

  /** addCard: one copy at the end of the zone; the card's node is numbered after the zone's. */
  function CardAdded(ns: seq<Node>, cardName: string, zoneName: string, id: int): seq<Node>
    requires forall n :: n in ns ==> n.Inner?
  {
    ContinuedNodes(ns, zoneName, [Leaf(id + 1, cardName, 1)], id)
  }

  /** Is there a zone of that name, and does the first such stand empty? */
  predicate StandsEmpty(ns: seq<Node>, name: string)
    requires forall n :: n in ns ==> n.Inner?
  {
    ns != [] && if ns[0].name == name then ns[0].children == [] else StandsEmpty(ns[1..], name)
  }

  /** Deleting the card just added gives the old tree back, unless it went into a zone that stood empty: that zone goes too. */
  lemma DeleteUndoesAddIff(ns: seq<Node>, cardName: string, zoneName: string, id: int)
    requires (forall n :: n in ns ==> n.Inner?) && id !in Ids(ns) && id + 1 !in Ids(ns)
    ensures Pruned(CardAdded(ns, cardName, zoneName, id), id + 1).0
    ensures Pruned(CardAdded(ns, cardName, zoneName, id), id + 1).1 == ns <==> !StandsEmpty(ns, zoneName)
  {
    InsideUndoesAdd(ns, cardName, zoneName, id);
  }

  lemma NewZoneUndone(leaf: Node, zone: Node)
    requires leaf.Leaf? && zone.Inner? && zone.children == [leaf] && zone.id != leaf.id
    ensures Position([zone], leaf.id) == -1 && PrunedInside([zone], leaf.id) == (true, [])
  {
    assert Position([leaf], leaf.id) == 0 && [leaf][..0] + [leaf][1..] == [];
    assert Pruned([leaf], leaf.id) == (true, []);
    assert [zone][1..] == [];
  }

  lemma OldZoneUndone(ns: seq<Node>, leaf: Node)
    requires ns != [] && ns[0].Inner? && leaf.id !in Ids(ns)
    ensures var t := [ns[0].(children := ns[0].children + [leaf])] + ns[1..];
            && Position(t, leaf.id) == -1
            && PrunedInside(t, leaf.id) == (true, Shrunk(ns[0], ns[0].children) + ns[1..])
  {
    IdsHead(ns);
    IdsBelow(ns[0]);
    LastTakenOut(ns[0].children, leaf);
    NoneAtTop(ns[1..], leaf.id);
    var t := [ns[0].(children := ns[0].children + [leaf])] + ns[1..];
    assert t[1..] == ns[1..];
  }

  lemma {:induction false} InsideUndoesAdd(ns: seq<Node>, cardName: string, zoneName: string, id: int)
    requires (forall n :: n in ns ==> n.Inner?) && id !in Ids(ns) && id + 1 !in Ids(ns)
    ensures var t := CardAdded(ns, cardName, zoneName, id);
            && Position(t, id + 1) == -1
            && PrunedInside(t, id + 1).0 && (PrunedInside(t, id + 1).1 == ns <==> !StandsEmpty(ns, zoneName))
  {
    hide Nodes; hide NodesOf; hide Pruned; hide Ids; hide IdsOf;
    var leaf := Leaf(id + 1, cardName, 1);
    if ns == [] {
      NewZoneUndone(leaf, Inner(id, zoneName, [leaf]));
    } else {
      assert [ns[0]] + ns[1..] == ns;
      if ns[0].name == zoneName {
        OldZoneUndone(ns, leaf);
      } else {
        IdsHead(ns);
        IdsBelow(ns[0]);
        PrunedFinds(ns[0].children, id + 1);
        InsideUndoesAdd(ns[1..], cardName, zoneName, id);
        assert CardAdded(ns, cardName, zoneName, id)[1..] == CardAdded(ns[1..], cardName, zoneName, id);
      }
    }
  }

  lemma NoneAtTop(ns: seq<Node>, target: int)
    requires target !in Ids(ns)
    ensures Position(ns, target) == -1
  {
    PrunedFinds(ns, target);
  }

  lemma LastTakenOut(ns: seq<Node>, leaf: Node)
    requires leaf.id !in Ids(ns)
    ensures Pruned(ns + [leaf], leaf.id) == (true, ns)
  {
    NoneAtTop(ns, leaf.id);
    var t := ns + [leaf];
    var i := Position(t, leaf.id);
    assert t[|ns|].id == leaf.id;
    assert forall j :: 0 <= j < |ns| ==> t[j] == ns[j];
    assert i == |ns|;
    assert t[..i] + t[i + 1..] == ns;
  }

  // ------------------------------------------------------------------ adding and the hash

  /** One card more in a zone adds exactly its one entry to the hashed copies. */
  lemma {:induction false} OneCopyMore(zones: seq<Tree>, cardName: string, zoneName: string, lower: string -> string)
    requires Hashable(zones)
    ensures Hashable(Continued(zones, zoneName, [Card(cardName, 1)]))
    ensures multiset(CardList(Continued(zones, zoneName, [Card(cardName, 1)]), lower))
         == multiset(CardList(zones, lower)) + if Hashed(zoneName) then multiset{Entry(zoneName, cardName, lower)} else multiset{}
  {
    hide CardList; hide RowEntries; hide Entry;
    var card := [Card(cardName, 1)];
    OneRow(zoneName, card[0], lower);
    OneCopy(Entry(zoneName, cardName, lower));
    if zones == [] {
      var z := Zone(zoneName, card);
      assert Hashable([z]);
      OneZone(z, lower);
      CardListNone(lower);
    } else {
      var rest := zones[1..];
      assert zones == [zones[0]] + rest;
      HashableParts([zones[0]], rest);
      assert zones[0] in [zones[0]];
      CardListParts([zones[0]], rest, lower);
      if zones[0].name == zoneName {
        var z := Zone(zoneName, zones[0].children + card);
        assert Hashable([z]) by {
          assert forall t :: t in z.children <==> t in zones[0].children || t == card[0];
        }
        OneZone(z, lower);
        OneZone(zones[0], lower);
        if Hashed(zoneName) {
          RowEntriesParts(zoneName, zones[0].children, card, lower);
        }
        CardListParts([z], rest, lower);
      } else {
        OneCopyMore(rest, cardName, zoneName, lower);
        CardListParts([zones[0]], Continued(rest, zoneName, card), lower);
      }
    }
  }

  lemma CardListNone(lower: string -> string)
    ensures Hashable([]) && CardList([], lower) == []
  {
  }

  lemma OneCopy(entry: string)
    ensures Copies(entry, 1) == [entry]
  {
    assert Copies(entry, 0) == [];
  }
}
