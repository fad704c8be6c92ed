/** The tree filters that change node objects in place, proved against the filters on values. */
module TreesInPlace {
  import opened Common
  import opened TreeFilters

  /** A node object: its own fields, and a `children` field that may be absent. */
  class TreeNode<T> {
    const data: T
    var children: Option<seq<TreeNode<T>>>

    constructor (data: T, children: Option<seq<TreeNode<T>>>)
      ensures this.data == data && this.children == children
    {
      this.data, this.children := data, children;
    }
  }

  /** Which object stands where in a tree of objects. */
  datatype Shape<T> = Shape(node: TreeNode<T>, kids: seq<Shape<T>>)

  ghost function Refs<T>(ss: seq<Shape<T>>): (r: seq<TreeNode<T>>)
    ensures |r| == |ss| && forall i :: 0 <= i < |ss| ==> r[i] == ss[i].node
  {
    if ss == [] then [] else [ss[0].node] + Refs(ss[1..])
  }

  ghost function Nodes<T>(ss: seq<Shape<T>>): set<TreeNode<T>> {
    if ss == [] then {} else {ss[0].node} + Nodes(ss[0].kids) + Nodes(ss[1..])
  }

  /** No object stands in two places. */
  ghost predicate Apart<T>(ss: seq<Shape<T>>) {
    ss != [] ==>
      && ss[0].node !in Nodes(ss[0].kids)
      && {ss[0].node} + Nodes(ss[0].kids) !! Nodes(ss[1..])
      && Apart(ss[0].kids) && Apart(ss[1..])
  }

  /** The objects' `children` fields are as the shape says. */
  ghost predicate Shaped<T>(ss: seq<Shape<T>>)
    reads Nodes(ss)
  {
    ss != [] ==>
      && (match ss[0].node.children case None => ss[0].kids == [] case Some(kids) => kids == Refs(ss[0].kids))
      && Shaped(ss[0].kids) && Shaped(ss[1..])
  }

  /** The tree of values the objects stand for. */
  ghost function Values<T>(ss: seq<Shape<T>>): (vs: seq<Node<T>>)
    reads Nodes(ss)
    ensures |vs| == |ss|
  {
    if ss == [] then [] else
      [if ss[0].node.children.None? then Leaf(ss[0].node.data) else Branch(ss[0].node.data, Values(ss[0].kids))]
        + Values(ss[1..])
  }

  // ------------------------------------------------------------ forests split where the loop stands

  lemma {:induction false} SplitNodes<T>(ss: seq<Shape<T>>, i: nat)
    requires i <= |ss|
    ensures Nodes(ss) == Nodes(ss[..i]) + Nodes(ss[i..])
    decreases i
  {
    if i == 0 {
      assert ss[..0] == [] && ss[0..] == ss;
    } else {
      SplitNodes(ss[1..], i - 1);
      assert ss[1..][..i - 1] == ss[..i][1..] && ss[1..][i - 1..] == ss[i..];
    }
  }

  lemma {:induction false} SplitValues<T>(ss: seq<Shape<T>>, i: nat)
    requires i <= |ss|
    ensures Values(ss) == Values(ss[..i]) + Values(ss[i..])
    decreases i
  {
    if i == 0 {
      assert ss[..0] == [] && ss[0..] == ss;
    } else {
      SplitValues(ss[1..], i - 1);
      assert ss[1..][..i - 1] == ss[..i][1..] && ss[1..][i - 1..] == ss[i..];
    }
  }

  lemma {:induction false} SplitShaped<T>(ss: seq<Shape<T>>, i: nat)
    requires i <= |ss|
    ensures Shaped(ss) <==> Shaped(ss[..i]) && Shaped(ss[i..])
    decreases i
  {
    hide Nodes;
    if i == 0 {
      assert ss[..0] == [] && ss[0..] == ss;
    } else {
      SplitShaped(ss[1..], i - 1);
      assert ss[1..][..i - 1] == ss[..i][1..] && ss[1..][i - 1..] == ss[i..];
    }
  }

  lemma SplitAt<T>(ss: seq<Shape<T>>, i: nat)
    requires i <= |ss|
    ensures Nodes(ss) == Nodes(ss[..i]) + Nodes(ss[i..])
    ensures Values(ss) == Values(ss[..i]) + Values(ss[i..])
    ensures Shaped(ss) <==> Shaped(ss[..i]) && Shaped(ss[i..])
  {
    hide *;
    SplitNodes(ss, i);
    SplitValues(ss, i);
    SplitShaped(ss, i);
  }

  lemma {:induction false} SplitApart<T>(ss: seq<Shape<T>>, i: nat)
    requires i <= |ss|
    ensures Apart(ss) <==> Apart(ss[..i]) && Apart(ss[i..]) && Nodes(ss[..i]) !! Nodes(ss[i..])
    decreases i
  {
    if i == 0 {
      assert ss[..0] == [] && ss[0..] == ss;
    } else {
      var front := ss[..i];
      SplitApart(ss[1..], i - 1);
      SplitNodes(ss[1..], i - 1);
      assert ss[1..][..i - 1] == front[1..] && ss[1..][i - 1..] == ss[i..];
    }
  }

  /** The forest before, at and after position `i`. */
  lemma Around<T>(ss: seq<Shape<T>>, i: nat)
    requires i < |ss|
    ensures ss[i..][0] == ss[i] && ss[i..][1..] == ss[i + 1..]
    ensures ss[..i + 1][..i] == ss[..i] && ss[..i + 1][i..] == [ss[i]]
    ensures Nodes([ss[i]]) == {ss[i].node} + Nodes(ss[i].kids)
  {
    assert [ss[i]][1..] == [];
  }

  lemma {:induction false} NodesExist<T>(ss: seq<Shape<T>>)
    ensures forall n :: n in Nodes(ss) ==> allocated(n)
  {
    if ss != [] {
      NodesExist(ss[0].kids);
      NodesExist(ss[1..]);
    }
  }

  lemma NodesBelow<T>(ss: seq<Shape<T>>)
    requires ss != []
    ensures ss[0].node in Nodes(ss) && Nodes(ss[0].kids) <= Nodes(ss) && Nodes(ss[1..]) <= Nodes(ss)
  {
  }

  /** A forest none of whose objects changed stands for the same values. */
  twostate lemma {:induction false} Untouched<T>(ss: seq<Shape<T>>)
    requires forall n :: n in Nodes(ss) ==> old(allocated(n)) && n.children == old(n.children)
    ensures Shaped(ss) == old(Shaped(ss)) && Values(ss) == old(Values(ss))
  {
    if ss != [] {
      NodesBelow(ss);
      Untouched(ss[0].kids);
      Untouched(ss[1..]);
    }
  }

  ghost function Count<T>(ss: seq<Shape<T>>): nat {
    if ss == [] then 0 else 1 + Count(ss[0].kids) + Count(ss[1..])
  }

  lemma {:induction false} CountAt<T>(ss: seq<Shape<T>>, i: nat)
    requires i < |ss|
    ensures Count([ss[i]]) <= Count(ss)
    ensures Count(ss[i].kids) < Count([ss[i]])
  {
    assert [ss[i]][1..] == [];
    if i > 0 { CountAt(ss[1..], i - 1); }
  }

  // ------------------------------------------------------------ deleteEmptyChildren

  lemma {:induction false} DeleteEmptyAppend<T>(a: seq<Node<T>>, b: seq<Node<T>>)
    ensures DeleteEmptyChildren(a + b) == DeleteEmptyChildren(a) + DeleteEmptyChildren(b)
  {
    if a == [] {
      assert a + b == b;
    } else {
      assert (a + b)[1..] == a[1..] + b;
      DeleteEmptyAppend(a[1..], b);
    }
  }

  /** The body of the loop: an empty list goes, another one is cleaned. */
  method CleanNode<T>(node: TreeNode<T>, ghost s: Shape<T>)
    requires node == s.node && Apart([s]) && Shaped([s])
    modifies Nodes([s])
    ensures Shaped([s]) && Values([s]) == DeleteEmptyChildren(old(Values([s])))
    decreases Count([s]), 0
  {
    assert [s][1..] == [];
    CountAt([s], 0);
    match node.children
    case None =>
    case Some(kids) =>
      if |kids| == 0 {
        node.children := None;
      } else {
        DeleteEmptyChildrenIn(kids, s.kids);
      }
  }

  /** `deleteEmptyChildren`: afterwards the objects stand for the cleaned tree. */
  method DeleteEmptyChildrenIn<T>(arr: seq<TreeNode<T>>, ghost ss: seq<Shape<T>>)
    requires arr == Refs(ss) && Apart(ss) && Shaped(ss)
    modifies Nodes(ss)
    ensures Shaped(ss) && Values(ss) == DeleteEmptyChildren(old(Values(ss)))
    decreases Count(ss), 1
  {
    hide Shaped, Values, DeleteEmptyChildren, Apart, Refs, Nodes, Count;
    ghost var was := Values(ss);
    var i := 0;
    NothingCleaned(ss, was);
    while i < |arr|
      invariant 0 <= i <= |arr|
      invariant Shaped(ss[..i]) && Values(ss[..i]) == DeleteEmptyChildren(was[..i])
      invariant Shaped(ss[i..]) && Values(ss[i..]) == was[i..]
    {
      SplitApart(ss, i);
      SplitAt(ss, i);
      ApartHead(ss, i);
      CountAt(ss, i);
      HeadValue(ss, was, i);
      NodesExist(ss[..i]);
      NodesExist(ss[i + 1..]);
      label Before:
      CleanNode(arr[i], ss[i]);
      Untouched@Before(ss[..i]);
      Untouched@Before(ss[i + 1..]);
      Join(ss, was, i);
      i := i + 1;
    }
    assert ss[..i] == ss && was[..i] == was;
  }

  lemma NothingCleaned<T>(ss: seq<Shape<T>>, was: seq<Node<T>>)
    requires Shaped(ss) && was == Values(ss)
    ensures Shaped(ss[..0]) && Values(ss[..0]) == DeleteEmptyChildren(was[..0])
    ensures Shaped(ss[0..]) && Values(ss[0..]) == was[0..]
  {
    assert ss[0..] == ss && was[0..] == was;
  }

  lemma ApartHead<T>(ss: seq<Shape<T>>, i: nat)
    requires i < |ss| && Apart(ss[i..])
    ensures Apart([ss[i]]) && Nodes([ss[i]]) !! Nodes(ss[i + 1..])
    ensures Nodes(ss[i..]) == Nodes([ss[i]]) + Nodes(ss[i + 1..])
  {
    Around(ss, i);
  }

  lemma HeadValue<T>(ss: seq<Shape<T>>, was: seq<Node<T>>, i: nat)
    requires i < |ss| == |was| && Shaped(ss[i..]) && Values(ss[i..]) == was[i..]
    ensures Shaped([ss[i]]) && Values([ss[i]]) == [was[i]]
    ensures Shaped(ss[i + 1..]) && Values(ss[i + 1..]) == was[i + 1..]
  {
    Around(ss, i);
    SplitAt(ss[i..], 1);
    assert ss[i..][..1] == [ss[i]] && ss[i..][1..] == ss[i + 1..];
    assert was[i..][..1] == [was[i]] && was[i..][1..] == was[i + 1..];
  }

  lemma Join<T>(ss: seq<Shape<T>>, was: seq<Node<T>>, i: nat)
    requires i < |ss| == |was|
    requires Shaped(ss[..i]) && Values(ss[..i]) == DeleteEmptyChildren(was[..i])
    requires Shaped([ss[i]]) && Values([ss[i]]) == DeleteEmptyChildren([was[i]])
    ensures Shaped(ss[..i + 1]) && Values(ss[..i + 1]) == DeleteEmptyChildren(was[..i + 1])
  {
    Around(ss, i);
    SplitAt(ss[..i + 1], i);
    DeleteEmptyAppend(was[..i], [was[i]]);
    assert was[..i] + [was[i]] == was[..i + 1];
  }

  // ------------------------------------------------------------ filterTree

  lemma {:induction false} FilterTreeAppend<T>(a: seq<Node<T>>, b: seq<Node<T>>, p: T -> bool)
    ensures FilterTree(a + b, p) == FilterTree(a, p) + FilterTree(b, p)
  {
    if a == [] {
      assert a + b == b;
    } else {
      assert (a + b)[1..] == a[1..] + b;
      FilterTreeAppend(a[1..], b, p);
    }
  }

  /** What a filtered forest is: objects of the old one, standing for these values. */
  ghost predicate Stands<T>(res: seq<TreeNode<T>>, kept: seq<Shape<T>>, within: set<TreeNode<T>>, values: seq<Node<T>>)
    reads Nodes(kept)
  {
    res == Refs(kept) && Nodes(kept) <= within && Apart(kept) && Shaped(kept) && Values(kept) == values
  }

  /** A single node's value, and its shape's parts. */
  lemma SingleNode<T>(s: Shape<T>)
    requires Apart([s]) && Shaped([s])
    ensures Apart(s.kids) && Shaped(s.kids) && s.node !in Nodes(s.kids)
    ensures Nodes([s]) == {s.node} + Nodes(s.kids)
    ensures match s.node.children
            case None => s.kids == [] && Values([s]) == [Leaf(s.node.data)]
            case Some(kids) => kids == Refs(s.kids) && Values([s]) == [Branch(s.node.data, Values(s.kids))]
  {
    assert [s][1..] == [];
  }

  lemma Drops<T>(s: Shape<T>, value: Node<T>, p: T -> bool)
    requires !p(value.data)
    ensures Stands([], [], Nodes([s]), FilterTree([value], p))
  {
    assert [value][1..] == [];
  }

  lemma KeepsLeaf<T>(s: Shape<T>, p: T -> bool)
    requires Apart([s]) && s.node.children.None? && p(s.node.data)
    ensures Stands([s.node], [Shape(s.node, [])], Nodes([s]), FilterTree([Leaf(s.node.data)], p))
  {
    var kept := [Shape(s.node, [])];
    assert kept[1..] == [] && [Leaf(s.node.data)][1..] == [];
  }

  lemma KeepsBranch<T>(s: Shape<T>, kids: seq<Shape<T>>, was: seq<Node<T>>, p: T -> bool)
    requires Apart([s]) && p(s.node.data) && s.node.children == Some(Refs(kids))
    requires Nodes(kids) <= Nodes(s.kids) && Apart(kids) && Shaped(kids) && Values(kids) == FilterTree(was, p)
    ensures Stands([s.node], [Shape(s.node, kids)], Nodes([s]), FilterTree([Branch(s.node.data, was)], p))
  {
    var kept := [Shape(s.node, kids)];
    assert kept[1..] == [] && [Branch(s.node.data, was)][1..] == [];
  }

  /** `data.children = filter(data.children)`. */
  method FilterChildren<T>(node: TreeNode<T>, children: seq<TreeNode<T>>, p: T -> bool, ghost s: Shape<T>)
    returns (ghost kept: seq<Shape<T>>)
    requires node == s.node && Apart([s]) && Shaped([s])
    requires node.children == Some(children) && p(node.data)
    modifies Nodes([s])
    ensures Stands([node], kept, Nodes([s]), FilterTree(old(Values([s])), p))
    decreases Count(s.kids), 2
  {
    hide Shaped, Values, FilterTree, Apart, Refs, Nodes, Count, Stands;
    SingleNode(s);
    ghost var was := Values(s.kids);
    var left;
    ghost var kids;
    left, kids := FilterTreeIn(children, p, s.kids);
    KeptWithin(left, kids, Nodes(s.kids), FilterTree(was, p));
    NodesExist(kids);
    label Before:
    node.children := Some(left);
    Untouched@Before(kids);
    KeepsBranch(s, kids, was, p);
    kept := [Shape(node, kids)];
  }

  /** The filter's callback: a node that stays gets its children filtered. */
  method KeepNode<T>(node: TreeNode<T>, p: T -> bool, ghost s: Shape<T>) returns (keep: bool, ghost kept: seq<Shape<T>>)
    requires node == s.node && Apart([s]) && Shaped([s])
    modifies Nodes([s])
    ensures Stands(if keep then [node] else [], kept, Nodes([s]), FilterTree(old(Values([s])), p))
    decreases Count([s]), 0
  {
    hide Shaped, Values, FilterTree, Apart, Refs, Nodes, Count, Stands;
    SingleNode(s);
    CountAt([s], 0);
    keep, kept := p(node.data), [];
    if !keep {
      Drops(s, Values([s])[0], p);
      return;
    }
    match node.children {
      case None =>
        KeepsLeaf(s, p);
        kept := [Shape(node, [])];
      case Some(children) =>
        kept := FilterChildren(node, children, p, s);
    }
  }

  /** `filterTree`: the nodes returned, as they are afterwards, stand for the filtered tree. */
  method FilterTreeIn<T>(treeData: seq<TreeNode<T>>, p: T -> bool, ghost ss: seq<Shape<T>>)
    returns (res: seq<TreeNode<T>>, ghost kept: seq<Shape<T>>)
    requires treeData == Refs(ss) && Apart(ss) && Shaped(ss)
    modifies Nodes(ss)
    ensures Stands(res, kept, Nodes(ss), FilterTree(old(Values(ss)), p))
    decreases Count(ss), 1
  {
    hide Shaped, Values, FilterTree, Apart, Refs, Nodes, Count, Stands;
    ghost var was := Values(ss);
    res, kept := [], [];
    var i := 0;
    NothingKept(ss, was, p);
    while i < |treeData|
      invariant 0 <= i <= |treeData|
      invariant Stands(res, kept, Nodes(ss[..i]), FilterTree(was[..i], p))
      invariant Shaped(ss[i..]) && Values(ss[i..]) == was[i..]
    {
      SplitApart(ss, i);
      SplitAt(ss, i);
      ApartHead(ss, i);
      CountAt(ss, i);
      HeadValue(ss, was, i);
      NodesExist(ss[..i]);
      NodesExist(ss[i + 1..]);
      KeptWithin(res, kept, Nodes(ss[..i]), FilterTree(was[..i], p));
      label Before:
      var keep;
      ghost var one;
      keep, one := KeepNode(treeData[i], p, ss[i]);
      Untouched@Before(kept);
      Untouched@Before(ss[i + 1..]);
      JoinKept(ss, was, p, i, res, kept, if keep then [treeData[i]] else [], one);
      if keep { res := res + [treeData[i]]; } else { assert res + [] == res; }
      kept := kept + one;
      i := i + 1;
    }
    assert ss[..i] == ss && was[..i] == was;
  }

  lemma KeptWithin<T>(res: seq<TreeNode<T>>, kept: seq<Shape<T>>, within: set<TreeNode<T>>, values: seq<Node<T>>)
    requires Stands(res, kept, within, values)
    ensures res == Refs(kept) && Nodes(kept) <= within && Apart(kept) && Shaped(kept) && Values(kept) == values
  {
  }

  lemma NothingKept<T>(ss: seq<Shape<T>>, was: seq<Node<T>>, p: T -> bool)
    requires Shaped(ss) && was == Values(ss)
    ensures Stands([], [], Nodes(ss[..0]), FilterTree(was[..0], p))
    ensures Shaped(ss[0..]) && Values(ss[0..]) == was[0..]
  {
    assert ss[0..] == ss && was[0..] == was;
  }

  lemma JoinKept<T>(ss: seq<Shape<T>>, was: seq<Node<T>>, p: T -> bool, i: nat,
                    res: seq<TreeNode<T>>, kept: seq<Shape<T>>, one: seq<TreeNode<T>>, keptOne: seq<Shape<T>>)
    requires i < |ss| == |was| && Nodes(ss[..i]) !! Nodes([ss[i]])
    requires res == Refs(kept) && Nodes(kept) <= Nodes(ss[..i]) && Apart(kept) && Shaped(kept)
               && Values(kept) == FilterTree(was[..i], p)
    requires Stands(one, keptOne, Nodes([ss[i]]), FilterTree([was[i]], p))
    ensures Stands(res + one, kept + keptOne, Nodes(ss[..i + 1]), FilterTree(was[..i + 1], p))
  {
    hide Shaped, Values, FilterTree, Apart, Refs, Nodes;
    var all := kept + keptOne;
    assert all[..|kept|] == kept && all[|kept|..] == keptOne;
    SplitApart(all, |kept|);
    SplitAt(all, |kept|);
    Around(ss, i);
    SplitNodes(ss[..i + 1], i);
    FilterTreeAppend(was[..i], [was[i]], p);
    assert was[..i] + [was[i]] == was[..i + 1];
    assert Refs(all) == res + one;
  }
}
