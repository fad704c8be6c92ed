/**
 * Trees grown from a flat list by parent links. The recursion follows the list, not the data, so it
 * ends only because no chain of links from a root can meet itself.
 */
module ParentLinks {
  import opened Common

  /** `parentId` is `None` for a root. */
  datatype Item = Item(id: nat, parentId: Option<nat>, kind: nat, enabled: bool)

  datatype Tree = Tree(item: Item, children: seq<Tree>)

  /** Which items become nodes, and under which of them the list is searched again. */
  datatype Rules = Rules(keep: Item -> bool, open: Item -> bool)

  ghost predicate DistinctIds(items: seq<Item>) {
    forall i, j :: 0 <= i < j < |items| ==> items[i].id != items[j].id
  }

  // ------------------------------------------------------------ chains of parents

  /** A chain of items from a root down, each the parent of the next. */
  ghost predicate Chain(items: seq<Item>, path: seq<Item>) {
    && (forall i :: 0 <= i < |path| ==> path[i] in items)
    && (path != [] ==> path[0].parentId == None)
    && (forall i :: 0 < i < |path| ==> path[i].parentId == Some(path[i - 1].id))
  }

  lemma SameId(items: seq<Item>, a: Item, b: Item)
    requires DistinctIds(items) && a in items && b in items
    ensures a == b <==> a.id == b.id
  {
  }

  lemma {:induction false} ChainsMeetNowhere(items: seq<Item>, path: seq<Item>, i: nat, j: nat)
    requires DistinctIds(items) && Chain(items, path) && i < j < |path|
    ensures path[i] != path[j]
  {
    assert path[j].parentId == Some(path[j - 1].id);
    if i == 0 {
      assert path[0].parentId == None;
    } else {
      ChainsMeetNowhere(items, path, i - 1, j - 1);
      assert path[i].parentId == Some(path[i - 1].id);
      SameId(items, path[i - 1], path[j - 1]);
    }
  }

  /** A chain repeats no item, so it is no longer than the list: cyclic links are never entered. */
  lemma ChainIsShort(items: seq<Item>, path: seq<Item>)
    requires DistinctIds(items) && Chain(items, path)
    ensures NoDup(path) && |path| <= |items|
  {
    forall i, j | 0 <= i < j < |path| ensures path[i] != path[j] { ChainsMeetNowhere(items, path, i, j); }
    NoDupCard(path);
    assert Elements(path) <= Elements(items);
    SubsetCard(Elements(path), Elements(items));
    CardBound(items);
  }

  lemma CardBound<T>(s: seq<T>)
    ensures |Elements(s)| <= |s|
  {
    if s != [] {
      CardBound(s[..|s| - 1]);
      assert s == s[..|s| - 1] + [s[|s| - 1]];
      assert Elements(s) == Elements(s[..|s| - 1]) + {s[|s| - 1]};
    } else {
      assert Elements(s) == {};
    }
  }

  /** An item has at most one chain: it is found by going up. */
  lemma {:induction false} ChainIsUnique(items: seq<Item>, p: seq<Item>, q: seq<Item>)
    requires DistinctIds(items) && Chain(items, p) && Chain(items, q) && p != [] && q != []
    requires p[|p| - 1] == q[|q| - 1]
    ensures p == q
  {
    var n, m := |p| - 1, |q| - 1;
    assert p == p[..n] + [p[n]] && q == q[..m] + [q[m]];
    assert m > 0 ==> q[m].parentId == Some(q[m - 1].id);
    if n > 0 {
      assert p[n].parentId == Some(p[n - 1].id);
      assert m > 0;
      assert q[m].parentId == Some(q[m - 1].id);
      SameId(items, p[n - 1], q[m - 1]);
      ChainIsUnique(items, p[..n], q[..m]);
    } else {
      assert p[0].parentId == None;
    }
  }

  // ------------------------------------------------------------ growing the tree

  function ParentOf(path: seq<Item>): Option<nat> {
    if path == [] then None else Some(path[|path| - 1].id)
  }

  /** The list's entries under a parent, in list order. */
  function Under(items: seq<Item>, r: Rules, parent: Option<nat>): (under: seq<Item>)
    ensures forall x :: x in under <==> x in items && x.parentId == parent && r.keep(x)
  {
    if items == [] then [] else
      var x := items[|items| - 1];
      assert items == items[..|items| - 1] + [x];
      Under(items[..|items| - 1], r, parent) + if x.parentId == parent && r.keep(x) then [x] else []
  }

  /** `x` stands somewhere before `y`. */
  ghost predicate Precedes<T(!new)>(s: seq<T>, x: T, y: T) {
    exists i, j :: 0 <= i < j < |s| && s[i] == x && s[j] == y
  }

  /** Siblings stand in list order, each once. */
  lemma {:induction false} UnderInOrder(items: seq<Item>, r: Rules, parent: Option<nat>)
    requires NoDup(items)
    ensures NoDup(Under(items, r, parent))
    ensures forall x, y :: x in Under(items, r, parent) && y in Under(items, r, parent) ==>
              (Precedes(Under(items, r, parent), x, y) <==> Precedes(items, x, y))
  {
    hide Precedes;
    if items != [] {
      var front, x := items[..|items| - 1], items[|items| - 1];
      assert items == front + [x];
      NoDupStep(front, x);
      UnderInOrder(front, r, parent);
      var before := Under(front, r, parent);
      assert before + [] == before;
      NoDupStep(before, x);
      forall a, b
        ensures a in before && b in before ==> (Precedes(before, a, b) <==> Precedes(items, a, b))
        ensures a in before + [x] && b in before + [x] && x !in before ==>
                  (Precedes(before + [x], a, b) <==> Precedes(items, a, b)) {
        PrecedesStep(front, x, a, b);
        if x !in before { PrecedesStep(before, x, a, b); }
      }
    } else {
      assert forall x, y :: !(x in Under(items, r, parent) && y in Under(items, r, parent));
    }
  }

  lemma PrecedesStep<T(!new)>(s: seq<T>, z: T, x: T, y: T)
    requires NoDup(s + [z])
    ensures Precedes(s + [z], x, y) <==> Precedes(s, x, y) || (y == z && x in s)
    ensures Precedes(s, x, y) ==> x in s && y in s && y != z
  {
    var t := s + [z];
    NoDupStep(s, z);
    if Precedes(t, x, y) {
      var i, j :| 0 <= i < j < |t| && t[i] == x && t[j] == y;
      if j < |s| { assert s[i] == x && s[j] == y; } else { assert s[i] == x; }
    }
    if Precedes(s, x, y) {
      var i, j :| 0 <= i < j < |s| && s[i] == x && s[j] == y;
      assert t[i] == x && t[j] == y;
    }
    if y == z && x in s {
      var i :| 0 <= i < |s| && s[i] == x;
      assert t[i] == x && t[|s|] == y;
    }
  }

  lemma ChainExtends(items: seq<Item>, path: seq<Item>, x: Item)
    requires Chain(items, path) && x in items && x.parentId == ParentOf(path)
    ensures Chain(items, path + [x])
  {
  }

  function Grow(items: seq<Item>, r: Rules, parent: Option<nat>, ghost path: seq<Item>): seq<Tree>
    requires DistinctIds(items) && Chain(items, path) && parent == ParentOf(path)
    decreases |items| - |path|, 1, 0
  {
    ChainIsShort(items, path);
    GrowEach(items, r, Under(items, r, parent), parent, path)
  }

  function GrowEach(items: seq<Item>, r: Rules, todo: seq<Item>, parent: Option<nat>,
        ghost path: seq<Item>): (ts: seq<Tree>)
    requires DistinctIds(items) && Chain(items, path) && parent == ParentOf(path)
    requires forall x :: x in todo ==> x in items && x.parentId == parent
    ensures |ts| == |todo| && forall i :: 0 <= i < |ts| ==> ts[i].item == todo[i]
    decreases |items| - |path|, 0, |todo|
  {
    if todo == [] then [] else
      ChainExtends(items, path, todo[0]);
      ChainIsShort(items, path + [todo[0]]);
      [Tree(todo[0], if r.open(todo[0]) then Grow(items, r, Some(todo[0].id), path + [todo[0]]) else [])]
      + GrowEach(items, r, todo[1..], parent, path)
  }

  function Preorder(ts: seq<Tree>): seq<Item> {
    if ts == [] then [] else [ts[0].item] + Preorder(ts[0].children) + Preorder(ts[1..])
  }

  // ------------------------------------------------------------ which items appear

  /** A chain the rules let through: every item on it kept, every one but the last opened. */
  ghost predicate Passes(r: Rules, path: seq<Item>, x: Item) {
    && path != [] && path[|path| - 1] == x
    && (forall i :: 0 <= i < |path| ==> r.keep(path[i]))
    && (forall i :: 0 <= i < |path| - 1 ==> r.open(path[i]))
  }

  ghost predicate ReachedThrough(items: seq<Item>, r: Rules, path: seq<Item>, x: Item, q: seq<Item>) {
    Chain(items, path + q) && q != [] && Passes(r, q, x)
  }

  /** `x` lies below `path` by a chain the rules let through. */
  ghost predicate Reached(items: seq<Item>, r: Rules, path: seq<Item>, x: Item) {
    exists q :: ReachedThrough(items, r, path, x, q)
  }

  ghost predicate ReachedVia(items: seq<Item>, r: Rules, path: seq<Item>, t: Item, x: Item) {
    x == t || (r.open(t) && Reached(items, r, path + [t], x))
  }

  lemma ReachedStep(items: seq<Item>, r: Rules, path: seq<Item>, t: Item, x: Item)
    requires Chain(items, path) && t in items && t.parentId == ParentOf(path) && r.keep(t)
               && ReachedVia(items, r, path, t, x)
    ensures Reached(items, r, path, x)
  {
    ChainExtends(items, path, t);
    if x == t {
      assert ReachedThrough(items, r, path, x, [t]);
    } else {
      var q :| ReachedThrough(items, r, path + [t], x, q);
      assert path + [t] + q == path + ([t] + q);
      var q' := [t] + q;
      forall i | 0 <= i < |q'| ensures r.keep(q'[i]) && (i < |q'| - 1 ==> r.open(q'[i])) {
        assert i > 0 ==> q'[i] == q[i - 1];
      }
      assert ReachedThrough(items, r, path, x, q');
    }
  }

  lemma ReachedUnder(items: seq<Item>, r: Rules, path: seq<Item>, x: Item) returns (t: Item)
    requires Chain(items, path) && Reached(items, r, path, x)
    ensures t in Under(items, r, ParentOf(path)) && ReachedVia(items, r, path, t, x)
  {
    var q :| ReachedThrough(items, r, path, x, q);
    t := q[0];
    var c := path + q;
    var n := |path|;
    assert c[n] == t && t in items;
    assert n > 0 ==> c[n].parentId == Some(c[n - 1].id);
    assert t.parentId == ParentOf(path);
    if |q| > 1 {
      assert path + [t] + q[1..] == path + q;
      forall i | 0 <= i < |q[1..]| ensures r.keep(q[1..][i]) && (i < |q[1..]| - 1 ==> r.open(q[1..][i])) {
        assert q[1..][i] == q[i + 1];
      }
      assert ReachedThrough(items, r, path + [t], x, q[1..]);
    }
  }

  lemma PreorderHas(ts: seq<Tree>, x: Item)
    requires ts != []
    ensures x in Preorder(ts) <==> x == ts[0].item || x in Preorder(ts[0].children) || x in Preorder(ts[1..])
  {
  }

  /** The tree below a chain holds exactly the items a passing chain continues to. */
  lemma {:induction false} GrowHolds(items: seq<Item>, r: Rules, path: seq<Item>, x: Item)
    requires DistinctIds(items) && Chain(items, path)
    ensures x in Preorder(Grow(items, r, ParentOf(path), path)) <==> Reached(items, r, path, x)
    decreases |items| - |path|, 1, 0
  {
    hide Reached, Preorder;
    var parent := ParentOf(path);
    ChainIsShort(items, path);
    GrowEachHolds(items, r, Under(items, r, parent), path, x);
    if Reached(items, r, path, x) {
      var t := ReachedUnder(items, r, path, x);
    }
    if t :| t in Under(items, r, parent) && ReachedVia(items, r, path, t, x) {
      ReachedStep(items, r, path, t, x);
    }
  }

  lemma {:induction false} GrowEachHolds(items: seq<Item>, r: Rules, todo: seq<Item>, path: seq<Item>, x: Item)
    requires DistinctIds(items) && Chain(items, path)
    requires forall t :: t in todo ==> t in items && t.parentId == ParentOf(path)
    ensures x in Preorder(GrowEach(items, r, todo, ParentOf(path), path))
       <==> exists t :: t in todo && ReachedVia(items, r, path, t, x)
    decreases |items| - |path|, 0, |todo|
  {
    hide *;
    if todo == [] {
      EachNone(items, r, path);
    } else {
      var t := todo[0];
      EachStep(items, r, todo, path);
      if r.open(t) { GrowHolds(items, r, path + [t], x); }
      GrowEachHolds(items, r, todo[1..], path, x);
      PreorderHas(GrowEach(items, r, todo, ParentOf(path), path), x);
      ViaStep(items, r, path, t, x);
      assert todo == [t] + todo[1..];
    }
  }

  lemma ViaStep(items: seq<Item>, r: Rules, path: seq<Item>, t: Item, x: Item)
    ensures ReachedVia(items, r, path, t, x) <==> x == t || (r.open(t) && Reached(items, r, path + [t], x))
  {
  }

  lemma EachNone(items: seq<Item>, r: Rules, path: seq<Item>)
    requires DistinctIds(items) && Chain(items, path)
    ensures Preorder(GrowEach(items, r, [], ParentOf(path), path)) == []
  {
  }

  /** The first tree of a forest, and the chain that leads into it. */
  lemma EachStep(items: seq<Item>, r: Rules, todo: seq<Item>, path: seq<Item>)
    requires DistinctIds(items) && Chain(items, path) && todo != []
    requires forall t :: t in todo ==> t in items && t.parentId == ParentOf(path)
    ensures var t := todo[0];
            && t in todo && Chain(items, path + [t]) && |path + [t]| <= |items| && ParentOf(path + [t]) == Some(t.id)
            && (forall u :: u in todo[1..] ==> u in todo)
            && |GrowEach(items, r, todo, ParentOf(path), path)| > 0
            && GrowEach(items, r, todo, ParentOf(path), path)[0].item == t
            && Preorder(GrowEach(items, r, todo, ParentOf(path), path)[0].children)
               == (if r.open(t) then Preorder(Grow(items, r, Some(t.id), path + [t])) else [])
            && GrowEach(items, r, todo, ParentOf(path), path)[1..]
                 == GrowEach(items, r, todo[1..], ParentOf(path), path)
  {
    hide Grow;
    ChainExtends(items, path, todo[0]);
    ChainIsShort(items, path + [todo[0]]);
  }

  lemma ViaChain(items: seq<Item>, r: Rules, path: seq<Item>, t: Item, x: Item) returns (c: seq<Item>)
    requires Chain(items, path) && t in items && t.parentId == ParentOf(path) && ReachedVia(items, r, path, t, x)
    ensures Chain(items, c) && |path| < |c| && c[|path|] == t && c[|c| - 1] == x
    ensures r.open(t) && Reached(items, r, path + [t], x) ==> |path| + 1 < |c|
  {
    ChainExtends(items, path, t);
    if r.open(t) && Reached(items, r, path + [t], x) {
      var q :| ReachedThrough(items, r, path + [t], x, q);
      c := path + [t] + q;
    } else {
      c := path + [t];
    }
  }

  /** An item's subtree does not hold the item again. */
  lemma NotBelowItself(items: seq<Item>, r: Rules, path: seq<Item>, t: Item)
    requires DistinctIds(items) && Chain(items, path) && t in items && t.parentId == ParentOf(path)
    ensures !(r.open(t) && Reached(items, r, path + [t], t))
  {
    if r.open(t) && Reached(items, r, path + [t], t) {
      var c := ViaChain(items, r, path, t, t);
      ChainsMeetNowhere(items, c, |path|, |c| - 1);
    }
  }

  /** Two siblings' subtrees share nothing. */
  lemma SiblingsApart(items: seq<Item>, r: Rules, path: seq<Item>, t: Item, u: Item, x: Item)
    requires DistinctIds(items) && Chain(items, path)
    requires t in items && t.parentId == ParentOf(path) && ReachedVia(items, r, path, t, x)
    requires u in items && u.parentId == ParentOf(path) && ReachedVia(items, r, path, u, x)
    ensures t == u
  {
    var c := ViaChain(items, r, path, t, x);
    var d := ViaChain(items, r, path, u, x);
    ChainIsUnique(items, c, d);
  }

  lemma NoDupNode<T>(t: T, a: seq<T>, b: seq<T>)
    requires NoDup(a) && NoDup(b) && t !in a && t !in b && forall x :: x in a ==> x !in b
    ensures NoDup([t] + a + b)
  {
    NoDupConcat(a, b);
    var s := [t] + a + b;
    assert s == [t] + (a + b);
    NoDupConcat([t], a + b);
  }

  lemma {:induction false} GrowOnce(items: seq<Item>, r: Rules, path: seq<Item>)
    requires DistinctIds(items) && Chain(items, path)
    ensures NoDup(Preorder(Grow(items, r, ParentOf(path), path)))
    decreases |items| - |path|, 1, 0
  {
    hide Preorder, Under;
    ChainIsShort(items, path);
    UnderOnce(items, r, ParentOf(path));
    GrowEachOnce(items, r, Under(items, r, ParentOf(path)), path);
  }

  lemma {:induction false} UnderOnce(items: seq<Item>, r: Rules, parent: Option<nat>)
    requires DistinctIds(items)
    ensures NoDup(Under(items, r, parent))
  {
    if items != [] {
      var front, x := items[..|items| - 1], items[|items| - 1];
      UnderOnce(front, r, parent);
      assert x !in front by { assert forall i :: 0 <= i < |front| ==> front[i] == items[i]; }
      NoDupStep(Under(front, r, parent), x);
    }
  }

  lemma {:induction false} GrowEachOnce(items: seq<Item>, r: Rules, todo: seq<Item>, path: seq<Item>)
    requires DistinctIds(items) && Chain(items, path) && NoDup(todo)
    requires forall t :: t in todo ==> t in items && t.parentId == ParentOf(path)
    ensures NoDup(Preorder(GrowEach(items, r, todo, ParentOf(path), path)))
    decreases |items| - |path|, 0, |todo|
  {
    hide *;
    if todo == [] {
      EachNone(items, r, path);
      NoDupNil<Item>();
    } else {
      var t := todo[0];
      EachStep(items, r, todo, path);
      var ts := GrowEach(items, r, todo, ParentOf(path), path);
      var a, b := Preorder(ts[0].children), Preorder(ts[1..]);
      if r.open(t) { GrowOnce(items, r, path + [t]); } else { NoDupNil<Item>(); }
      NoDupTail(todo);
      GrowEachOnce(items, r, todo[1..], path);
      forall x ensures x in a ==> ReachedVia(items, r, path, t, x) && x != t
               ensures x in b || x == t ==> !(x in a)
               ensures x in b ==> x != t {
        if r.open(t) { GrowHolds(items, r, path + [t], x); }
        ViaStep(items, r, path, t, x);
        NotBelowItself(items, r, path, t);
        GrowEachHolds(items, r, todo[1..], path, x);
        if x in b {
          var u :| u in todo[1..] && ReachedVia(items, r, path, u, x);
          if x == t || x in a { SiblingsApart(items, r, path, t, u, x); }
        }
      }
      NoDupNode(t, a, b);
      PreorderStep(ts);
    }
  }

  lemma PreorderStep(ts: seq<Tree>)
    requires ts != []
    ensures Preorder(ts) == [ts[0].item] + Preorder(ts[0].children) + Preorder(ts[1..])
  {
  }

  lemma NoDupNil<T>()
    ensures NoDup<T>([])
  {
  }

  // ------------------------------------------------------------ the shape

  /** The nodes of a level are the list's entries under their parent, in list order, at every depth. */
  ghost predicate Linked(items: seq<Item>, r: Rules, ts: seq<Tree>, parent: Option<nat>)
    decreases ts
  {
    && |ts| == |Under(items, r, parent)|
    && forall i :: 0 <= i < |ts| ==>
         && ts[i].item == Under(items, r, parent)[i]
         && if r.open(ts[i].item) then Linked(items, r, ts[i].children, Some(ts[i].item.id)) else ts[i].children == []
  }

  lemma {:induction false} GrowLinked(items: seq<Item>, r: Rules, path: seq<Item>)
    requires DistinctIds(items) && Chain(items, path)
    ensures Linked(items, r, Grow(items, r, ParentOf(path), path), ParentOf(path))
    decreases |items| - |path|
  {
    ChainIsShort(items, path);
    var todo := Under(items, r, ParentOf(path));
    var ts := GrowEach(items, r, todo, ParentOf(path), path);
    forall i | 0 <= i < |ts|
      ensures if r.open(todo[i]) then Linked(items, r, ts[i].children, Some(todo[i].id)) else ts[i].children == [] {
      GrowEachAt(items, r, todo, path, i);
      ChainExtends(items, path, todo[i]);
      ChainIsShort(items, path + [todo[i]]);
      if r.open(todo[i]) { GrowLinked(items, r, path + [todo[i]]); }
    }
  }

  lemma {:induction false} GrowEachAt(items: seq<Item>, r: Rules, todo: seq<Item>, path: seq<Item>, i: nat)
    requires DistinctIds(items) && Chain(items, path) && i < |todo|
    requires forall x :: x in todo ==> x in items && x.parentId == ParentOf(path)
    ensures Chain(items, path + [todo[i]])
    ensures GrowEach(items, r, todo, ParentOf(path), path)[i].children
         == if r.open(todo[i]) then Grow(items, r, Some(todo[i].id), path + [todo[i]]) else []
  {
    hide Grow;
    ChainExtends(items, path, todo[i]);
    if i > 0 {
      EachStep(items, r, todo, path);
      GrowEachAt(items, r, todo[1..], path, i - 1);
    }
  }

  // ------------------------------------------------------------ list2Tree

  const EveryItem := Rules(_ => true, _ => true)

  function List2Tree(items: seq<Item>): seq<Tree>
    requires DistinctIds(items)
  {
    Grow(items, EveryItem, None, [])
  }

  /** The item's parents lead to a root. */
  ghost predicate Rooted(items: seq<Item>, x: Item) {
    exists path :: EndsChain(items, path, x)
  }

  ghost predicate EndsChain(items: seq<Item>, path: seq<Item>, x: Item) {
    Chain(items, path) && path != [] && path[|path| - 1] == x
  }

  lemma RootedIsReached(items: seq<Item>, x: Item)
    ensures Rooted(items, x) <==> Reached(items, EveryItem, [], x)
  {
    if Rooted(items, x) {
      var path :| EndsChain(items, path, x);
      assert [] + path == path;
      assert ReachedThrough(items, EveryItem, [], x, path);
    }
    if Reached(items, EveryItem, [], x) {
      var q :| ReachedThrough(items, EveryItem, [], x, q);
      assert [] + q == q;
      assert EndsChain(items, q, x);
    }
  }

  /**
   * Whatever cycles the links hold: the tree has exactly the items whose parents lead to a root, each once, linked in
   * list order.
   */
  lemma List2TreeHoldsTheRooted(items: seq<Item>)
    requires DistinctIds(items)
    ensures NoDup(Preorder(List2Tree(items)))
    ensures forall x :: x in Preorder(List2Tree(items)) <==> Rooted(items, x)
    ensures Linked(items, EveryItem, List2Tree(items), None)
  {
    hide Preorder, Grow, Reached, Rooted, Linked;
    assert Chain(items, []);
    GrowOnce(items, EveryItem, []);
    GrowLinked(items, EveryItem, []);
    forall x ensures x in Preorder(List2Tree(items)) <==> Rooted(items, x) {
      GrowHolds(items, EveryItem, [], x);
      RootedIsReached(items, x);
    }
  }

  /** When every item's parents lead to a root, the tree is a rearrangement of the list, and only then. */
  lemma List2TreeIsAPermutation(items: seq<Item>)
    requires DistinctIds(items)
    ensures multiset(Preorder(List2Tree(items))) == multiset(items) <==> forall x :: x in items ==> Rooted(items, x)
  {
    hide Preorder, Grow, Rooted, Linked;
    var ps := Preorder(List2Tree(items));
    List2TreeHoldsTheRooted(items);
    assert NoDup(items);
    forall x
      ensures multiset(items)[x] == (if x in items then 1 else 0) && multiset(ps)[x] == (if x in ps then 1 else 0) {
      NoDupCount(items, x);
      NoDupCount(ps, x);
    }
    forall x | x in ps ensures x in items { RootedIsListed(items, x); }
    if forall x :: x in items ==> Rooted(items, x) {
      assert forall x :: x in ps <==> x in items;
    }
    if multiset(ps) == multiset(items) {
      forall x | x in items ensures Rooted(items, x) { assert multiset(ps)[x] == 1; }
    }
  }

  lemma RootedIsListed(items: seq<Item>, x: Item)
    requires Rooted(items, x)
    ensures x in items
  {
    var path :| EndsChain(items, path, x);
  }

  lemma {:induction false} NoDupCount<T>(s: seq<T>, x: T)
    requires NoDup(s)
    ensures multiset(s)[x] == if x in s then 1 else 0
  {
    if s != [] {
      var front, last := s[..|s| - 1], s[|s| - 1];
      assert s == front + [last];
      NoDupStep(front, last);
      NoDupCount(front, x);
    }
  }
}
