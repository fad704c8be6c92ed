/** Filters over trees that are already built. */
module TreeFilters {
  /** A node: its own fields, and its `children` field, which may be absent (`Leaf`), empty or filled. */
  datatype Node<T> = Leaf(data: T) | Branch(data: T, kids: seq<Node<T>>)

  function Kids<T>(n: Node<T>): seq<Node<T>> {
    match n
    case Leaf(_) => []
    case Branch(_, kids) => kids
  }

  function Size<T>(ns: seq<Node<T>>): nat {
    if ns == [] then 0 else
      1 + (match ns[0] case Leaf(_) => 0 case Branch(_, kids) => Size(kids)) + Size(ns[1..])
  }

  /** A node's own fields, how deep it stands, and whether it has a `children` field. */
  datatype At<T> = At(data: T, depth: nat, field: bool)

  /** The nodes in preorder with their depths, which say how they hang together. */
  function Preorder<T>(ns: seq<Node<T>>, depth: nat): seq<At<T>>
    decreases Size(ns)
  {
    if ns == [] then [] else
      [At(ns[0].data, depth, ns[0].Branch?)] + Preorder(Kids(ns[0]), depth + 1) + Preorder(ns[1..], depth)
  }

  // ------------------------------------------------------------ filterTree2List

  /** A matching node is kept whole; another one only with the children the filter leaves, if any. */
  function FilterTree2List<T>(ns: seq<Node<T>>, match_: T -> bool): seq<Node<T>>
    decreases Size(ns)
  {
    if ns == [] then [] else
      var n := ns[0];
      var rest := FilterTree2List(ns[1..], match_);
      if match_(n.data) then [n] + rest
      else if n.Branch? then
        var kids := FilterTree2List(n.kids, match_);
        if kids != [] then [Branch(n.data, kids)] + rest else rest
      else rest
  }

  predicate AnyMatch<T>(ns: seq<Node<T>>, match_: T -> bool)
    decreases Size(ns)
  {
    ns != [] && (match_(ns[0].data) || AnyMatch(Kids(ns[0]), match_) || AnyMatch(ns[1..], match_))
  }

  /** The nodes, in preorder, of which one matches, or an ancestor does, or a descendant does. */
  function Related<T>(ns: seq<Node<T>>, match_: T -> bool, above: bool, depth: nat): seq<At<T>>
    decreases Size(ns)
  {
    if ns == [] then [] else
      var n := ns[0];
      var own := above || match_(n.data);
      (if own || AnyMatch(Kids(n), match_) then [At(n.data, depth, n.Branch?)] else [])
      + Related(Kids(n), match_, own, depth + 1) + Related(ns[1..], match_, above, depth)
  }

  lemma {:induction false} AllRelatedBelowAMatch<T>(ns: seq<Node<T>>, match_: T -> bool, depth: nat)
    ensures Related(ns, match_, true, depth) == Preorder(ns, depth)
    decreases Size(ns)
  {
    if ns != [] {
      AllRelatedBelowAMatch(Kids(ns[0]), match_, depth + 1);
      AllRelatedBelowAMatch(ns[1..], match_, depth);
    }
  }

  lemma {:induction false} NothingRelated<T>(ns: seq<Node<T>>, match_: T -> bool, depth: nat)
    requires !AnyMatch(ns, match_)
    ensures Related(ns, match_, false, depth) == [] && FilterTree2List(ns, match_) == []
    decreases Size(ns)
  {
    if ns != [] {
      NothingRelated(Kids(ns[0]), match_, depth + 1);
      NothingRelated(ns[1..], match_, depth);
    }
  }

  lemma {:induction false} SomethingKept<T>(ns: seq<Node<T>>, match_: T -> bool)
    requires AnyMatch(ns, match_)
    ensures FilterTree2List(ns, match_) != []
    decreases Size(ns)
  {
    if !match_(ns[0].data) {
      if AnyMatch(Kids(ns[0]), match_) { SomethingKept(Kids(ns[0]), match_); } else { SomethingKept(ns[1..], match_); }
    }
  }

  /**
   * The filter keeps, in order and at their depths, exactly the nodes that match or have a matching ancestor or
   * descendant.
   */
  lemma {:induction false} FilterKeepsTheRelated<T>(ns: seq<Node<T>>, match_: T -> bool, depth: nat)
    ensures Preorder(FilterTree2List(ns, match_), depth) == Related(ns, match_, false, depth)
    decreases Size(ns)
  {
    if ns != [] {
      var n := ns[0];
      FilterKeepsTheRelated(ns[1..], match_, depth);
      if match_(n.data) {
        AllRelatedBelowAMatch(Kids(n), match_, depth + 1);
        PreorderCons(n, FilterTree2List(ns[1..], match_), depth);
      } else if AnyMatch(Kids(n), match_) {
        SomethingKept(Kids(n), match_);
        FilterKeepsTheRelated(Kids(n), match_, depth + 1);
        PreorderCons(Branch(n.data, FilterTree2List(Kids(n), match_)), FilterTree2List(ns[1..], match_), depth);
      } else {
        NothingRelated(Kids(n), match_, depth + 1);
      }
    }
  }

  lemma PreorderCons<T>(n: Node<T>, ns: seq<Node<T>>, depth: nat)
    ensures Preorder([n] + ns, depth)
         == [At(n.data, depth, n.Branch?)] + Preorder(Kids(n), depth + 1) + Preorder(ns, depth)
  {
    assert ([n] + ns)[1..] == ns;
  }

  /** Filtering what was filtered changes nothing. */
  lemma {:induction false} FilterIsIdempotent<T>(ns: seq<Node<T>>, match_: T -> bool)
    ensures FilterTree2List(FilterTree2List(ns, match_), match_) == FilterTree2List(ns, match_)
    decreases Size(ns)
  {
    if ns != [] {
      var n := ns[0];
      var rest := FilterTree2List(ns[1..], match_);
      FilterIsIdempotent(ns[1..], match_);
      if match_(n.data) {
        assert ([n] + rest)[1..] == rest;
      } else if n.Branch? {
        var kids := FilterTree2List(n.kids, match_);
        FilterIsIdempotent(n.kids, match_);
        if kids != [] {
          assert ([Branch(n.data, kids)] + rest)[1..] == rest;
        }
      }
    }
  }

  lemma {:induction false} FilterAppend<T>(a: seq<Node<T>>, b: seq<Node<T>>, match_: T -> bool)
    ensures FilterTree2List(a + b, match_) == FilterTree2List(a, match_) + FilterTree2List(b, match_)
  {
    if a == [] {
      assert a + b == b;
    } else {
      assert (a + b)[1..] == a[1..] + b;
      FilterAppend(a[1..], b, match_);
    }
  }

  lemma FilterOne<T>(ns: seq<Node<T>>, i: nat, match_: T -> bool)
    requires i < |ns|
    ensures FilterTree2List(ns[..i + 1], match_) == FilterTree2List(ns[..i], match_) + FilterTree2List([ns[i]], match_)
  {
    assert ns[..i + 1] == ns[..i] + [ns[i]];
    FilterAppend(ns[..i], [ns[i]], match_);
  }

  lemma {:induction false} KidsAreSmaller<T>(ns: seq<Node<T>>, i: nat)
    requires i < |ns|
    ensures ns[i].Branch? ==> Size(ns[i].kids) < Size(ns)
  {
    if i > 0 { KidsAreSmaller(ns[1..], i - 1); }
  }

  lemma FilterSingle<T>(n: Node<T>, match_: T -> bool)
    ensures FilterTree2List([n], match_) ==
            if match_(n.data) then [n]
            else if n.Branch? && FilterTree2List(n.kids, match_) != [] then
              [Branch(n.data, FilterTree2List(n.kids, match_))]
            else []
  {
    assert [n][1..] == [];
    assert FilterTree2List([n][1..], match_) == [];
  }

  /** The `reduce` with its accumulator. */
  method FilterToList<T>(treeData: seq<Node<T>>, match_: T -> bool) returns (resTree: seq<Node<T>>)
    ensures resTree == FilterTree2List(treeData, match_)
    decreases Size(treeData)
  {
    hide FilterTree2List;
    resTree := [];
    var i := 0;
    assert FilterTree2List(treeData[..0], match_) == [] by { FilterNone(match_); }
    while i < |treeData|
      invariant 0 <= i <= |treeData|
      invariant resTree == FilterTree2List(treeData[..i], match_)
    {
      var treeItem := treeData[i];
      FilterOne(treeData, i, match_);
      FilterSingle(treeItem, match_);
      if match_(treeItem.data) {
        resTree := resTree + [treeItem];
      } else if treeItem.Branch? {
        KidsAreSmaller(treeData, i);
        var children := FilterToList(treeItem.kids, match_);
        if |children| > 0 { resTree := resTree + [Branch(treeItem.data, children)]; }
      }
      i := i + 1;
    }
    assert treeData[..i] == treeData;
  }

  lemma FilterNone<T>(match_: T -> bool)
    ensures FilterTree2List([], match_) == []
  {
  }

  // ------------------------------------------------------------ filterTree

  /** A node stays if the predicate holds of its own fields; its children are then filtered. */
  function FilterTree<T>(ns: seq<Node<T>>, p: T -> bool): seq<Node<T>>
    decreases Size(ns)
  {
    if ns == [] then [] else
      var n := ns[0];
      var rest := FilterTree(ns[1..], p);
      if p(n.data) then [(if n.Branch? then Branch(n.data, FilterTree(n.kids, p)) else n)] + rest else rest
  }

  /** The nodes, in preorder, whose whole path from the root satisfies the predicate. */
  function Connected<T>(ns: seq<Node<T>>, p: T -> bool, above: bool, depth: nat): seq<At<T>>
    decreases Size(ns)
  {
    if ns == [] then [] else
      var n := ns[0];
      var own := above && p(n.data);
      (if own then [At(n.data, depth, n.Branch?)] else [])
      + Connected(Kids(n), p, own, depth + 1) + Connected(ns[1..], p, above, depth)
  }

  lemma {:induction false} NothingConnected<T>(ns: seq<Node<T>>, p: T -> bool, depth: nat)
    ensures Connected(ns, p, false, depth) == []
    decreases Size(ns)
  {
    if ns != [] {
      NothingConnected(Kids(ns[0]), p, depth + 1);
      NothingConnected(ns[1..], p, depth);
    }
  }

  lemma {:induction false} FilterTreeKeepsTheConnected<T>(ns: seq<Node<T>>, p: T -> bool, depth: nat)
    ensures Preorder(FilterTree(ns, p), depth) == Connected(ns, p, true, depth)
    decreases Size(ns)
  {
    if ns != [] {
      var n := ns[0];
      FilterTreeKeepsTheConnected(ns[1..], p, depth);
      if p(n.data) {
        if n.Branch? { FilterTreeKeepsTheConnected(n.kids, p, depth + 1); }
        PreorderCons((if n.Branch? then Branch(n.data, FilterTree(n.kids, p)) else n), FilterTree(ns[1..], p), depth);
      } else {
        NothingConnected(Kids(n), p, depth + 1);
      }
    }
  }

  // ------------------------------------------------------------ deleteEmptyChildren

  function DeleteEmptyChildren<T>(ns: seq<Node<T>>): seq<Node<T>>
    decreases Size(ns)
  {
    if ns == [] then [] else
      var n := ns[0];
      [if n.Branch? && |n.kids| == 0 then Leaf(n.data)
       else if n.Branch? then Branch(n.data, DeleteEmptyChildren(n.kids))
       else n]
      + DeleteEmptyChildren(ns[1..])
  }

  predicate NoEmptyChildren<T>(ns: seq<Node<T>>)
    decreases Size(ns)
  {
    ns != [] ==> !(ns[0].Branch? && |ns[0].kids| == 0) && NoEmptyChildren(Kids(ns[0])) && NoEmptyChildren(ns[1..])
  }

  /** The nodes of a preorder without regard to their `children` fields. */
  function Places<T>(s: seq<At<T>>): seq<(T, nat)> {
    if s == [] then [] else [(s[0].data, s[0].depth)] + Places(s[1..])
  }

  lemma {:induction false} PlacesAppend<T>(a: seq<At<T>>, b: seq<At<T>>)
    ensures Places(a + b) == Places(a) + Places(b)
  {
    if a == [] {
      assert a + b == b;
    } else {
      assert (a + b)[1..] == a[1..] + b;
      PlacesAppend(a[1..], b);
    }
  }

  lemma PlacesCons<T>(n: Node<T>, ns: seq<Node<T>>, depth: nat)
    ensures Places(Preorder([n] + ns, depth))
         == [(n.data, depth)] + Places(Preorder(Kids(n), depth + 1)) + Places(Preorder(ns, depth))
  {
    hide Preorder;
    PreorderCons(n, ns, depth);
    var kids, rest := Preorder(Kids(n), depth + 1), Preorder(ns, depth);
    PlacesAppend([At(n.data, depth, n.Branch?)] + kids, rest);
    PlacesAppend([At(n.data, depth, n.Branch?)], kids);
    assert [At(n.data, depth, n.Branch?)][1..] == [];
  }

  lemma NoPlaces<T>(depth: nat)
    ensures Places(Preorder<T>([], depth)) == []
  {
  }

  /** No empty child list is left, every node is, where it was, and trees without one are left alone. */
  lemma {:induction false} OnlyEmptyChildrenGo<T>(ns: seq<Node<T>>, depth: nat)
    ensures NoEmptyChildren(DeleteEmptyChildren(ns))
    ensures Places(Preorder(DeleteEmptyChildren(ns), depth)) == Places(Preorder(ns, depth))
    ensures |DeleteEmptyChildren(ns)| == |ns|
    ensures NoEmptyChildren(ns) <==> DeleteEmptyChildren(ns) == ns
    decreases Size(ns)
  {
    hide Preorder, Places;
    if ns != [] {
      var n := ns[0];
      var r := DeleteEmptyChildren(ns);
      OnlyEmptyChildrenGo(ns[1..], depth);
      if n.Branch? { OnlyEmptyChildrenGo(n.kids, depth + 1); }
      assert r[1..] == DeleteEmptyChildren(ns[1..]);
      assert r == [r[0]] + r[1..] && ns == [n] + ns[1..];
      PlacesCons(r[0], r[1..], depth);
      PlacesCons(n, ns[1..], depth);
      NoPlaces<T>(depth + 1);
    }
  }
}
