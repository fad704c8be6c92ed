/** Menus to routes and to the menu table: parent links again, with rules on kind and status. */
module MenuRoutes {
  import opened Common
  import opened ParentLinks

  /** Kinds of a menu entry. */
  const DIRECTORY := 0
  const PAGE := 1
  const PERMISSION := 2

  predicate IsDirectory(m: Item) { m.kind == DIRECTORY }

  /** `filterAsyncRoutes` makes a route of an enabled directory or page, and looks below directories. */
  predicate IsRoute(m: Item) { m.enabled && (m.kind == DIRECTORY || m.kind == PAGE) }

  /** `filterMenuToTable` lists every directory and page, and permissions that have a parent. */
  predicate InTable(m: Item) { m.kind == DIRECTORY || m.kind == PAGE || (m.kind == PERMISSION && m.parentId.Some?) }

  predicate OpensInTable(m: Item) { m.kind == DIRECTORY || m.kind == PAGE }

  const RouteRules := Rules(IsRoute, IsDirectory)

  const TableRules := Rules(InTable, OpensInTable)

  /** Ids are keys, and none is 0: an entry whose `parentId` is 0 is a root, and would lie below an entry 0 as well. */
  ghost predicate MenuIds(menus: seq<Item>) {
    && DistinctIds(menus)
    && forall m :: m in menus ==> m.id != 0
  }

  function GeneratorRouters(menus: seq<Item>): seq<Tree>
    requires MenuIds(menus)
  {
    Grow(menus, RouteRules, None, [])
  }

  function GeneratorMenu(menus: seq<Item>): seq<Tree>
    requires MenuIds(menus)
  {
    Grow(menus, TableRules, None, [])
  }

  /** A chain from a root to `x` on which all are enabled, `x` is a directory or page, all above are directories. */
  ghost predicate RouteChain(menus: seq<Item>, path: seq<Item>, x: Item) {
    && EndsChain(menus, path, x)
    && x.enabled && (x.kind == DIRECTORY || x.kind == PAGE)
    && forall i :: 0 <= i < |path| - 1 ==> path[i].enabled && path[i].kind == DIRECTORY
  }

  /** A chain from a root to `x` through directories and pages; a permission ends one, but not as a root. */
  ghost predicate TableChain(menus: seq<Item>, path: seq<Item>, x: Item) {
    && EndsChain(menus, path, x)
    && (x.kind == DIRECTORY || x.kind == PAGE || (x.kind == PERMISSION && |path| > 1))
    && forall i :: 0 <= i < |path| - 1 ==> (path[i].kind == DIRECTORY || path[i].kind == PAGE)
  }

  /** The routes are exactly the enabled directories and pages below enabled directories only, each once. */
  lemma RoutersEmit(menus: seq<Item>)
    requires MenuIds(menus)
    ensures NoDup(Preorder(GeneratorRouters(menus)))
    ensures forall x :: x in Preorder(GeneratorRouters(menus)) <==> exists path :: RouteChain(menus, path, x)
    ensures Linked(menus, RouteRules, GeneratorRouters(menus), None)
  {
    hide Preorder, Grow, Reached, Linked;
    assert Chain(menus, []);
    GrowOnce(menus, RouteRules, []);
    GrowLinked(menus, RouteRules, []);
    forall x ensures x in Preorder(GeneratorRouters(menus)) <==> exists path :: RouteChain(menus, path, x) {
      GrowHolds(menus, RouteRules, [], x);
      ReachedByRoutes(menus, x);
    }
  }

  lemma ReachedByRoutes(menus: seq<Item>, x: Item)
    ensures Reached(menus, RouteRules, [], x) <==> exists path :: RouteChain(menus, path, x)
  {
    hide Chain;
    forall q ensures ReachedThrough(menus, RouteRules, [], x, q) <==> RouteChain(menus, q, x) {
      assert [] + q == q;
      if q != [] && q[|q| - 1] == x { PassesRoutes(q, x); }
    }
  }

  lemma PassesRoutes(q: seq<Item>, x: Item)
    requires q != [] && q[|q| - 1] == x
    ensures Passes(RouteRules, q, x) <==>
              && x.enabled && (x.kind == DIRECTORY || x.kind == PAGE)
              && forall i :: 0 <= i < |q| - 1 ==> q[i].enabled && q[i].kind == DIRECTORY
  {
  }

  /** The table holds, enabled or not, exactly what lies below directories and pages only, each once. */
  lemma TableHolds(menus: seq<Item>)
    requires MenuIds(menus)
    ensures NoDup(Preorder(GeneratorMenu(menus)))
    ensures forall x :: x in Preorder(GeneratorMenu(menus)) <==> exists path :: TableChain(menus, path, x)
    ensures Linked(menus, TableRules, GeneratorMenu(menus), None)
  {
    hide Preorder, Grow, Reached, Linked;
    assert Chain(menus, []);
    GrowOnce(menus, TableRules, []);
    GrowLinked(menus, TableRules, []);
    forall x ensures x in Preorder(GeneratorMenu(menus)) <==> exists path :: TableChain(menus, path, x) {
      GrowHolds(menus, TableRules, [], x);
      ReachedInTable(menus, x);
    }
  }

  lemma ReachedInTable(menus: seq<Item>, x: Item)
    ensures Reached(menus, TableRules, [], x) <==> exists path :: TableChain(menus, path, x)
  {
    hide Chain;
    forall q ensures ReachedThrough(menus, TableRules, [], x, q) <==> TableChain(menus, q, x) {
      assert [] + q == q;
      if q != [] && q[|q| - 1] == x && Chain(menus, q) {
        RootHasNoParent(menus, q);
        PassesTable(q, x);
      }
    }
  }

  lemma RootHasNoParent(menus: seq<Item>, q: seq<Item>)
    requires Chain(menus, q) && q != []
    ensures q[|q| - 1].parentId.Some? <==> |q| > 1
  {
    if |q| > 1 { assert q[|q| - 1].parentId == Some(q[|q| - 2].id); }
  }

  lemma PassesTable(q: seq<Item>, x: Item)
    requires q != [] && q[|q| - 1] == x && (x.parentId.Some? <==> |q| > 1)
    ensures Passes(TableRules, q, x) <==>
              && (x.kind == DIRECTORY || x.kind == PAGE || (x.kind == PERMISSION && |q| > 1))
              && forall i :: 0 <= i < |q| - 1 ==> (q[i].kind == DIRECTORY || q[i].kind == PAGE)
  {
  }

  /** Every route also stands in the menu table. */
  lemma RoutesAreInTable(menus: seq<Item>, x: Item)
    requires MenuIds(menus) && x in Preorder(GeneratorRouters(menus))
    ensures x in Preorder(GeneratorMenu(menus))
  {
    hide Preorder, Grow;
    assert Chain(menus, []);
    GrowHolds(menus, RouteRules, [], x);
    GrowHolds(menus, TableRules, [], x);
    var q :| ReachedThrough(menus, RouteRules, [], x, q);
    assert ReachedThrough(menus, TableRules, [], x, q);
  }

  // ------------------------------------------------------------ the loop

  /** A route; `redirect` names the child route it redirects to. */
  datatype Route = Route(menu: Item, redirect: Option<nat>, children: seq<Route>)

  function Erase(rs: seq<Route>): (ts: seq<Tree>)
    ensures |ts| == |rs|
  {
    if rs == [] then [] else Erase(rs[..|rs| - 1]) + [Tree(rs[|rs| - 1].menu, Erase(rs[|rs| - 1].children))]
  }

  /** A route with children redirects to its first one, all others nowhere. */
  predicate Redirects(rs: seq<Route>) {
    forall i :: 0 <= i < |rs| ==>
      && rs[i].redirect == (if rs[i].children == [] then None else Some(rs[i].children[0].menu.id))
      && Redirects(rs[i].children)
  }

  lemma UnderStep(menus: seq<Item>, r: Rules, parent: Option<nat>, i: nat)
    requires i < |menus|
    ensures Under(menus[..i + 1], r, parent)
         == Under(menus[..i], r, parent) + if menus[i].parentId == parent && r.keep(menus[i]) then [menus[i]] else []
  {
    assert menus[..i + 1][..i] == menus[..i];
  }

  lemma {:induction false} GrowEachAppend(menus: seq<Item>, r: Rules, todo: seq<Item>, x: Item, path: seq<Item>)
    requires DistinctIds(menus) && Chain(menus, path)
    requires forall t :: t in todo + [x] ==> t in menus && t.parentId == ParentOf(path)
    ensures x in todo + [x] && Chain(menus, path + [x]) && forall t :: t in todo ==> t in todo + [x]
    ensures GrowEach(menus, r, todo + [x], ParentOf(path), path)
         == GrowEach(menus, r, todo, ParentOf(path), path)
          + [Tree(x, if r.open(x) then Grow(menus, r, Some(x.id), path + [x]) else [])]
  {
    hide Grow, GrowEach, Under, DistinctIds, Chain, ParentOf;
    var all := todo + [x];
    assert all[|todo|] == x;
    assert forall i :: 0 <= i < |todo| ==> all[i] == todo[i];
    ChainExtends(menus, path, x);
    var a, b := GrowEach(menus, r, all, ParentOf(path), path), GrowEach(menus, r, todo, ParentOf(path), path);
    forall i | 0 <= i < |todo| ensures a[i] == b[i] {
      GrowEachAt(menus, r, all, path, i);
      GrowEachAt(menus, r, todo, path, i);
    }
    GrowEachAt(menus, r, all, path, |todo|);
  }

  ghost function Below(menus: seq<Item>, menu: Item, path: seq<Item>): seq<Tree>
    requires DistinctIds(menus) && Chain(menus, path + [menu])
  {
    if IsDirectory(menu) then Grow(menus, RouteRules, Some(menu.id), path + [menu]) else []
  }

  lemma SkipMenu(menus: seq<Item>, parent: Option<nat>, i: nat)
    requires i < |menus|
    ensures !(menus[i].parentId == parent && IsRoute(menus[i]))
        ==> Under(menus[..i + 1], RouteRules, parent) == Under(menus[..i], RouteRules, parent)
  {
    UnderStep(menus, RouteRules, parent, i);
    assert RouteRules.keep(menus[i]) == IsRoute(menus[i]);
    assert Under(menus[..i], RouteRules, parent) + [] == Under(menus[..i], RouteRules, parent);
  }

  /** One more route pushed is one more tree grown. */
  lemma PushRoute(menus: seq<Item>, path: seq<Item>, i: nat, res: seq<Route>, route: Route)
    requires DistinctIds(menus) && Chain(menus, path) && i < |menus| && IsRoute(menus[i])
               && menus[i].parentId == ParentOf(path)
    requires Erase(res)
          == GrowEach(menus, RouteRules, Under(menus[..i], RouteRules, ParentOf(path)), ParentOf(path), path)
    requires Chain(menus, path + [menus[i]]) && route.menu == menus[i]
               && Erase(route.children) == Below(menus, menus[i], path)
    ensures Erase(res + [route])
         == GrowEach(menus, RouteRules, Under(menus[..i + 1], RouteRules, ParentOf(path)), ParentOf(path), path)
  {
    hide Grow, GrowEach, Under, Erase;
    UnderStep(menus, RouteRules, ParentOf(path), i);
    GrowEachAppend(menus, RouteRules, Under(menus[..i], RouteRules, ParentOf(path)), menus[i], path);
    EraseStep(res, route);
  }

  method MakeRoute(menus: seq<Item>, menu: Item, ghost path: seq<Item>) returns (route: Route)
    requires MenuIds(menus) && Chain(menus, path + [menu])
    ensures route.menu == menu && Erase(route.children) == Below(menus, menu, path)
    ensures Redirects([route])
    decreases |menus| - |path|, 0
  {
    hide Grow, Chain;
    var children: seq<Route> := [];
    if IsDirectory(menu) {
      ChainIsShort(menus, path + [menu]);
      children := FilterAsyncRoutes(menus, Some(menu), path + [menu]);
    }
    route := Route(menu, if |children| > 0 then Some(children[0].menu.id) else None, children);
  }

  method FilterAsyncRoutes(menus: seq<Item>, parent: Option<Item>, ghost path: seq<Item>) returns (res: seq<Route>)
    requires MenuIds(menus) && Chain(menus, path)
    requires parent == if path == [] then None else Some(path[|path| - 1])
    ensures Erase(res) == Grow(menus, RouteRules, ParentOf(path), path)
    ensures Redirects(res)
    decreases |menus| - |path|, 1
  {
    hide Grow, GrowEach, Under, Erase, Chain, Below, DistinctIds;
    res := [];
    EachNil(menus, path);
    var i := 0;
    while i < |menus|
      invariant 0 <= i <= |menus|
      invariant Erase(res)
             == GrowEach(menus, RouteRules, Under(menus[..i], RouteRules, ParentOf(path)), ParentOf(path), path)
      invariant Redirects(res)
    {
      var menu := menus[i];
      SkipMenu(menus, ParentOf(path), i);
      var here := if parent.None? then menu.parentId == None else menu.parentId == Some(parent.value.id);
      if menu.kind != PERMISSION && menu.enabled && here && (menu.kind == PAGE || menu.kind == DIRECTORY) {
        ChainExtends(menus, path, menu);
        var route := MakeRoute(menus, menu, path);
        PushRoute(menus, path, i, res, route);
        res := res + [route];
      }
      i := i + 1;
    }
    assert menus[..i] == menus;
    GrowIsEach(menus, path);
  }

  lemma EachNil(menus: seq<Item>, path: seq<Item>)
    requires DistinctIds(menus) && Chain(menus, path)
    ensures Under(menus[..0], RouteRules, ParentOf(path)) == [] && Erase([]) == []
    ensures GrowEach(menus, RouteRules, [], ParentOf(path), path) == []
  {
  }

  lemma GrowIsEach(menus: seq<Item>, path: seq<Item>)
    requires DistinctIds(menus) && Chain(menus, path)
    ensures Grow(menus, RouteRules, ParentOf(path), path)
         == GrowEach(menus, RouteRules, Under(menus, RouteRules, ParentOf(path)), ParentOf(path), path)
  {
  }

  lemma EraseStep(rs: seq<Route>, route: Route)
    ensures Erase(rs + [route]) == Erase(rs) + [Tree(route.menu, Erase(route.children))]
  {
    assert (rs + [route])[..|rs|] == rs;
  }

  // ------------------------------------------------------------ the loop of the menu table

  ghost function TableBelow(menus: seq<Item>, menu: Item, path: seq<Item>): seq<Tree>
    requires DistinctIds(menus) && Chain(menus, path + [menu])
  {
    if OpensInTable(menu) then Grow(menus, TableRules, Some(menu.id), path + [menu]) else []
  }

  lemma SkipEntry(menus: seq<Item>, parent: Option<nat>, i: nat)
    requires i < |menus|
    ensures !(menus[i].parentId == parent && InTable(menus[i]))
        ==> Under(menus[..i + 1], TableRules, parent) == Under(menus[..i], TableRules, parent)
  {
    UnderStep(menus, TableRules, parent, i);
    assert TableRules.keep(menus[i]) == InTable(menus[i]);
    assert Under(menus[..i], TableRules, parent) + [] == Under(menus[..i], TableRules, parent);
  }

  /** One more entry pushed is one more tree grown. */
  lemma PushEntry(menus: seq<Item>, path: seq<Item>, i: nat, res: seq<Tree>, children: seq<Tree>)
    requires DistinctIds(menus) && Chain(menus, path) && i < |menus| && InTable(menus[i])
               && menus[i].parentId == ParentOf(path)
    requires res == GrowEach(menus, TableRules, Under(menus[..i], TableRules, ParentOf(path)), ParentOf(path), path)
    requires Chain(menus, path + [menus[i]]) && children == TableBelow(menus, menus[i], path)
    ensures res + [Tree(menus[i], children)]
         == GrowEach(menus, TableRules, Under(menus[..i + 1], TableRules, ParentOf(path)), ParentOf(path), path)
  {
    hide Grow, GrowEach, Under;
    UnderStep(menus, TableRules, ParentOf(path), i);
    GrowEachAppend(menus, TableRules, Under(menus[..i], TableRules, ParentOf(path)), menus[i], path);
  }

  method TableChildren(menus: seq<Item>, menu: Item, ghost path: seq<Item>) returns (children: seq<Tree>)
    requires MenuIds(menus) && Chain(menus, path + [menu])
    ensures children == TableBelow(menus, menu, path)
    decreases |menus| - |path|, 0
  {
    hide Grow, Chain;
    children := [];
    if menu.kind == PAGE || menu.kind == DIRECTORY {
      ChainIsShort(menus, path + [menu]);
      children := FilterMenuToTable(menus, Some(menu), path + [menu]);
    }
  }

  method FilterMenuToTable(menus: seq<Item>, parent: Option<Item>, ghost path: seq<Item>) returns (res: seq<Tree>)
    requires MenuIds(menus) && Chain(menus, path)
    requires parent == if path == [] then None else Some(path[|path| - 1])
    ensures res == Grow(menus, TableRules, ParentOf(path), path)
    decreases |menus| - |path|, 1
  {
    hide Grow, GrowEach, Under, Chain, TableBelow, DistinctIds;
    res := [];
    TableNil(menus, path);
    var i := 0;
    while i < |menus|
      invariant 0 <= i <= |menus|
      invariant res == GrowEach(menus, TableRules, Under(menus[..i], TableRules, ParentOf(path)), ParentOf(path), path)
    {
      var menu := menus[i];
      SkipEntry(menus, ParentOf(path), i);
      var here := if parent.None? then menu.parentId == None else menu.parentId == Some(parent.value.id);
      if here && (menu.kind == PAGE || menu.kind == DIRECTORY || (menu.kind == PERMISSION && parent.Some?)) {
        ChainExtends(menus, path, menu);
        var children := TableChildren(menus, menu, path);
        PushEntry(menus, path, i, res, children);
        res := res + [Tree(menu, children)];
      }
      i := i + 1;
    }
    assert menus[..i] == menus;
    TableIsEach(menus, path);
  }

  lemma TableNil(menus: seq<Item>, path: seq<Item>)
    requires DistinctIds(menus) && Chain(menus, path)
    ensures Under(menus[..0], TableRules, ParentOf(path)) == []
    ensures GrowEach(menus, TableRules, [], ParentOf(path), path) == []
  {
  }

  lemma TableIsEach(menus: seq<Item>, path: seq<Item>)
    requires DistinctIds(menus) && Chain(menus, path)
    ensures Grow(menus, TableRules, ParentOf(path), path)
         == GrowEach(menus, TableRules, Under(menus, TableRules, ParentOf(path)), ParentOf(path), path)
  {
  }
}
