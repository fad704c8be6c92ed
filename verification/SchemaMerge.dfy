/** Merging the field lists that several captured responses suggest for one table. */
module SchemaMerge {
  import opened Common
  import opened OrderedMaps

  datatype Field = Field(name: string, ftype: string, nullable: bool, sample: Option<string>)

  const NULL := "null"

  // ------------------------------------------------------------ order by name

  /** `localeCompare`, as a total order on the names that occur. */
  ghost predicate TotalOrder(le: (string, string) -> bool) {
    && (forall x, y :: le(x, y) || le(y, x))
    && (forall x, y :: le(x, y) && le(y, x) ==> x == y)
    && (forall x, y, z :: le(x, y) && le(y, z) ==> le(x, z))
  }

  ghost predicate SortedBy<T>(le: (string, string) -> bool, key: T -> string, s: seq<T>) {
    forall i, j :: 0 <= i < j < |s| ==> le(key(s[i]), key(s[j])) && key(s[i]) != key(s[j])
  }

  /** No two elements with one key. */
  ghost predicate KeysDiffer<T>(key: T -> string, s: seq<T>) {
    forall i, j :: 0 <= i < j < |s| ==> key(s[i]) != key(s[j])
  }

  function Insert<T>(le: (string, string) -> bool, key: T -> string, x: T, s: seq<T>): seq<T> {
    if s == [] then [x] else if le(key(x), key(s[0])) then [x] + s else [s[0]] + Insert(le, key, x, s[1..])
  }

  function SortBy<T>(le: (string, string) -> bool, key: T -> string, s: seq<T>): seq<T> {
    if s == [] then [] else Insert(le, key, s[|s| - 1], SortBy(le, key, s[..|s| - 1]))
  }

  lemma {:induction false} InsertHolds<T>(le: (string, string) -> bool, key: T -> string, x: T, s: seq<T>, y: T)
    ensures y in Insert(le, key, x, s) <==> y == x || y in s
  {
    if s != [] {
      InsertHolds(le, key, x, s[1..], y);
      assert s == [s[0]] + s[1..];
    }
  }

  lemma {:induction false} InsertSorted<T>(le: (string, string) -> bool, key: T -> string, x: T, s: seq<T>)
    requires TotalOrder(le) && SortedBy(le, key, s)
    requires forall y :: y in s ==> key(y) != key(x)
    ensures SortedBy(le, key, Insert(le, key, x, s))
  {
    if s != [] && !le(key(x), key(s[0])) {
      var rest := Insert(le, key, x, s[1..]);
      InsertSorted(le, key, x, s[1..]);
      forall y | y in rest ensures le(key(s[0]), key(y)) && key(s[0]) != key(y) {
        InsertHolds(le, key, x, s[1..], y);
      }
      SortedFront(le, key, s[0], rest);
    } else if s != [] {
      forall y | y in s ensures le(key(x), key(y)) && key(x) != key(y) {
        var j :| 0 <= j < |s| && s[j] == y;
        assert j > 0 ==> le(key(s[0]), key(s[j]));
      }
      SortedFront(le, key, x, s);
    }
  }

  lemma SortedFront<T>(le: (string, string) -> bool, key: T -> string, x: T, s: seq<T>)
    requires SortedBy(le, key, s)
    requires forall y :: y in s ==> le(key(x), key(y)) && key(x) != key(y)
    ensures SortedBy(le, key, [x] + s)
  {
    var t := [x] + s;
    assert forall i :: 1 <= i < |t| ==> t[i] == s[i - 1] && t[i] in s;
  }

  lemma {:induction false} SortHolds<T>(le: (string, string) -> bool, key: T -> string, s: seq<T>, y: T)
    ensures y in SortBy(le, key, s) <==> y in s
  {
    if s != [] {
      var n := |s| - 1;
      SortHolds(le, key, s[..n], y);
      InsertHolds(le, key, s[n], SortBy(le, key, s[..n]), y);
      assert s == s[..n] + [s[n]];
    }
  }

  lemma {:induction false} SortSorts<T>(le: (string, string) -> bool, key: T -> string, s: seq<T>)
    requires TotalOrder(le) && KeysDiffer(key, s)
    ensures SortedBy(le, key, SortBy(le, key, s))
  {
    hide TotalOrder;
    if s != [] {
      var n := |s| - 1;
      SortSorts(le, key, s[..n]);
      var sorted := SortBy(le, key, s[..n]);
      forall y | y in sorted ensures key(y) != key(s[n]) {
        SortHolds(le, key, s[..n], y);
      }
      InsertSorted(le, key, s[n], sorted);
    }
  }

  // ------------------------------------------------------------ the field of a name

  function FieldName(f: Field): string {
    f.name
  }

  function First(fs: seq<Field>, name: string): Option<Field> {
    if fs == [] then None else if fs[0].name == name then Some(fs[0]) else First(fs[1..], name)
  }

  function FirstTyped(fs: seq<Field>, name: string): Option<Field> {
    if fs == [] then None
    else if fs[0].name == name && fs[0].ftype != NULL then Some(fs[0])
    else FirstTyped(fs[1..], name)
  }

  /** The first entry for a name whose type is not 'null', else its first entry. */
  function Best(fs: seq<Field>, name: string): Option<Field> {
    if FirstTyped(fs, name).Some? then FirstTyped(fs, name) else First(fs, name)
  }

  /** The entry has the name, with a type if `typed`, and no entry before it does. */
  predicate FirstSuch(fs: seq<Field>, name: string, typed: bool, i: nat) {
    && i < |fs| && fs[i].name == name && (typed ==> fs[i].ftype != "null")
    && forall j :: 0 <= j < i ==> !(fs[j].name == name && (typed ==> fs[j].ftype != "null"))
  }

  lemma {:induction false} FirstIs(fs: seq<Field>, name: string)
    ensures First(fs, name).None? ==> forall j :: 0 <= j < |fs| ==> fs[j].name != name
    ensures First(fs, name).Some? ==> exists i: nat :: FirstSuch(fs, name, false, i) && fs[i] == First(fs, name).value
  {
    if fs != [] {
      if fs[0].name == name {
        assert FirstSuch(fs, name, false, 0);
      } else {
        FirstIs(fs[1..], name);
        assert forall j :: 1 <= j < |fs| ==> fs[j] == fs[1..][j - 1];
        if First(fs, name).Some? {
          var i: nat :| FirstSuch(fs[1..], name, false, i) && fs[1..][i] == First(fs, name).value;
          assert FirstSuch(fs, name, false, i + 1);
        }
      }
    }
  }

  lemma {:induction false} FirstTypedIs(fs: seq<Field>, name: string)
    ensures FirstTyped(fs, name).None? ==> forall j :: 0 <= j < |fs| ==> !(fs[j].name == name && fs[j].ftype != "null")
    ensures FirstTyped(fs, name).Some? ==>
              exists i: nat :: FirstSuch(fs, name, true, i) && fs[i] == FirstTyped(fs, name).value
  {
    if fs != [] {
      if fs[0].name == name && fs[0].ftype != NULL {
        assert FirstSuch(fs, name, true, 0);
      } else {
        FirstTypedIs(fs[1..], name);
        assert forall j :: 1 <= j < |fs| ==> fs[j] == fs[1..][j - 1];
        if FirstTyped(fs, name).Some? {
          var i: nat :| FirstSuch(fs[1..], name, true, i) && fs[1..][i] == FirstTyped(fs, name).value;
          assert FirstSuch(fs, name, true, i + 1);
        }
      }
    }
  }

  /** The choice for a name: its first entry with a type other than 'null', or its first one if all are 'null'. */
  lemma BestIs(fs: seq<Field>, name: string)
    ensures Best(fs, name).None? <==> forall j :: 0 <= j < |fs| ==> fs[j].name != name
    ensures Best(fs, name).Some? ==>
              var typed := exists j :: 0 <= j < |fs| && fs[j].name == name && fs[j].ftype != "null";
              exists i: nat :: FirstSuch(fs, name, typed, i) && fs[i] == Best(fs, name).value
  {
    hide First, FirstTyped;
    FirstIs(fs, name);
    FirstTypedIs(fs, name);
  }

  /** What two lists' choices for one name come to. */
  function Either(x: Option<Field>, y: Option<Field>): Option<Field> {
    if x.None? || (x.value.ftype == NULL && y.Some? && y.value.ftype != NULL) then y else x
  }

  lemma {:induction false} FirstAppend(a: seq<Field>, b: seq<Field>, name: string)
    ensures First(a + b, name) == if First(a, name).Some? then First(a, name) else First(b, name)
    ensures FirstTyped(a + b, name) == if FirstTyped(a, name).Some? then FirstTyped(a, name) else FirstTyped(b, name)
  {
    if a == [] {
      assert a + b == b;
    } else {
      assert (a + b)[1..] == a[1..] + b;
      FirstAppend(a[1..], b, name);
    }
  }

  lemma {:induction false} FirstKinds(fs: seq<Field>, name: string)
    ensures FirstTyped(fs, name).Some? ==> FirstTyped(fs, name).value.ftype != NULL && First(fs, name).Some?
    ensures First(fs, name).Some? && FirstTyped(fs, name).None? ==> First(fs, name).value.ftype == NULL
    ensures Best(fs, name).Some? ==> Best(fs, name).value in fs && Best(fs, name).value.name == name
    ensures Best(fs, name).None? ==> forall f :: f in fs ==> f.name != name
  {
    hide NULL;
    if fs != [] { FirstKinds(fs[1..], name); }
  }

  lemma BestAppend(a: seq<Field>, b: seq<Field>, name: string)
    ensures Best(a + b, name) == Either(Best(a, name), Best(b, name))
  {
    hide First, FirstTyped, NULL;
    FirstAppend(a, b, name);
    FirstKinds(a, name);
    FirstKinds(b, name);
  }

  /** With one entry a name, the choice is that entry. */
  lemma BestOfDistinct(fs: seq<Field>, f: Field)
    requires KeysDiffer(FieldName, fs) && f in fs
    ensures Best(fs, f.name) == Some(f)
  {
    hide First, FirstTyped, NULL;
    FirstKinds(fs, f.name);
    var g := Best(fs, f.name).value;
    var i :| 0 <= i < |fs| && fs[i] == f;
    var j :| 0 <= j < |fs| && fs[j] == g;
    assert FieldName(fs[i]) == FieldName(fs[j]);
  }

  // ------------------------------------------------------------ mergeFields

  /** `r` lists, by name and once each, the best entries of `fs`. */
  ghost predicate IsMerge(le: (string, string) -> bool, fs: seq<Field>, r: seq<Field>) {
    SortedBy(le, FieldName, r) && forall name :: Best(r, name) == Best(fs, name)
  }

  /** The map of the loop: the best entry of every name seen. */
  ghost predicate Keeps(m: OMap<string, Field>, fs: seq<Field>) {
    && m.Valid()
    && (forall name :: Best(fs, name) == if name in m.vals then Some(m.vals[name]) else None)
  }

  lemma KeepsStep(m: OMap<string, Field>, fs: seq<Field>, f: Field)
    requires Keeps(m, fs)
    ensures var better := f.name !in m.vals || (m.vals[f.name].ftype == NULL && f.ftype != NULL);
            Keeps(if better then m.Set(f.name, f) else m, fs + [f])
  {
    hide Best, NULL, m.Valid;
    forall name ensures Best(fs + [f], name) == Either(Best(fs, name), if name == f.name then Some(f) else None) {
      BestAppend(fs, [f], name);
      BestOne(f, name);
    }
  }

  lemma BestOne(f: Field, name: string)
    ensures Best([f], name) == if name == f.name then Some(f) else None
  {
    assert [f][1..] == [];
    assert First([], name).None? && FirstTyped([], name).None?;
  }

  /** `[...map.values()]`. */
  method Values<T>(m: OMap<string, T>, key: T -> string) returns (vs: seq<T>)
    requires m.Valid() && forall k :: k in m.vals ==> key(m.vals[k]) == k
    ensures KeysDiffer(key, vs)
    ensures forall v :: v in vs <==> key(v) in m.vals && m.vals[key(v)] == v
  {
    vs := [];
    var i := 0;
    while i < |m.keys|
      invariant 0 <= i <= |m.keys| && |vs| == i
      invariant forall j :: 0 <= j < i ==> m.keys[j] in m.vals && vs[j] == m.vals[m.keys[j]]
    {
      assert m.keys[i] in Elements(m.keys);
      vs := vs + [m.vals[m.keys[i]]];
      i := i + 1;
    }
    forall v | key(v) in m.vals && m.vals[key(v)] == v ensures v in vs {
      assert key(v) in Elements(m.keys);
      var j :| 0 <= j < |m.keys| && m.keys[j] == key(v);
      assert vs[j] == v;
    }
  }

  lemma EntryIsNamed(m: OMap<string, Field>, fs: seq<Field>)
    requires Keeps(m, fs)
    ensures forall k :: k in m.vals ==> FieldName(m.vals[k]) == k
  {
    hide Best, m.Valid;
    forall k | k in m.vals ensures m.vals[k].name == k {
      assert Best(fs, k) == Some(m.vals[k]);
      FirstKinds(fs, k);
    }
  }

  lemma SortedKeysDiffer<T>(le: (string, string) -> bool, key: T -> string, s: seq<T>)
    requires SortedBy(le, key, s)
    ensures KeysDiffer(key, s)
  {
  }

  lemma SortedIsMerge(le: (string, string) -> bool, m: OMap<string, Field>, fs: seq<Field>, vs: seq<Field>)
    requires TotalOrder(le) && Keeps(m, fs) && KeysDiffer(FieldName, vs)
    requires forall v :: v in vs <==> FieldName(v) in m.vals && m.vals[FieldName(v)] == v
    ensures IsMerge(le, fs, SortBy(le, FieldName, vs))
  {
    hide Best, TotalOrder, SortedBy, SortBy, KeysDiffer, m.Valid;
    var r := SortBy(le, FieldName, vs);
    SortSorts(le, FieldName, vs);
    SortedKeysDiffer(le, FieldName, r);
    EntryIsNamed(m, fs);
    forall name ensures Best(r, name) == Best(fs, name) {
      if name in m.vals {
        SortHolds(le, FieldName, vs, m.vals[name]);
        BestOfDistinct(r, m.vals[name]);
      } else if Best(r, name).Some? {
        FirstKinds(r, name);
        SortHolds(le, FieldName, vs, Best(r, name).value);
        assert false;
      }
    }
  }

  method MergeFields(le: (string, string) -> bool, a: seq<Field>, b: seq<Field>) returns (r: seq<Field>)
    requires TotalOrder(le)
    ensures IsMerge(le, a + b, r)
  {
    hide TotalOrder, Keeps, NULL, IsMerge, KeysDiffer, Best;
    var fs := a + b;
    var m: OMap<string, Field> := Empty();
    var i := 0;
    NothingKept();
    assert fs[..0] == [];
    while i < |fs|
      invariant 0 <= i <= |fs|
      invariant Keeps(m, fs[..i])
    {
      var f := fs[i];
      KeepsStep(m, fs[..i], f);
      assert fs[..i + 1] == fs[..i] + [f];
      if f.name !in m.vals || (m.vals[f.name].ftype == NULL && f.ftype != NULL) {
        m := m.Set(f.name, f);
      }
      i := i + 1;
    }
    assert fs[..i] == fs;
    EntryIsNamed(m, fs);
    assert m.Valid() by { KeepsValid(m, fs); }
    var vs := Values(m, FieldName);
    SortedIsMerge(le, m, fs, vs);
    r := SortBy(le, FieldName, vs);
  }

  lemma NothingKept()
    ensures Keeps(Empty(), [])
  {
  }

  lemma KeepsValid(m: OMap<string, Field>, fs: seq<Field>)
    requires Keeps(m, fs)
    ensures m.Valid()
  {
  }

  // ------------------------------------------------------------ laws of mergeFields

  lemma SameSuffix(le: (string, string) -> bool, r: seq<Field>)
    requires SortedBy(le, FieldName, r) && r != []
    ensures SortedBy(le, FieldName, r[1..])
    ensures Best(r, r[0].name) == Some(r[0])
    ensures forall f :: f in r ==> le(r[0].name, f.name) || f == r[0]
    ensures forall name :: Best(r[1..], name) == if name == r[0].name then None else Best(r, name)
  {
    hide First, FirstTyped, NULL, Best;
    SortedKeysDiffer(le, FieldName, r);
    BestOfDistinct(r, r[0]);
    assert r == [r[0]] + r[1..];
    forall f | f in r[1..] ensures FieldName(f) != FieldName(r[0]) {
      var j :| 0 <= j < |r| - 1 && r[1..][j] == f;
      assert f == r[j + 1];
    }
    forall name ensures Best(r[1..], name) == if name == r[0].name then None else Best(r, name) {
      BestAppend([r[0]], r[1..], name);
      BestOne(r[0], name);
      FirstKinds(r[1..], name);
    }
    forall f | f in r ensures le(r[0].name, f.name) || f == r[0] {
      var j :| 0 <= j < |r| && r[j] == f;
      assert j > 0 ==> le(FieldName(r[0]), FieldName(r[j]));
    }
  }

  /** The rule leaves no freedom: the merge of a list is unique. */
  lemma {:induction false} MergeIsUnique(le: (string, string) -> bool, fs: seq<Field>, gs: seq<Field>, r: seq<Field>,
        s: seq<Field>)
    requires TotalOrder(le) && IsMerge(le, fs, r) && IsMerge(le, gs, s)
    requires forall name :: Best(fs, name) == Best(gs, name)
    ensures r == s
    decreases |r|
  {
    hide Best, SortedBy;
    if r == [] || s == [] {
      EmptyBest(r, s);
    } else {
      SameSuffix(le, r);
      SameSuffix(le, s);
      SameHead(le, r, s);
      assert r[0] == s[0];
      MergeIsUnique(le, r[1..], s[1..], r[1..], s[1..]);
      assert r == [r[0]] + r[1..] && s == [s[0]] + s[1..];
    }
  }

  lemma EmptyBest(r: seq<Field>, s: seq<Field>)
    requires r == [] || s == []
    requires forall name :: Best(r, name) == Best(s, name)
    ensures r == [] && s == []
  {
    hide First, FirstTyped;
    if r != [] {
      FirstKinds(r, r[0].name);
      FirstKinds([], r[0].name);
    }
    if s != [] {
      FirstKinds(s, s[0].name);
      FirstKinds([], s[0].name);
    }
  }

  lemma SameHead(le: (string, string) -> bool, r: seq<Field>, s: seq<Field>)
    requires TotalOrder(le) && r != [] && s != []
    requires Best(r, r[0].name) == Some(r[0]) && Best(s, s[0].name) == Some(s[0])
    requires forall f :: f in r ==> le(r[0].name, f.name) || f == r[0]
    requires forall f :: f in s ==> le(s[0].name, f.name) || f == s[0]
    requires forall name :: Best(r, name) == Best(s, name)
    ensures r[0] == s[0]
  {
    hide Best;
    assert Best(s, r[0].name) == Some(r[0]) && Best(r, s[0].name) == Some(s[0]);
    FirstKinds(s, r[0].name);
    FirstKinds(r, s[0].name);
    assert le(s[0].name, r[0].name) || r[0] == s[0];
    assert le(r[0].name, s[0].name) || r[0] == s[0];
  }

  /** Merging is associative: the grouping of the responses does not matter. */
  lemma MergeIsAssociative(le: (string, string) -> bool, a: seq<Field>, b: seq<Field>, c: seq<Field>,
                           ab: seq<Field>, bc: seq<Field>, left: seq<Field>, right: seq<Field>)
    requires TotalOrder(le)
    requires IsMerge(le, a + b, ab) && IsMerge(le, ab + c, left)
    requires IsMerge(le, b + c, bc) && IsMerge(le, a + bc, right)
    ensures left == right
  {
    hide Best, SortedBy, NULL, TotalOrder;
    forall name ensures Best(ab + c, name) == Best(a + bc, name) {
      BestAppend(ab, c, name);
      BestAppend(a, b, name);
      BestAppend(a, bc, name);
      BestAppend(b, c, name);
    }
    MergeIsUnique(le, ab + c, a + bc, left, right);
  }

  /** Merging what has been merged with itself, or with what went into it, changes nothing. */
  lemma MergeIsIdempotent(le: (string, string) -> bool, a: seq<Field>, b: seq<Field>, ab: seq<Field>, again: seq<Field>)
    requires TotalOrder(le) && IsMerge(le, a + b, ab)
    requires IsMerge(le, ab + ab, again) || IsMerge(le, ab + a, again) || IsMerge(le, ab + b, again)
    ensures again == ab
  {
    hide Best, SortedBy, NULL, TotalOrder;
    forall name
      ensures Best(ab + ab, name) == Best(ab, name) && Best(ab + a, name) == Best(ab, name)
                && Best(ab + b, name) == Best(ab, name) {
      BestAppend(ab, ab, name);
      BestAppend(a, b, name);
      BestAppend(ab, a, name);
      BestAppend(ab, b, name);
    }
    assert IsMerge(le, ab, ab);
    if IsMerge(le, ab + ab, again) { MergeIsUnique(le, ab + ab, ab, again, ab); }
    else if IsMerge(le, ab + a, again) { MergeIsUnique(le, ab + a, ab, again, ab); }
    else { MergeIsUnique(le, ab + b, ab, again, ab); }
  }

  // ------------------------------------------------------------ buildMergedTables

  datatype Kind = Read | Mutation | Unknown

  /** A table suggested by an array inside a response. */
  datatype Nested = Nested(table: string, arrayKey: string, fields: seq<Field>)

  /** A captured response; an empty `table` is no suggestion. `nested` is what its data suggests besides. */
  datatype Entity = Entity(route: string, table: string, fields: seq<Field>, kind: Kind, nested: seq<Nested>)

  datatype Table = Table(table: string, sourceRoutes: seq<string>, fields: seq<Field>, kind: Kind,
        nestedFrom: seq<string>)

  /** One contribution to a table: by an entity itself, or by an array inside it. */
  datatype Part =
    | Top(table: string, route: string, fields: seq<Field>, kind: Kind)
    | Inner(table: string, route: string, fields: seq<Field>, arrayKey: string)

  const ARROW := " \U{2192} "

  function TableName(t: Table): string {
    t.table
  }

  predicate Used(e: Entity) {
    e.table != "" && e.fields != []
  }

  function TopOf(e: Entity): Part {
    Top(e.table, e.route, e.fields, e.kind)
  }

  function InnerOf(e: Entity, n: Nested): Part {
    Inner(n.table, e.route + ARROW + n.arrayKey, n.fields, n.arrayKey)
  }

  function InnersOf(e: Entity, ns: seq<Nested>): seq<Part> {
    if ns == [] then [] else InnersOf(e, ns[..|ns| - 1]) + [InnerOf(e, ns[|ns| - 1])]
  }

  function PartsOf(e: Entity): seq<Part> {
    if Used(e) then [TopOf(e)] + InnersOf(e, e.nested) else []
  }

  /** Every contribution, in the order the responses were captured. */
  function Parts(es: seq<Entity>): seq<Part> {
    if es == [] then [] else Parts(es[..|es| - 1]) + PartsOf(es[|es| - 1])
  }

  /** The contributions to one table. */
  function To(ps: seq<Part>, table: string): seq<Part> {
    if ps == [] then [] else To(ps[..|ps| - 1], table) + if ps[|ps| - 1].table == table then [ps[|ps| - 1]] else []
  }

  function AllFields(ps: seq<Part>): seq<Field> {
    if ps == [] then [] else AllFields(ps[..|ps| - 1]) + ps[|ps| - 1].fields
  }

  function Routes(ps: seq<Part>): seq<string> {
    if ps == [] then [] else Routes(ps[..|ps| - 1]) + [ps[|ps| - 1].route]
  }

  function ArrayKeys(ps: seq<Part>): seq<string> {
    if ps == [] then [] else ArrayKeys(ps[..|ps| - 1]) + if ps[|ps| - 1].Inner? then [ps[|ps| - 1].arrayKey] else []
  }

  /** A mutation anywhere wins; otherwise the first contribution decides. */
  ghost function KindOf(ps: seq<Part>): Kind
    requires ps != []
  {
    if exists i :: 0 <= i < |ps| && ps[i].Top? && ps[i].kind.Mutation? then Mutation
    else if ps[0].Top? then ps[0].kind
    else Read
  }

  /** The table gathers exactly these contributions; a single one's fields are taken over as they are. */
  ghost predicate Gathers(le: (string, string) -> bool, t: Table, ps: seq<Part>) {
    && ps != []
    && t.sourceRoutes == Routes(ps)
    && t.nestedFrom == ArrayKeys(ps)
    && t.kind == KindOf(ps)
    && (if |ps| == 1 then t.fields == ps[0].fields else IsMerge(le, AllFields(ps), t.fields))
  }

  ghost predicate Built(le: (string, string) -> bool, m: OMap<string, Table>, ps: seq<Part>) {
    && m.Valid()
    && (forall k :: k in m.vals <==> To(ps, k) != [])
    && (forall k :: k in m.vals ==> m.vals[k].table == k && Gathers(le, m.vals[k], To(ps, k)))
  }

  lemma ToStep(ps: seq<Part>, p: Part, k: string)
    ensures To(ps + [p], k) == To(ps, k) + if p.table == k then [p] else []
  {
    assert (ps + [p])[..|ps|] == ps;
  }

  lemma TextStep(ps: seq<Part>, p: Part)
    ensures AllFields(ps + [p]) == AllFields(ps) + p.fields
    ensures Routes(ps + [p]) == Routes(ps) + [p.route]
    ensures ArrayKeys(ps + [p]) == ArrayKeys(ps) + if p.Inner? then [p.arrayKey] else []
  {
    assert (ps + [p])[..|ps|] == ps;
  }

  lemma KindStep(ps: seq<Part>, p: Part)
    requires ps != []
    ensures KindOf(ps + [p]) == if p.Top? && p.kind.Mutation? then Mutation else KindOf(ps)
  {
    var qs := ps + [p];
    assert qs[|ps|] == p && qs[0] == ps[0];
    assert forall i :: 0 <= i < |ps| ==> qs[i] == ps[i];
  }

  /** However the fields came about, they choose as all the contributions together do. */
  lemma GatheredBest(le: (string, string) -> bool, t: Table, ps: seq<Part>, name: string)
    requires Gathers(le, t, ps)
    ensures Best(t.fields, name) == Best(AllFields(ps), name)
  {
    hide Best, SortedBy;
    if |ps| == 1 {
      assert ps[..0] == [];
      assert AllFields(ps) == [] + ps[0].fields;
      assert [] + ps[0].fields == ps[0].fields;
    }
  }

  lemma GathersOne(le: (string, string) -> bool, t: Table, p: Part)
    requires t.sourceRoutes == [p.route] && t.fields == p.fields
    requires t.kind == (if p.Top? then p.kind else Read)
    requires t.nestedFrom == (if p.Inner? then [p.arrayKey] else [])
    ensures Gathers(le, t, [p])
  {
    TextStep([], p);
    assert [] + [p] == [p];
    assert Routes([]) == [] && ArrayKeys([]) == [];
  }

  lemma GathersMore(le: (string, string) -> bool, t: Table, ps: seq<Part>, t': Table, p: Part)
    requires Gathers(le, t, ps)
    requires t'.sourceRoutes == t.sourceRoutes + [p.route] && IsMerge(le, t.fields + p.fields, t'.fields)
    requires t'.kind == if p.Top? && p.kind.Mutation? then Mutation else t.kind
    requires t'.nestedFrom == t.nestedFrom + if p.Inner? then [p.arrayKey] else []
    ensures Gathers(le, t', ps + [p])
  {
    hide Best, SortedBy, KindOf;
    TextStep(ps, p);
    KindStep(ps, p);
    forall name ensures Best(t.fields + p.fields, name) == Best(AllFields(ps + [p]), name) {
      GatheredBest(le, t, ps, name);
      BestAppend(t.fields, p.fields, name);
      BestAppend(AllFields(ps), p.fields, name);
    }
  }

  /** One contribution joins its table, or starts it. */
  method AddPart(le: (string, string) -> bool, byTable: OMap<string, Table>, p: Part, ghost ps: seq<Part>)
    returns (added: OMap<string, Table>)
    requires TotalOrder(le) && Built(le, byTable, ps)
    ensures Built(le, added, ps + [p])
  {
    hide TotalOrder, Gathers, IsMerge;
    var t;
    if p.table in byTable.vals {
      var prev := byTable.vals[p.table];
      var fields := MergeFields(le, prev.fields, p.fields);
      match p {
        case Top(_, route, _, kind) =>
          t := Table(prev.table, prev.sourceRoutes + [route], fields,
                     if kind == Mutation then Mutation else prev.kind, prev.nestedFrom);
        case Inner(_, route, _, arrayKey) =>
          t := Table(prev.table, prev.sourceRoutes + [route], fields, prev.kind, prev.nestedFrom + [arrayKey]);
      }
      assert p.Top? ==> prev.nestedFrom + [] == prev.nestedFrom;
      GathersMore(le, prev, To(ps, p.table), t, p);
    } else {
      match p {
        case Top(table, route, fields, kind) => t := Table(table, [route], fields, kind, []);
        case Inner(table, route, fields, arrayKey) => t := Table(table, [route], fields, Read, [arrayKey]);
      }
      assert To(ps, p.table) + [p] == [p];
      GathersOne(le, t, p);
    }
    added := byTable.Set(p.table, t);
    BuiltStep(le, byTable, ps, p, t);
  }

  lemma BuiltStep(le: (string, string) -> bool, m: OMap<string, Table>, ps: seq<Part>, p: Part, t: Table)
    requires Built(le, m, ps) && t.table == p.table && Gathers(le, t, To(ps, p.table) + [p])
    ensures Built(le, m.Set(p.table, t), ps + [p])
  {
    hide Gathers, To, m.Valid;
    var m' := m.Set(p.table, t);
    forall k ensures To(ps + [p], k) == if k == p.table then To(ps, k) + [p] else To(ps, k) {
      ToStep(ps, p, k);
    }
  }

  /** The inner loop: the arrays of one response. */
  method AddInners(le: (string, string) -> bool, byTable: OMap<string, Table>, e: Entity, ghost ps: seq<Part>)
    returns (added: OMap<string, Table>)
    requires TotalOrder(le) && Built(le, byTable, ps)
    ensures Built(le, added, ps + InnersOf(e, e.nested))
  {
    hide TotalOrder, Built, InnerOf;
    added := byTable;
    var i := 0;
    assert ps + InnersOf(e, e.nested[..0]) == ps;
    while i < |e.nested|
      invariant 0 <= i <= |e.nested|
      invariant Built(le, added, ps + InnersOf(e, e.nested[..i]))
    {
      var n := e.nested[i];
      assert e.nested[..i + 1][..i] == e.nested[..i];
      assert ps + InnersOf(e, e.nested[..i + 1]) == ps + InnersOf(e, e.nested[..i]) + [InnerOf(e, n)];
      added := AddPart(le, added, InnerOf(e, n), ps + InnersOf(e, e.nested[..i]));
      i := i + 1;
    }
    assert e.nested[..i] == e.nested;
  }

  lemma NothingBuilt(le: (string, string) -> bool)
    ensures Built(le, Empty(), [])
  {
  }

  method GatherTables(le: (string, string) -> bool, entities: seq<Entity>) returns (byTable: OMap<string, Table>)
    requires TotalOrder(le)
    ensures Built(le, byTable, Parts(entities))
  {
    hide TotalOrder, Built, InnersOf, Used, TopOf;
    byTable := Empty();
    var i := 0;
    NothingBuilt(le);
    assert Parts(entities[..0]) == [];
    while i < |entities|
      invariant 0 <= i <= |entities|
      invariant Built(le, byTable, Parts(entities[..i]))
    {
      var e := entities[i];
      ghost var ps := Parts(entities[..i]);
      assert entities[..i + 1][..i] == entities[..i];
      if Used(e) {
        byTable := AddPart(le, byTable, TopOf(e), ps);
        byTable := AddInners(le, byTable, e, ps + [TopOf(e)]);
        assert ps + [TopOf(e)] + InnersOf(e, e.nested) == ps + PartsOf(e);
      } else {
        assert ps + PartsOf(e) == ps;
      }
      i := i + 1;
    }
    assert entities[..i] == entities;
  }

  lemma BuiltNames(le: (string, string) -> bool, m: OMap<string, Table>, ps: seq<Part>)
    requires Built(le, m, ps)
    ensures m.Valid() && forall k :: k in m.vals ==> TableName(m.vals[k]) == k
  {
    hide Gathers;
  }

  /** Sorted by name, one table for every name contributed to, gathering all its contributions. */
  method BuildMergedTables(le: (string, string) -> bool, entities: seq<Entity>) returns (tables: seq<Table>)
    requires TotalOrder(le)
    ensures SortedBy(le, TableName, tables)
    ensures forall k :: To(Parts(entities), k) != [] <==> exists t :: t in tables && t.table == k
    ensures forall t :: t in tables ==> Gathers(le, t, To(Parts(entities), t.table))
  {
    hide TotalOrder, Built, Gathers, SortedBy, SortBy, KeysDiffer, To, Parts;
    var byTable := GatherTables(le, entities);
    BuiltNames(le, byTable, Parts(entities));
    var vs := Values(byTable, TableName);
    tables := SortBy(le, TableName, vs);
    SortSorts(le, TableName, vs);
    forall t ensures t in tables <==> t in vs { SortHolds(le, TableName, vs, t); }
    TablesGather(le, byTable, Parts(entities), tables);
  }

  lemma TablesGather(le: (string, string) -> bool, m: OMap<string, Table>, ps: seq<Part>, tables: seq<Table>)
    requires Built(le, m, ps)
    requires forall t :: t in tables <==> TableName(t) in m.vals && m.vals[TableName(t)] == t
    ensures forall k :: To(ps, k) != [] <==> exists t :: t in tables && t.table == k
    ensures forall t :: t in tables ==> Gathers(le, t, To(ps, t.table))
  {
    hide Gathers, To, m.Valid;
    forall k | k in m.vals ensures exists t :: t in tables && t.table == k {
      assert TableName(m.vals[k]) == k;
      assert m.vals[k] in tables;
    }
  }

  // ------------------------------------------------------------ what contributes

  /** A response with a table and fields contributes itself and what its arrays suggest; any other nothing at all. */
  ghost predicate Contributes(e: Entity, p: Part) {
    && e.table != "" && e.fields != []
    && (p == Top(e.table, e.route, e.fields, e.kind)
        || exists n :: n in e.nested && p == Inner(n.table, e.route + " \U{2192} " + n.arrayKey, n.fields, n.arrayKey))
  }

  lemma {:induction false} InnersIff(e: Entity, ns: seq<Nested>, p: Part)
    ensures p in InnersOf(e, ns) <==> exists n :: n in ns && p == InnerOf(e, n)
  {
    hide InnerOf;
    if ns != [] {
      InnersIff(e, ns[..|ns| - 1], p);
      assert ns == ns[..|ns| - 1] + [ns[|ns| - 1]];
    }
  }

  lemma PartsOfIff(e: Entity, p: Part)
    ensures p in PartsOf(e) <==> Contributes(e, p)
  {
    InnersIff(e, e.nested, p);
  }

  /** The contributions to a table are exactly those of the captured responses that are for it. */
  lemma {:induction false} ContributionsIff(es: seq<Entity>, table: string, p: Part)
    ensures p in To(Parts(es), table) <==> p.table == table && exists e :: e in es && Contributes(e, p)
  {
    hide PartsOf, Contributes, To;
    ToHolds(Parts(es), table, p);
    if es != [] {
      var front, last := es[..|es| - 1], es[|es| - 1];
      ContributionsIff(front, table, p);
      ToHolds(Parts(front), table, p);
      PartsOfIff(last, p);
      assert es == front + [last];
    }
  }

  /** They come in the order of the responses: what was captured later goes behind. */
  lemma {:induction false} ContributionsInOrder(a: seq<Entity>, b: seq<Entity>, table: string)
    ensures To(Parts(a + b), table) == To(Parts(a), table) + To(Parts(b), table)
  {
    hide PartsOf, To;
    if b == [] {
      assert a + b == a;
      assert To(Parts(b), table) == [] by { ToNothing(table); }
    } else {
      var front, last := b[..|b| - 1], b[|b| - 1];
      ContributionsInOrder(a, front, table);
      assert (a + b)[..|a + b| - 1] == a + front;
      ToAppend(Parts(a + front), PartsOf(last), table);
      ToAppend(Parts(front), PartsOf(last), table);
      AppendAssoc(To(Parts(a), table), To(Parts(front), table), To(PartsOf(last), table));
    }
  }

  lemma ToNothing(table: string)
    ensures To([], table) == []
  {
  }

  lemma {:induction false} ToAppend(a: seq<Part>, b: seq<Part>, table: string)
    ensures To(a + b, table) == To(a, table) + To(b, table)
  {
    if b == [] {
      assert a + b == a;
    } else {
      assert (a + b)[..|a + b| - 1] == a + b[..|b| - 1];
      ToAppend(a, b[..|b| - 1], table);
    }
  }

  /** The arrays of one response follow it, in their order. */
  lemma ContributionsOfOne(e: Entity, table: string)
    requires e.table != "" && e.fields != []
    ensures |PartsOf(e)| == 1 + |e.nested| && PartsOf(e)[0].Top?
    ensures forall i :: 0 <= i < |e.nested| ==>
              PartsOf(e)[i + 1].Inner? && PartsOf(e)[i + 1].table == e.nested[i].table
              && PartsOf(e)[i + 1].arrayKey == e.nested[i].arrayKey && PartsOf(e)[i + 1].fields == e.nested[i].fields
  {
    InnersAt(e, e.nested);
  }

  lemma {:induction false} InnersAt(e: Entity, ns: seq<Nested>)
    ensures |InnersOf(e, ns)| == |ns| && forall i :: 0 <= i < |ns| ==> InnersOf(e, ns)[i] == InnerOf(e, ns[i])
  {
    hide InnerOf;
    if ns != [] { InnersAt(e, ns[..|ns| - 1]); }
  }

  // ------------------------------------------------------------ what a table says

  lemma {:induction false} ToHolds(ps: seq<Part>, k: string, p: Part)
    ensures p in To(ps, k) <==> p in ps && p.table == k
  {
    if ps != [] {
      ToHolds(ps[..|ps| - 1], k, p);
      assert ps == ps[..|ps| - 1] + [ps[|ps| - 1]];
    }
  }

  lemma {:induction false} InnersAreInner(e: Entity, ns: seq<Nested>, p: Part)
    requires p in InnersOf(e, ns)
    ensures p.Inner?
  {
    if p in InnersOf(e, ns[..|ns| - 1]) { InnersAreInner(e, ns[..|ns| - 1], p); }
  }

  lemma {:induction false} TopsAreEntities(es: seq<Entity>, p: Part)
    requires p.Top?
    ensures p in Parts(es) <==> exists e :: e in es && Used(e) && TopOf(e) == p
  {
    hide Used;
    if es != [] {
      var last := es[|es| - 1];
      TopsAreEntities(es[..|es| - 1], p);
      assert es == es[..|es| - 1] + [last];
      if p in InnersOf(last, last.nested) { InnersAreInner(last, last.nested, p); }
    }
  }

  /**
   * A table is a mutation exactly when some usable response of that table is one; an array inside a response never
   * makes it so.
   */
  lemma MutationIff(le: (string, string) -> bool, es: seq<Entity>, t: Table)
    requires Gathers(le, t, To(Parts(es), t.table))
    ensures t.kind == Mutation <==>
              exists e :: e in es && e.table != "" && e.fields != [] && e.table == t.table && e.kind == Mutation
    ensures t.kind != Mutation ==>
              var first := To(Parts(es), t.table)[0]; t.kind == if first.Top? then first.kind else Read
  {
    hide Used, Parts, To, IsMerge;
    var ps := To(Parts(es), t.table);
    if t.kind == Mutation {
      MutationIsTop(le, t, ps);
      var i :| 0 <= i < |ps| && ps[i].Top? && ps[i].kind.Mutation?;
      ToHolds(Parts(es), t.table, ps[i]);
      TopsAreEntities(es, ps[i]);
      var e :| e in es && Used(e) && TopOf(e) == ps[i];
      UsedIs(e);
    }
    if e :| e in es && e.table != "" && e.fields != [] && e.table == t.table && e.kind == Mutation {
      UsedIs(e);
      TopsAreEntities(es, TopOf(e));
      ToHolds(Parts(es), t.table, TopOf(e));
      var i :| 0 <= i < |ps| && ps[i] == TopOf(e);
      assert ps[i].Top? && ps[i].kind.Mutation?;
    }
  }

  lemma UsedIs(e: Entity)
    ensures Used(e) <==> e.table != "" && e.fields != []
  {
  }

  lemma MutationIsTop(le: (string, string) -> bool, t: Table, ps: seq<Part>)
    requires Gathers(le, t, ps) && t.kind == Mutation
    ensures exists i :: 0 <= i < |ps| && ps[i].Top? && ps[i].kind.Mutation?
  {
    hide IsMerge;
  }
}
