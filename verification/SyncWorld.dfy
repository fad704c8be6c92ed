/** The bucket as its writers change it: mutations inside a scope and manifest bumps. */
module SyncWorld {
  import opened Common
  import opened ObjectKeys
  import opened SyncScopes
  import opened SyncSubscriber

  /** Every bump writes a new ETag; `nextEtag` is the first one not yet used. */
  datatype World = World(store: Store, nextEtag: nat)

  /** Objects removed and written by one request, all inside the scope whose manifest it bumps. */
  datatype Mutation = Mutation(scope: Key, removes: set<Key>, puts: Store, at: nat)

  ghost predicate InScope(m: Mutation) {
    && (forall k :: k in m.removes ==> m.scope <= k)
    && (forall k :: k in m.puts ==> m.scope <= k && k != m.scope + MANIFEST_KEY)
  }

  function Mutate(store: Store, removes: set<Key>, puts: Store): Store {
    (store - removes) + puts
  }

  function Bump(w: World, scope: Key, at: nat): World {
    World(w.store[scope + MANIFEST_KEY := Obj(at, w.nextEtag)], w.nextEtag + 1)
  }

  function Commit(w: World, m: Mutation): World {
    Bump(w.(store := Mutate(w.store, m.removes, m.puts)), m.scope, m.at)
  }

  function CommitAll(w: World, ms: seq<Mutation>): World {
    if ms == [] then w else Commit(CommitAll(w, ms[..|ms| - 1]), ms[|ms| - 1])
  }

  /** No manifest carries an ETag that is still to be handed out. */
  ghost predicate EtagsUsed(w: World, layout: set<Key>) {
    forall s :: s in layout && Etag(w.store, s).Some? ==> Etag(w.store, s).value < w.nextEtag
  }

  ghost predicate SameUnder(a: Store, b: Store, scope: Key) {
    forall k :: scope <= k ==> (k in a <==> k in b) && (k in a ==> a[k] == b[k])
  }

  ghost predicate Writers(ms: seq<Mutation>, layout: set<Key>) {
    forall i :: 0 <= i < |ms| ==> ms[i].scope in layout && InScope(ms[i])
  }

  /** One committed mutation: its own scope gets a new ETag, every other scope is untouched. */
  lemma CommitIsVisible(w: World, m: Mutation, layout: set<Key>, s: Key)
    requires Separated(layout) && m.scope in layout && s in layout && InScope(m)
    ensures s == m.scope ==> Etag(Commit(w, m).store, s) == Some(w.nextEtag)
    ensures s != m.scope ==> SameUnder(w.store, Commit(w, m).store, s)
    ensures s != m.scope ==> Etag(Commit(w, m).store, s) == Etag(w.store, s)
  {
    hide MANIFEST_KEY;
    var after := Commit(w, m).store;
    if s != m.scope {
      forall k | s <= k ensures (k in w.store <==> k in after) && (k in w.store ==> w.store[k] == after[k]) {
        if m.scope <= k { OwnerIsUnique(layout, s, m.scope, k); }
      }
      assert s <= s + MANIFEST_KEY;
    }
  }

  /** Between two looks at the bucket, a scope that keeps its ETag keeps its objects. */
  lemma {:induction false} SameEtagSameObjects(w: World, ms: seq<Mutation>, layout: set<Key>)
    requires Separated(layout) && Writers(ms, layout) && EtagsUsed(w, layout)
    ensures var w' := CommitAll(w, ms);
            && EtagsUsed(w', layout) && w.nextEtag <= w'.nextEtag
            && forall s :: s in layout ==>
                 || (Etag(w'.store, s).Some? && w.nextEtag <= Etag(w'.store, s).value)
                 || (SameUnder(w.store, w'.store, s) && Etag(w'.store, s) == Etag(w.store, s))
  {
    hide Etag, Commit, SameUnder;
    if ms == [] {
      forall s ensures SameUnder(w.store, w.store, s) { SameUnderRefl(w.store, s); }
    } else {
      var m := ms[|ms| - 1];
      var v := CommitAll(w, ms[..|ms| - 1]);
      SameEtagSameObjects(w, ms[..|ms| - 1], layout);
      CommitNext(v, m);
      forall s | s in layout ensures
          && (Etag(Commit(v, m).store, s).Some? ==> Etag(Commit(v, m).store, s).value < v.nextEtag + 1)
          && (|| (Etag(Commit(v, m).store, s).Some? && w.nextEtag <= Etag(Commit(v, m).store, s).value)
              || (SameUnder(w.store, Commit(v, m).store, s) && Etag(Commit(v, m).store, s) == Etag(w.store, s))) {
        CommitIsVisible(v, m, layout, s);
        if s != m.scope && SameUnder(w.store, v.store, s) {
          SameUnderTrans(w.store, v.store, Commit(v, m).store, s);
        }
      }
    }
  }

  lemma CommitNext(w: World, m: Mutation)
    ensures Commit(w, m).nextEtag == w.nextEtag + 1
  {
  }

  lemma SameUnderRefl(a: Store, s: Key)
    ensures SameUnder(a, a, s)
  {
  }

  lemma SameUnderTrans(a: Store, b: Store, c: Store, s: Key)
    requires SameUnder(a, b, s) && SameUnder(b, c, s)
    ensures SameUnder(a, c, s)
  {
  }
}
