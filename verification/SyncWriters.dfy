/** The requests that remove objects, run on a bucket nobody else writes meanwhile. */
module SyncWriters {
  import opened Common
  import opened ObjectKeys
  import opened SyncScopes
  import opened SyncSubscriber
  import opened SyncWorld

  const MAX_KEYS: nat := 1000

  /** How a delete request ends; `Threw` when the tombstone could not be written. */
  datatype Outcome = Done(deleted: bool, tombstoneCreated: bool) | Threw

  function Under(store: Store, prefix: Key): set<Key> {
    set k | k in store && prefix <= k
  }

  /** How a prefix delete ends. */
  datatype PrefixOutcome = PrefixDone(deletedCount: nat, tombstoneCreated: bool) | PrefixThrew

  /** The loop reaches page `failAt`, counted from 0: an empty listing has one page as well. */
  predicate FailsAt(store: Store, prefix: Key, max: nat, failAt: Option<nat>) {
    failAt.Some? && (failAt.value == 0 || failAt.value * max < |Listing(store, prefix, None)|)
  }

  /** What is gone when the loop ends: all under the prefix, or the pages before the one that failed. */
  function RemovedUnder(store: Store, prefix: Key, max: nat, failAt: Option<nat>): set<Key> {
    if FailsAt(store, prefix, max, failAt) then Elements(Listing(store, prefix, None)[..failAt.value * max])
    else Under(store, prefix)
  }

  function BumpFor(w: World, ctx: UserContext, scopedKey: Key, at: nat): World {
    var scope := ScopeForKey(ctx, scopedKey);
    if scope.None? then w else Bump(w, scope.value, at)
  }

  /** The bucket after `delete`; an empty `tombstoneKey` asks for no tombstone. */
  function DeleteEffect(w: World, ctx: UserContext, key: Key, tombstoneKey: Key, deleteOk: bool, putOk: bool,
        at: nat): (World, Outcome)
  {
    var scoped := ScopeKey(ctx, key);
    var w1 := if deleteOk then w.(store := w.store - {scoped}) else w;
    if tombstoneKey != "" && !putOk then (w1, Threw) else
      var w2 := if tombstoneKey != "" then w1.(store := w1.store[ScopeKey(ctx, tombstoneKey) := Obj(at, 0)]) else w1;
      (if deleteOk || tombstoneKey != "" then BumpFor(w2, ctx, scoped, at) else w2, Done(deleteOk, tombstoneKey != ""))
  }

  /** Every scope whose objects changed got a different ETag. */
  ghost predicate Announced(a: World, b: World, layout: set<Key>) {
    forall s :: s in layout ==> SameUnder(a.store, b.store, s) || Etag(b.store, s) != Etag(a.store, s)
  }

  lemma PageSplitsSet(store: Store, prefix: Key, token: Token, max: nat)
    requires 1 <= max
    ensures var page := PageKeys(store, prefix, token, max);
            var next := NextToken(store, prefix, token, max);
            var rest := if next.None? then {} else Remaining(store, prefix, next);
            && Elements(page) + rest == Remaining(store, prefix, token)
            && Elements(page) !! rest && |Elements(page)| == |page|
            && (next.Some? ==> |rest| < |Remaining(store, prefix, token)|)
  {
    hide Le, Past, Remaining, SortedKeys;
    var page := PageKeys(store, prefix, token, max);
    var next := NextToken(store, prefix, token, max);
    var all := Listing(store, prefix, token);
    var tail := if next.None? then [] else Listing(store, prefix, next);
    var rest := if next.None? then {} else Remaining(store, prefix, next);
    ListingSplits(store, prefix, token, max);
    assert Elements(all) == Remaining(store, prefix, token) && Elements(tail) == rest by {
      ListingElements(store, prefix, token);
      if next.Some? { ListingElements(store, prefix, next); }
    }
    SplitNoDup(all, page, tail);
  }

  lemma ListingElements(store: Store, prefix: Key, token: Token)
    ensures Elements(Listing(store, prefix, token)) == Remaining(store, prefix, token)
  {
  }

  lemma SplitNoDup<T>(all: seq<T>, a: seq<T>, b: seq<T>)
    requires NoDup(all) && all == a + b
    ensures Elements(a) + Elements(b) == Elements(all) && Elements(a) !! Elements(b)
    ensures |Elements(a)| == |a| && |Elements(b)| == |b| && |Elements(all)| == |a| + |b|
  {
    assert forall i :: 0 <= i < |a| ==> all[i] == a[i];
    assert forall i :: 0 <= i < |b| ==> all[|a| + i] == b[i];
    assert NoDup(a) && NoDup(b);
    NoDupCard(a);
    NoDupCard(b);
    NoDupCard(all);
    forall x | x in a ensures x in all && x !in b {
      var i :| 0 <= i < |a| && a[i] == x;
      assert all[i] == x;
      forall j | 0 <= j < |b| ensures b[j] != x { assert all[|a| + j] == b[j]; }
    }
    forall x | x in b ensures x in all {
      var i :| 0 <= i < |b| && b[i] == x;
      assert all[|a| + i] == x;
    }
  }

  // ------------------------------------------------------------ the service

  class SyncService {
    var objects: Store
    var nextEtag: nat

    ghost function Bucket(): World
      reads this
    {
      World(objects, nextEtag)
    }

    constructor (w: World)
      ensures Bucket() == w
    {
      objects, nextEtag := w.store, w.nextEtag;
    }

    method BumpManifest(ctx: UserContext, scopedKey: Key, at: nat)
      modifies this
      ensures Bucket() == BumpFor(old(Bucket()), ctx, scopedKey, at)
    {
      var scope := ScopeForKey(ctx, scopedKey);
      if scope.Some? {
        objects := objects[scope.value + MANIFEST_KEY := Obj(at, nextEtag)];
        nextEtag := nextEtag + 1;
      }
    }

    method Delete(ctx: UserContext, key: Key, tombstoneKey: Key, deleteOk: bool, putOk: bool, at: nat)
      returns (r: Outcome)
      modifies this
      ensures (Bucket(), r) == DeleteEffect(old(Bucket()), ctx, key, tombstoneKey, deleteOk, putOk, at)
    {
      hide MANIFEST_KEY;
      var scoped := ScopeKey(ctx, key);
      var deleted, tombstoneCreated := false, false;
      if deleteOk {
        objects := objects - {scoped};
        deleted := true;
      }
      if tombstoneKey != "" {
        if !putOk { return Threw; }
        objects := objects[ScopeKey(ctx, tombstoneKey) := Obj(at, 0)];
        tombstoneCreated := true;
      }
      if deleted || tombstoneCreated {
        BumpManifest(ctx, scoped, at);
      }
      return Done(deleted, tombstoneCreated);
    }

    /** List a page, delete it, follow the token, until the listing ends or the calls of page `failAt` throw. */
    method DeleteAllUnder(prefix: Key, maxKeys: nat, failAt: Option<nat>) returns (deletedCount: nat, threw: bool)
      requires 1 <= maxKeys
      modifies this`objects
      ensures threw == FailsAt(old(objects), prefix, maxKeys, failAt)
      ensures objects == old(objects) - RemovedUnder(old(objects), prefix, maxKeys, failAt)
      ensures deletedCount == |RemovedUnder(old(objects), prefix, maxKeys, failAt)|
    {
      hide *;
      deletedCount, threw := 0, false;
      var token: Token := None;
      var more, page := true, 0;
      ghost var store := objects;
      ghost var done: set<Key> := {};
      DeletingStarts(store, prefix);
      PagesStart(store, prefix, maxKeys);
      while more
        invariant Deleting(store, objects, prefix, token, more, done)
        invariant PagesDone(store, prefix, maxKeys, token, more, page, done)
        invariant NotFailed(failAt, page)
        invariant deletedCount == |done|
        decreases more, |Under(store, prefix) - done|
      {
        if failAt == Some(page) {
          FailsHere(store, prefix, maxKeys, token, page, done);
          DeletedSoFar(store, objects, prefix, token, more, done);
          return deletedCount, true;
        }
        var keys := PageKeys(objects, prefix, token, maxKeys);
        var next := NextToken(objects, prefix, token, maxKeys);
        SamePages(store, objects, prefix, token, done, maxKeys);
        DeletingStep(store, objects, prefix, token, maxKeys, done);
        PagesStep(store, prefix, maxKeys, token, page, done);
        NotFailedNext(failAt, page);
        DeleteObjects(keys);
        deletedCount := deletedCount + |keys|;
        done := done + Elements(keys);
        token := next;
        more := next.Some?;
        page := page + 1;
      }
      DeletingEnds(store, objects, prefix, token, done);
      FailsNowhere(store, prefix, maxKeys, token, page, done, failAt);
    }

    method DeleteObjects(keys: seq<Key>)
      modifies this`objects
      ensures objects == old(objects) - Elements(keys)
    {
      var i := 0;
      while i < |keys|
        invariant 0 <= i <= |keys|
        invariant objects == old(objects) - Elements(keys[..i])
      {
        assert Elements(keys[..i + 1]) == Elements(keys[..i]) + {keys[i]};
        objects := objects - {keys[i]};
        i := i + 1;
      }
      assert keys[..i] == keys;
    }

    method DeletePrefix(ctx: UserContext, prefix: Key, tombstoneKey: Key, failAt: Option<nat>, putOk: bool, at: nat)
      returns (r: PrefixOutcome)
      modifies this
      ensures (Bucket(), r) == DeletePrefixEffect(old(Bucket()), ctx, prefix, tombstoneKey, failAt, putOk, at)
    {
      hide MANIFEST_KEY, RemovedUnder, FailsAt;
      var scoped := ScopeKey(ctx, prefix);
      var deletedCount, threw := DeleteAllUnder(scoped, MAX_KEYS, failAt);
      var tombstoneCreated := false;
      assert deletedCount == 0 <==> RemovedUnder(old(objects), scoped, MAX_KEYS, failAt) == {};
      assert old(objects) - {} == old(objects);
      if threw { return PrefixThrew; }
      if tombstoneKey != "" && deletedCount > 0 {
        if !putOk { return PrefixThrew; }
        objects := objects[ScopeKey(ctx, tombstoneKey) := Obj(at, 0)];
        tombstoneCreated := true;
      }
      if deletedCount > 0 || tombstoneCreated {
        BumpManifest(ctx, scoped, at);
      }
      return PrefixDone(deletedCount, tombstoneCreated);
    }
  }

  /** The delete loop: `done` are gone, what is left under the prefix is what the listing has still to give. */
  ghost predicate Deleting(store: Store, objects: Store, prefix: Key, token: Token, more: bool, done: set<Key>) {
    && objects == store - done && done <= Under(store, prefix)
    && Under(store, prefix) - done == if more then Remaining(store, prefix, token) else {}
  }

  lemma DeletingStarts(store: Store, prefix: Key)
    ensures Deleting(store, store, prefix, None, true, {})
  {
    hide Le;
    assert store - {} == store;
  }

  lemma DeletingEnds(store: Store, objects: Store, prefix: Key, token: Token, done: set<Key>)
    requires Deleting(store, objects, prefix, token, false, done)
    ensures done == Under(store, prefix) && objects == store - Under(store, prefix)
  {
    hide Under, Remaining;
    assert Under(store, prefix) == (Under(store, prefix) - done) + done;
  }

  lemma DeletingStep(store: Store, objects: Store, prefix: Key, token: Token, max: nat, done: set<Key>)
    requires 1 <= max && Deleting(store, objects, prefix, token, true, done)
    ensures var page := PageKeys(objects, prefix, token, max);
            var next := NextToken(objects, prefix, token, max);
            && Deleting(store, objects - Elements(page), prefix, next, next.Some?, done + Elements(page))
            && |done + Elements(page)| == |done| + |page|
            && (next.Some? ==> |Under(store, prefix) - (done + Elements(page))| < |Under(store, prefix) - done|)
  {
    hide Le, Lt, Past, Listing, PageKeys, NextToken, Elements, Remaining, Under;
    var page, next := PageKeys(objects, prefix, token, max), NextToken(objects, prefix, token, max);
    var rest := PageRest(store, objects, prefix, token, max, done);
    PartSizes(Under(store, prefix), done, Elements(page), rest);
    RemoveMore(store, done, Elements(page));
  }

  lemma RemoveMore(store: Store, done: set<Key>, page: set<Key>)
    ensures (store - done) - page == store - (done + page)
  {
  }

  /** What is left to delete is a page and what its token leaves. */
  lemma PageRest(store: Store, objects: Store, prefix: Key, token: Token, max: nat, done: set<Key>)
    returns (rest: set<Key>)
    requires 1 <= max && Deleting(store, objects, prefix, token, true, done)
    ensures var page := PageKeys(objects, prefix, token, max);
            var next := NextToken(objects, prefix, token, max);
            && rest == (if next.Some? then Remaining(store, prefix, next) else {})
            && Under(store, prefix) - done == Elements(page) + rest && Elements(page) !! rest
            && |Elements(page)| == |page|
            && (next.Some? ==> |rest| < |Under(store, prefix) - done|)
  {
    hide Le, Lt, Past, Listing, PageKeys, NextToken, Elements, Remaining, Under;
    var next := NextToken(objects, prefix, token, max);
    SameRemaining(store, objects, prefix, token, done);
    PageSplitsSet(objects, prefix, token, max);
    if next.Some? { RestUntouched(store, objects, prefix, token, next, Under(store, prefix) - done); }
    rest := if next.None? then {} else Remaining(objects, prefix, next);
  }

  /** Three parts of a set. */
  lemma PartSizes(all: set<Key>, done: set<Key>, page: set<Key>, rest: set<Key>)
    requires done <= all && all - done == page + rest && page !! rest
    ensures all - (done + page) == rest && done + page <= all
    ensures |done + page| == |done| + |page|
  {
    assert done !! page;
  }

  lemma SameRemaining(store: Store, objects: Store, prefix: Key, token: Token, done: set<Key>)
    requires Deleting(store, objects, prefix, token, true, done)
    ensures Remaining(objects, prefix, token) == Remaining(store, prefix, token)
    ensures forall k :: k in objects ==> k in store
  {
    hide Le;
    forall k | k in store && prefix <= k && Past(token, k) ensures k in objects {
      assert k in Remaining(store, prefix, token);
    }
  }

  lemma RestUntouched(store: Store, objects: Store, prefix: Key, token: Token, next: Token, todo: set<Key>)
    requires todo == Remaining(store, prefix, token) == Remaining(objects, prefix, token)
    requires next.Some? && Past(token, next.value)
    requires forall k :: k in objects ==> k in store
    ensures Remaining(objects, prefix, next) == Remaining(store, prefix, next)
  {
    forall k | k in store && prefix <= k && Past(next, k) ensures k in objects {
      if token.Some? { LtTrans(token.value, next.value, k); }
      assert k in todo;
    }
  }

  /** The bucket after `deletePrefix`, whose calls for page `failAt`, or whose tombstone, may throw. */
  function DeletePrefixEffect(w: World, ctx: UserContext, prefix: Key, tombstoneKey: Key, failAt: Option<nat>,
        putOk: bool, at: nat)
    : (World, PrefixOutcome)
  {
    var scoped := ScopeKey(ctx, prefix);
    var removed := RemovedUnder(w.store, scoped, MAX_KEYS, failAt);
    var w1 := w.(store := w.store - removed);
    if FailsAt(w.store, scoped, MAX_KEYS, failAt) then (w1, PrefixThrew)
    else if removed == {} then (w1, PrefixDone(0, false))
    else if tombstoneKey != "" && !putOk then (w1, PrefixThrew)
    else
      var w2 := if tombstoneKey != "" then w1.(store := w1.store[ScopeKey(ctx, tombstoneKey) := Obj(at, 0)]) else w1;
      (BumpFor(w2, ctx, scoped, at), PrefixDone(|removed|, tombstoneKey != ""))
  }

  // ------------------------------------------------------------ key by key

  function Found(store: Store, k: Key): Option<Obj> {
    if k in store then Some(store[k]) else None
  }

  /**
   * Two buckets compared key by key: the bumped manifest has a new ETag, the tombstone is there, the removed
   * keys are not, and nothing else differs.
   */
  ghost predicate Changed(a: World, b: World, removed: set<Key>, tomb: Option<Key>, bumped: Option<Key>, at: nat) {
    && b.nextEtag == a.nextEtag + (if bumped.Some? then 1 else 0)
    && (bumped.Some? ==> Found(b.store, bumped.value) == Some(Obj(at, a.nextEtag)))
    && (tomb.Some? && tomb != bumped ==> Found(b.store, tomb.value) == Some(Obj(at, 0)))
    && (forall k :: k in removed && Some(k) != tomb && Some(k) != bumped ==> Found(b.store, k) == None)
    && (forall k :: k !in removed && Some(k) != tomb && Some(k) != bumped ==> Found(b.store, k) == Found(a.store, k))
  }

  /** The manifest of the scope that a user's key lands in. */
  function ManifestFor(ctx: UserContext, key: Key): Option<Key> {
    var scope := ScopeForKey(ctx, ScopeKey(ctx, key));
    if scope.None? then None else Some(scope.value + MANIFEST_KEY)
  }

  /**
   * A delete that ends takes away its object, whether or not it asks for a tombstone, writes exactly the tombstone
   * asked for and bumps the key's own manifest iff it did either; one that throws has taken away its object only.
   */
  lemma DeleteChanges(w: World, ctx: UserContext, key: Key, tombstoneKey: Key, deleteOk: bool, putOk: bool, at: nat)
    ensures var (after, r) := DeleteEffect(w, ctx, key, tombstoneKey, deleteOk, putOk, at);
            var removed := if deleteOk then {ScopeKey(ctx, key)} else {};
            && ManifestFor(ctx, key).Some?
            && (r == Threw <==> tombstoneKey != "" && !putOk)
            && (r.Threw? ==> Changed(w, after, removed, None, None, at))
            && (r.Done? ==>
                  && r.deleted == deleteOk && r.tombstoneCreated == (tombstoneKey != "")
                  && Changed(w, after, removed,
                             if tombstoneKey != "" then Some(ScopeKey(ctx, tombstoneKey)) else None,
                             if deleteOk || tombstoneKey != "" then ManifestFor(ctx, key) else None, at))
  {
    hide MANIFEST_KEY;
    ScopedKeyIsOwned(ctx, key);
  }

  /**
   * The same for a prefix: what it removes is all under it, or when the calls of page `failAt` throw the least
   * keys under it, as many as there are in the pages before; it counts them, and stops there if there are none.
   */
  lemma DeletePrefixChanges(w: World, ctx: UserContext, prefix: Key, tombstoneKey: Key, failAt: Option<nat>,
        putOk: bool, at: nat)
    returns (removed: set<Key>)
    ensures var (after, r) := DeletePrefixEffect(w, ctx, prefix, tombstoneKey, failAt, putOk, at);
            var under := Under(w.store, ScopeKey(ctx, prefix));
            && FirstOf(removed, under)
            && (r.PrefixThrew? ==> Changed(w, after, removed, None, None, at))
            && (r.PrefixThrew? && removed != under ==> failAt.Some? && |removed| == failAt.value * MAX_KEYS)
            && (r.PrefixDone? ==>
                  && removed == under && r.deletedCount == |under|
                  && (r.tombstoneCreated <==> tombstoneKey != "" && under != {})
                  && Changed(w, after, under,
                             if r.tombstoneCreated then Some(ScopeKey(ctx, tombstoneKey)) else None,
                             if under != {} then ManifestFor(ctx, prefix) else None, at))
    ensures failAt.None? && putOk ==> DeletePrefixEffect(w, ctx, prefix, tombstoneKey, failAt, putOk, at).1.PrefixDone?
  {
    hide MANIFEST_KEY, ScopeKey, ScopeForKey, Under, RemovedUnder, FailsAt, FirstOf;
    var scoped := ScopeKey(ctx, prefix);
    removed := RemovedUnder(w.store, scoped, MAX_KEYS, failAt);
    RemovedAreFirst(w.store, scoped, MAX_KEYS, failAt);
    ScopedKeyIsOwned(ctx, prefix);
    assert w.store - {} == w.store;
  }

  /** The removed keys come before all that are left. */
  ghost predicate FirstOf(removed: set<Key>, under: set<Key>) {
    removed <= under && forall k, l :: k in removed && l in under - removed ==> Lt(k, l)
  }

  lemma RemovedAreFirst(store: Store, prefix: Key, max: nat, failAt: Option<nat>)
    ensures FirstOf(RemovedUnder(store, prefix, max, failAt), Under(store, prefix))
    ensures FailsAt(store, prefix, max, failAt) ==>
              |RemovedUnder(store, prefix, max, failAt)| == failAt.value * max
    ensures !FailsAt(store, prefix, max, failAt) ==> RemovedUnder(store, prefix, max, failAt) == Under(store, prefix)
    ensures failAt.None? ==> !FailsAt(store, prefix, max, failAt)
  {
    hide Le, Lt, Listing;
    if FailsAt(store, prefix, max, failAt) {
      FirstKeys(store, prefix, failAt.value * max);
    }
  }

  lemma FirstKeys(store: Store, prefix: Key, n: nat)
    requires n <= |Listing(store, prefix, None)|
    ensures FirstOf(Elements(Listing(store, prefix, None)[..n]), Under(store, prefix))
    ensures |Elements(Listing(store, prefix, None)[..n])| == n
  {
    hide Le, Lt, Listing, Sorted;
    var all := Listing(store, prefix, None);
    SplitSorted(all, n);
    SplitNoDup(all, all[..n], all[n..]);
    ListedUnder(store, prefix);
  }

  lemma ListedUnder(store: Store, prefix: Key)
    ensures Elements(Listing(store, prefix, None)) == Under(store, prefix)
  {
    hide Le, Lt, Remaining, SortedKeys;
  }

  lemma SplitSorted(all: seq<Key>, n: nat)
    requires Sorted(all) && n <= |all|
    ensures all == all[..n] + all[n..]
    ensures forall k, l :: k in all[..n] && l in all[n..] ==> Lt(k, l)
  {
    hide Lt;
    forall k, l | k in all[..n] && l in all[n..] ensures Lt(k, l) {
      var i :| 0 <= i < n && all[i] == k;
      var j :| n <= j < |all| && all[j] == l;
    }
  }

  // ------------------------------------------------------------ page by page

  /** Page `page` of the listing so far unread starts behind `done`, the keys of the pages before it. */
  ghost predicate PagesDone(store: Store, prefix: Key, max: nat, token: Token, more: bool, page: nat, done: set<Key>)
    requires 1 <= max
  {
    var all := Listing(store, prefix, None);
    if more then
      && page * max <= |all| && (page == 0 || page * max < |all|)
      && done == Elements(all[..page * max]) && Listing(store, prefix, token) == all[page * max..]
    else page > 0 && |all| <= page * max
  }

  predicate NotFailed(failAt: Option<nat>, page: nat) {
    failAt.Some? ==> page <= failAt.value
  }

  lemma NotFailedNext(failAt: Option<nat>, page: nat)
    requires NotFailed(failAt, page) && failAt != Some(page)
    ensures NotFailed(failAt, page + 1)
  {
  }

  lemma PagesStart(store: Store, prefix: Key, max: nat)
    requires 1 <= max
    ensures PagesDone(store, prefix, max, None, true, 0, {}) && forall failAt :: NotFailed(failAt, 0)
  {
    hide SortedKeys, Remaining;
    assert Listing(store, prefix, None)[..0] == [];
  }

  lemma NextPage(page: nat, max: nat)
    ensures (page + 1) * max == page * max + max
  {
  }

  lemma PagesStep(store: Store, prefix: Key, max: nat, token: Token, page: nat, done: set<Key>)
    requires 1 <= max && PagesDone(store, prefix, max, token, true, page, done)
    ensures var next := NextToken(store, prefix, token, max);
            PagesDone(store, prefix, max, next, next.Some?, page + 1,
                      done + Elements(PageKeys(store, prefix, token, max)))
  {
    hide SortedKeys, Remaining, Listing, Elements;
    var all, from := Listing(store, prefix, None), page * max;
    NextPage(page, max);
    ListingSplits(store, prefix, token, max);
    PageIsTake(store, prefix, token, max);
    TakeMore(all, from, max);
  }

  /** A page is the first `max` keys of what is listed from its token, all of them on the last page. */
  lemma PageIsTake(store: Store, prefix: Key, token: Token, max: nat)
    requires 1 <= max
    ensures var rest := Listing(store, prefix, token);
            var next := NextToken(store, prefix, token, max);
            && (next.Some? <==> |rest| > max)
            && PageKeys(store, prefix, token, max) == (if |rest| > max then rest[..max] else rest)
            && (next.Some? ==> Listing(store, prefix, next) == rest[max..])
  {
    hide SortedKeys, Remaining, Past;
    ListingSplits(store, prefix, token, max);
  }

  lemma TakeMore(all: seq<Key>, from: nat, max: nat)
    requires from <= |all|
    ensures |all[from..]| > max ==>
              && all[..from + max] == all[..from] + all[from..][..max]
              && all[from..][max..] == all[from + max..]
              && Elements(all[..from + max]) == Elements(all[..from]) + Elements(all[from..][..max])
  {
    if |all[from..]| > max {
      assert all[..from + max] == all[..from] + all[from..][..max];
    }
  }

  lemma SamePages(store: Store, objects: Store, prefix: Key, token: Token, done: set<Key>, max: nat)
    requires 1 <= max && Deleting(store, objects, prefix, token, true, done)
    ensures PageKeys(objects, prefix, token, max) == PageKeys(store, prefix, token, max)
    ensures NextToken(objects, prefix, token, max) == NextToken(store, prefix, token, max)
  {
    hide Le, Remaining, Under, Deleting;
    SameRemaining(store, objects, prefix, token, done);
  }

  lemma FailsHere(store: Store, prefix: Key, max: nat, token: Token, page: nat, done: set<Key>)
    requires 1 <= max && PagesDone(store, prefix, max, token, true, page, done)
    ensures FailsAt(store, prefix, max, Some(page)) && RemovedUnder(store, prefix, max, Some(page)) == done
  {
    hide Elements, Listing, Remaining, Under;
  }

  lemma DeletedSoFar(store: Store, objects: Store, prefix: Key, token: Token, more: bool, done: set<Key>)
    requires Deleting(store, objects, prefix, token, more, done)
    ensures objects == store - done
  {
    hide Remaining, Under;
  }

  lemma FailsNowhere(store: Store, prefix: Key, max: nat, token: Token, page: nat, done: set<Key>, failAt: Option<nat>)
    requires 1 <= max && PagesDone(store, prefix, max, token, false, page, done) && NotFailed(failAt, page)
    ensures !FailsAt(store, prefix, max, failAt) && RemovedUnder(store, prefix, max, failAt) == Under(store, prefix)
  {
    hide Listing, Under;
    if failAt.Some? { Later(page, failAt.value, max); }
  }

  lemma Later(page: nat, other: nat, max: nat)
    requires page <= other
    ensures page * max <= other * max
  {
  }

  // ------------------------------------------------------------ what the manifests announce

  /** The context's scopes are scope prefixes of the bucket. */
  ghost predicate Member(ctx: UserContext, layout: set<Key>) {
    forall s :: s in ScopesFor(ctx) ==> s in layout
  }

  lemma OwnerOf(ctx: UserContext, layout: set<Key>, key: Key) returns (s: Key)
    requires Separated(layout) && Member(ctx, layout)
    ensures ScopeForKey(ctx, ScopeKey(ctx, key)) == Some(s) && s in layout && s <= ScopeKey(ctx, key)
  {
    ScopedKeyIsOwned(ctx, key);
    s := ScopeForKey(ctx, ScopeKey(ctx, key)).value;
  }

  /** A change inside one scope, bumped, is announced together with any change another scope did not see. */
  lemma BumpAnnounces(a: World, b: World, layout: set<Key>, s: Key, at: nat)
    requires Separated(layout) && s in layout && EtagsUsed(a, layout) && a.nextEtag == b.nextEtag
    requires forall t :: t in layout ==> Etag(b.store, t) == Etag(a.store, t) || t == s
    ensures Announced(a, Bump(b, s, at), layout)
       <==> forall t :: t in layout && t != s ==> SameUnder(a.store, b.store, t)
  {
    hide MANIFEST_KEY, SameUnder;
    var c := Bump(b, s, at);
    forall t | t in layout
      ensures t == s ==> Etag(c.store, t) != Etag(a.store, t)
      ensures t != s ==>
                && Etag(c.store, t) == Etag(a.store, t)
                && (SameUnder(a.store, c.store, t) <==> SameUnder(a.store, b.store, t))
    {
      BumpElsewhere(b, layout, s, at, t);
      if t != s { SameUnderVia(a.store, b.store, c.store, t); }
    }
  }

  lemma BumpElsewhere(w: World, layout: set<Key>, s: Key, at: nat, t: Key)
    requires Separated(layout) && s in layout && t in layout
    ensures t == s ==> Etag(Bump(w, s, at).store, t) == Some(w.nextEtag)
    ensures t != s ==> Etag(Bump(w, s, at).store, t) == Etag(w.store, t) && SameUnder(w.store, Bump(w, s, at).store, t)
  {
    hide MANIFEST_KEY;
    if t != s {
      var after := Bump(w, s, at).store;
      forall k | t <= k ensures (k in w.store <==> k in after) && (k in w.store ==> w.store[k] == after[k]) {
        if s <= k { OwnerIsUnique(layout, t, s, k); }
      }
      assert t <= t + MANIFEST_KEY && s <= s + MANIFEST_KEY;
    }
  }

  lemma SameUnderVia(a: Store, b: Store, c: Store, t: Key)
    requires SameUnder(b, c, t)
    ensures SameUnder(a, c, t) <==> SameUnder(a, b, t)
  {
  }

  /** The tombstone's key is a plain object, not some scope's manifest. */
  ghost predicate PlainKey(key: Key, layout: set<Key>) {
    forall t :: t in layout ==> key != t + MANIFEST_KEY
  }

  lemma NothingChanged(w: World, layout: set<Key>)
    ensures Announced(w, w, layout)
  {
    hide Etag;
  }

  /** The tombstone is not already there with this very stamp. */
  predicate NewStamp(store: Store, tomb: Key, at: nat) {
    tomb !in store || store[tomb] != Obj(at, 0)
  }

  /**
   * A delete whose calls succeed announces all it changed exactly when it writes no tombstone, the tombstone
   * lies in the scope of the deleted key (only that scope's manifest is bumped), or it was there already.
   */
  lemma DeleteAnnouncedIff(w: World, ctx: UserContext, layout: set<Key>, key: Key, tombstoneKey: Key, at: nat)
    requires Separated(layout) && Member(ctx, layout) && EtagsUsed(w, layout)
    requires tombstoneKey != "" ==> PlainKey(ScopeKey(ctx, tombstoneKey), layout)
    ensures Announced(w, DeleteEffect(w, ctx, key, tombstoneKey, true, true, at).0, layout)
       <==> || tombstoneKey == ""
            || ScopeForKey(ctx, ScopeKey(ctx, tombstoneKey)) == ScopeForKey(ctx, ScopeKey(ctx, key))
            || !NewStamp(w.store, ScopeKey(ctx, tombstoneKey), at)
  {
    hide MANIFEST_KEY, Etag, SameUnder, PlainKey, NewStamp, ScopeKey, ScopeForKey, Separated, EtagsUsed, Bump;
    var k, tomb := ScopeKey(ctx, key), ScopeKey(ctx, tombstoneKey);
    var s := OwnerOf(ctx, layout, key);
    var u := OwnerOf(ctx, layout, tombstoneKey);
    var w1 := w.(store := w.store - {k});
    var w2 := if tombstoneKey != "" then w1.(store := w1.store[tomb := Obj(at, 0)]) else w1;
    TouchedOnly(w.store, w1.store, w2.store, {k}, tomb, layout, s, u, tombstoneKey != "", at);
    BumpAnnounces(w, w2, layout, s, at);
  }

  /** The same for a prefix whose calls succeed; where there is nothing to delete, nothing is written. */
  lemma DeletePrefixAnnouncedIff(w: World, ctx: UserContext, layout: set<Key>, prefix: Key, tombstoneKey: Key, at: nat)
    requires Separated(layout) && Member(ctx, layout) && EtagsUsed(w, layout)
    requires tombstoneKey != "" ==> PlainKey(ScopeKey(ctx, tombstoneKey), layout)
    ensures Announced(w, DeletePrefixEffect(w, ctx, prefix, tombstoneKey, None, true, at).0, layout)
       <==> || tombstoneKey == "" || Under(w.store, ScopeKey(ctx, prefix)) == {}
            || ScopeForKey(ctx, ScopeKey(ctx, tombstoneKey)) == ScopeForKey(ctx, ScopeKey(ctx, prefix))
            || !NewStamp(w.store, ScopeKey(ctx, tombstoneKey), at)
  {
    hide MANIFEST_KEY, Etag, SameUnder, PlainKey, NewStamp, ScopeKey, ScopeForKey, Separated, EtagsUsed, Bump;
    var p, tomb := ScopeKey(ctx, prefix), ScopeKey(ctx, tombstoneKey);
    var removed := Under(w.store, p);
    assert RemovedUnder(w.store, p, MAX_KEYS, None) == removed;
    if removed == {} {
      assert w.store - {} == w.store;
      NothingChanged(w, layout);
      return;
    }
    var s := OwnerOf(ctx, layout, prefix);
    var u := OwnerOf(ctx, layout, tombstoneKey);
    var w1 := w.(store := w.store - removed);
    var w2 := if tombstoneKey != "" then w1.(store := w1.store[tomb := Obj(at, 0)]) else w1;
    TouchedOnly(w.store, w1.store, w2.store, removed, tomb, layout, s, u, tombstoneKey != "", at);
    BumpAnnounces(w, w2, layout, s, at);
  }

  lemma TouchedOnly(a: Store, b: Store, c: Store, removed: set<Key>, tomb: Key, layout: set<Key>, s: Key, u: Key,
        buried: bool, at: nat)
    requires Separated(layout) && s in layout && u in layout && u <= tomb
    requires buried ==> PlainKey(tomb, layout)
    requires forall k :: k in removed ==> s <= k
    requires b == a - removed && c == if buried then b[tomb := Obj(at, 0)] else b
    ensures forall t :: t in layout ==> Etag(c, t) == Etag(a, t) || t == s
    ensures forall t :: t in layout && t != s ==> (SameUnder(a, c, t) <==> !(buried && t == u && NewStamp(a, tomb, at)))
  {
    hide MANIFEST_KEY;
    forall t | t in layout && t != s
      ensures Etag(c, t) == Etag(a, t) && (SameUnder(a, c, t) <==> !(buried && t == u && NewStamp(a, tomb, at)))
    {
      forall k | t <= k ensures k !in removed { if k in removed { OwnerIsUnique(layout, t, s, k); } }
      assert t <= t + MANIFEST_KEY;
      if t <= tomb { OwnerIsUnique(layout, t, u, tomb); }
    }
  }

  /** A delete whose tombstone cannot be written has removed the object and bumps nothing. */
  lemma FailedTombstoneIsSilent(w: World, ctx: UserContext, layout: set<Key>, key: Key, tombstoneKey: Key, at: nat)
    requires Separated(layout) && Member(ctx, layout) && tombstoneKey != "" && PlainKey(ScopeKey(ctx, key), layout)
    ensures var (after, r) := DeleteEffect(w, ctx, key, tombstoneKey, true, false, at);
            r == Threw && (Announced(w, after, layout) <==> ScopeKey(ctx, key) !in w.store)
  {
    hide MANIFEST_KEY;
    var s := OwnerOf(ctx, layout, key);
    var after := DeleteEffect(w, ctx, key, tombstoneKey, true, false, at).0;
    assert forall t :: t in layout ==> Etag(after.store, t) == Etag(w.store, t);
    assert ScopeKey(ctx, key) in w.store ==> !SameUnder(w.store, after.store, s);
  }

  lemma RemovedIsUnder(store: Store, prefix: Key, max: nat, failAt: Option<nat>)
    ensures forall k :: k in RemovedUnder(store, prefix, max, failAt) ==> k in store && prefix <= k
  {
    hide Le;
    if FailsAt(store, prefix, max, failAt) {
      var all := Listing(store, prefix, None);
      assert forall k :: k in all[..failAt.value * max] ==> k in all;
    }
  }

  lemma UnderPrefix(s: Key, p: Key, k: Key)
    requires s <= p <= k
    ensures s <= k
  {
    assert s == k[..|p|][..|s|];
  }

  /**
   * A prefix delete that throws, at a page or at its tombstone, bumps nothing: what it removed is
   * announced only if it was nothing, or took the scope's own manifest along.
   */
  lemma FailedPrefixIsSilent(w: World, ctx: UserContext, layout: set<Key>, prefix: Key, tombstoneKey: Key,
        failAt: Option<nat>, putOk: bool, at: nat)
    requires Separated(layout) && Member(ctx, layout)
    requires DeletePrefixEffect(w, ctx, prefix, tombstoneKey, failAt, putOk, at).1 == PrefixThrew
    ensures var after := DeletePrefixEffect(w, ctx, prefix, tombstoneKey, failAt, putOk, at).0;
            var removed := RemovedUnder(w.store, ScopeKey(ctx, prefix), MAX_KEYS, failAt);
            && after == w.(store := w.store - removed)
            && (Announced(w, after, layout) <==>
                  removed == {} || ScopeForKey(ctx, ScopeKey(ctx, prefix)).value + MANIFEST_KEY in removed)
  {
    hide MANIFEST_KEY, RemovedUnder, FailsAt, ScopeKey, ScopeForKey, Bump, Announced;
    var s := OwnerOf(ctx, layout, prefix);
    var removed := RemovedUnder(w.store, ScopeKey(ctx, prefix), MAX_KEYS, failAt);
    RemovedIsUnder(w.store, ScopeKey(ctx, prefix), MAX_KEYS, failAt);
    forall k | k in removed ensures k in w.store && s <= k { UnderPrefix(s, ScopeKey(ctx, prefix), k); }
    SilentRemoval(w, layout, s, removed);
  }

  /** Removing objects of one scope without a bump. */
  lemma SilentRemoval(w: World, layout: set<Key>, s: Key, removed: set<Key>)
    requires Separated(layout) && s in layout && forall k :: k in removed ==> k in w.store && s <= k
    ensures Announced(w, w.(store := w.store - removed), layout) <==> removed == {} || s + MANIFEST_KEY in removed
  {
    hide MANIFEST_KEY;
    var after := w.store - removed;
    forall t | t in layout && t != s ensures SameUnder(w.store, after, t) {
      forall k | t <= k ensures k !in removed { if k in removed { OwnerIsUnique(layout, t, s, k); } }
    }
    if k :| k in removed { assert !SameUnder(w.store, after, s); }
  }
}
