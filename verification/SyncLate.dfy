/**
 * A poll that outlives the tick that superseded it. Its events are dropped, but its last assignments still run:
 * they write its own, older listing over the known state that its successor has left.
 */
module SyncLate {
  import opened Common
  import opened OrderedMaps
  import opened ObjectKeys
  import opened SyncScopes
  import opened SyncSubscriber
  import opened SyncWorld
  import opened SyncPolls
  import opened SyncViews
  import opened SyncDropped
  import opened SyncLossy

  /** The late poll's listing, beside the ETags its successor remembered. */
  function Overwritten(sub: Sub, late: seq<Entry>): Sub {
    sub.(known := Record(Empty(), late), initialized := true)
  }

  /** The HEAD phase alone, all that a poll has done when its successor starts. */
  function Headed(sub: Sub, store: Store, scopes: seq<Key>): Sub {
    sub.(etags := HeadEtags(sub.etags, scopes, store, {}))
  }

  ghost function Known(store: Store, scopes: seq<Key>): map<Key, nat> {
    Record(Empty(), AllEntries(store, scopes)).vals
  }

  ghost predicate Remembers(sub: Sub, store: Store, scopes: seq<Key>) {
    forall s :: s in scopes ==> Remembered(sub.etags, s) == Etag(store, s)
  }

  lemma PollRemembers(sub: Sub, store: Store, scopes: seq<Key>)
    requires NoDup(scopes)
    ensures Remembers(GatedPoll(sub, store, scopes, {}).0, store, scopes)
    ensures Remembers(Headed(sub, store, scopes), store, scopes)
  {
    hide Etag, Remembered, AllEntries, Record, Diff, HeadEtags, AnyChanged;
    HeadsAnswered(sub.etags, scopes, store, {});
  }

  /** Committed mutations that leave every subscribed ETag leave the listing. */
  lemma UnmovedListing(w: World, ms: seq<Mutation>, scopes: seq<Key>, layout: set<Key>)
    requires Separated(layout) && Elements(scopes) <= layout && EtagsUsed(w, layout) && Writers(ms, layout)
    requires !Moved(w.store, CommitAll(w, ms).store, scopes)
    ensures AllEntries(CommitAll(w, ms).store, scopes) == AllEntries(w.store, scopes)
  {
    hide Etag, SameUnder, AllEntries, CommitAll, EtagsUsed, Writers, Separated;
    SameEtagSameObjects(w, ms, layout);
    var b := CommitAll(w, ms).store;
    forall s | s in scopes ensures SameUnder(w.store, b, s) {
      assert s in Elements(scopes) && Etag(w.store, s) == Etag(b, s);
      UsedEtag(w, layout, s);
    }
    AllEntriesSame(w.store, b, scopes);
  }

  /** At none of these ticks has a subscribed ETag moved away from `store`. */
  ghost predicate Quiet(store: Store, ticks: seq<Store>, scopes: seq<Key>) {
    forall n :: 0 <= n < |ticks| ==> !Moved(store, ticks[n], scopes)
  }

  lemma QuietStep(store: Store, ticks: seq<Store>, b: Store, scopes: seq<Key>)
    ensures Quiet(store, ticks + [b], scopes) <==> Quiet(store, ticks, scopes) && !Moved(store, b, scopes)
  {
    hide Moved;
    var all := ticks + [b];
    assert all[|ticks|] == b;
    assert forall n :: 0 <= n < |ticks| ==> all[n] == ticks[n];
  }

  lemma {:induction false} QuietTicks(w: World, batches: seq<seq<Mutation>>, scopes: seq<Key>, layout: set<Key>)
    requires Separated(layout) && Elements(scopes) <= layout && EtagsUsed(w, layout) && AllWriters(batches, layout)
    requires Quiet(w.store, Ticks(w, batches), scopes)
    ensures !Moved(w.store, WorldAfter(w, batches).store, scopes)
    ensures AllEntries(WorldAfter(w, batches).store, scopes) == AllEntries(w.store, scopes)
    ensures EtagsUsed(WorldAfter(w, batches), layout)
  {
    hide Etag, AllEntries, CommitAll, EtagsUsed, Separated, Ticks, Writers, Quiet;
    if batches != [] {
      var front, last := batches[..|batches| - 1], batches[|batches| - 1];
      TicksStep(w, batches);
      QuietStep(w.store, Ticks(w, front), WorldAfter(w, batches).store, scopes);
      QuietTicks(w, front, scopes, layout);
      SameEtagSameObjects(WorldAfter(w, front), last, layout);
      UnmovedListing(WorldAfter(w, front), last, scopes, layout);
    }
  }

  /**
   * After a late overwrite, for as long as no ETag moves every poll is silent and the known state is what
   * the late poll had listed: it is right, at each of these ticks, exactly when the late poll and its
   * successor listed the same stamps.
   */
  lemma LateOverwriteIff(sub: Sub, w: World, late: seq<Entry>, batches: seq<seq<Mutation>>, scopes: seq<Key>,
        layout: set<Key>)
    requires Separated(layout) && NoDup(scopes) && Elements(scopes) <= layout
    requires EtagsUsed(w, layout) && AllWriters(batches, layout) && Quiet(w.store, Ticks(w, batches), scopes)
    ensures var g := GatedPoll(sub, w.store, scopes, {}).0;
            var (later, out) := Polls(Overwritten(g, late), Ticks(w, batches), scopes);
            && |out| == |batches| && (forall n :: 0 <= n < |out| ==> out[n] == [])
            && later.initialized && Remembers(later, w.store, scopes) && later.known == Record(Empty(), late)
            && (later.known.vals == Known(WorldAfter(w, batches).store, scopes)
                <==> Record(Empty(), late).vals == Known(w.store, scopes))
  {
    hide Etag, Remembered, AllEntries, Record, GatedPoll, Polls, WorldAfter, Ticks, EtagsUsed, Separated;
    var g := GatedPoll(sub, w.store, scopes, {}).0;
    var over, ticks := Overwritten(g, late), Ticks(w, batches);
    PollRemembers(sub, w.store, scopes);
    forall n, t | 0 <= n < |ticks| && t in scopes ensures Etag(ticks[n], t) == Remembered(over.etags, t) {
      assert !Moved(w.store, ticks[n], scopes);
    }
    LossLasts(over, ticks, scopes);
    QuietTicks(w, batches, scopes, layout);
    TickCount(w, batches);
  }

  lemma {:induction false} TickCount(w: World, batches: seq<seq<Mutation>>)
    ensures |Ticks(w, batches)| == |batches|
  {
    if batches != [] { TickCount(w, batches[..|batches| - 1]); }
  }

  /**
   * A successor that saw the ETags of the late poll's HEADs and so listed nothing leaves the late
   * listing right, wherever between those two HEAD phases it was taken.
   */
  lemma SilentSuccessorIsHarmless(sub: Sub, h: World, before: seq<Mutation>, after: seq<Mutation>, scopes: seq<Key>,
                                  layout: set<Key>)
    requires Separated(layout) && NoDup(scopes) && Elements(scopes) <= layout && EtagsUsed(h, layout)
    requires Writers(before, layout) && Writers(after, layout)
    requires sub.initialized
    requires var b := CommitAll(CommitAll(h, before), after).store;
             !AnyChanged(Headed(sub, h.store, scopes).etags, scopes, b, {})
    ensures var a := CommitAll(h, before);
            Known(a.store, scopes) == Known(CommitAll(a, after).store, scopes)
  {
    hide Etag, Remembered, SameUnder, AllEntries, Record, CommitAll, EtagsUsed, Separated, AnyChanged, HeadEtags,
         Writers;
    var a := CommitAll(h, before);
    var b := CommitAll(a, after).store;
    var seen := Headed(sub, h.store, scopes);
    PollRemembers(sub, h.store, scopes);
    HeadsAnswered(seen.etags, scopes, b, {});
    SameEtagSameObjects(h, before, layout);
    SameEtagSameObjects(a, after, layout);
    forall s | s in scopes ensures Etag(a.store, s) == Etag(b, s) {
      assert s in Elements(scopes) && Remembered(seen.etags, s) == Etag(b, s) == Etag(h.store, s);
      UsedEtag(h, layout, s);
    }
    UnmovedListing(a, after, scopes, layout);
  }

  // ------------------------------------------------------------ the client

  /** Created after the late listing, seen by the successor, gone at the next listing. */
  ghost predicate ShortLived(late: map<Key, nat>, seen: map<Key, nat>, next: map<Key, nat>, k: Key) {
    k !in late && k in seen && k !in next
  }

  /** A key that bears a stamp in two listings bore it in between. */
  ghost predicate StampsNotReused(late: map<Key, nat>, seen: map<Key, nat>, next: map<Key, nat>) {
    forall k :: k in late && k in next && late[k] == next[k] ==> k in seen && seen[k] == next[k]
  }

  /**
   * The client of the overwritten subscriber holds what the successor told it. At the next moved ETag the
   * known state is right again, and the client exactly when no key it holds differently from the late listing
   * has gone back to what that listing had; with stamps that are not reused, exactly when no short-lived key
   * was told to it. Such a key is never deleted at the client.
   */
  lemma LateClientIff(over: Sub, b: Store, late: seq<Entry>, c: Store, scopes: seq<Key>)
    requires NoDup(scopes) && DistinctKeys(AllEntries(c, scopes))
    requires over.initialized && over.known == Record(Empty(), late) && Remembers(over, b, scopes)
               && Moved(b, c, scopes)
    ensures var (next, events) := GatedPoll(over, c, scopes, {});
            var l, r, n := over.known.vals, Known(b, scopes), Known(c, scopes);
            && next.known.vals == n
            && (Apply(r, events) == n <==> Corrected(r, l, n))
            && (StampsNotReused(l, r, n) ==> (Apply(r, events) == n <==> forall k :: !ShortLived(l, r, n, k)))
            && forall k :: ShortLived(l, r, n, k) ==> k in Apply(r, events)
  {
    hide Etag, Remembered, AllEntries, Record, HeadEtags, AnyChanged, Diff, DistinctKeys, Corrected, StampsNotReused,
         ShortLived, Apply;
    var l, r, n := over.known.vals, Known(b, scopes), Known(c, scopes);
    HeadsAnswered(over.etags, scopes, c, {});
    var es := AllEntries(c, scopes);
    ClientCatchesUpIff(r, over.known, es);
    if StampsNotReused(l, r, n) { CorrectedIffNoneShortLived(l, r, n); }
    forall k | ShortLived(l, r, n, k) ensures k in Apply(r, Diff(over.known, es)) {
      ShortLivedStays(r, over.known, es, k);
    }
  }

  lemma CorrectedIffNoneShortLived(l: map<Key, nat>, r: map<Key, nat>, n: map<Key, nat>)
    requires StampsNotReused(l, r, n)
    ensures Corrected(r, l, n) <==> forall k :: !ShortLived(l, r, n, k)
  {
    if Corrected(r, l, n) {
      forall k ensures !ShortLived(l, r, n, k) {
        assert Lookup(r, k) == Lookup(l, k) || Lookup(l, k) != Lookup(n, k);
      }
    } else {
      var k :| Lookup(r, k) != Lookup(l, k) && Lookup(l, k) == Lookup(n, k);
      assert ShortLived(l, r, n, k);
    }
  }

  lemma ShortLivedStays(client: map<Key, nat>, known: OMap<Key, nat>, es: seq<Entry>, k: Key)
    requires known.Valid() && DistinctKeys(es)
    requires ShortLived(known.vals, client, Record(Empty(), es).vals, k)
    ensures k in Apply(client, Diff(known, es))
  {
    hide Record, Apply, Changes, Deletes, DistinctKeys;
    var r := Record(Empty(), es).vals;
    var m := Apply(client, Changes(known.vals, es));
    ApplyAppend(client, Changes(known.vals, es), Deletes(known.keys, r));
    ApplyDeletes(m, known.keys, r);
    ChangesAt(client, known.vals, es, k);
    assert k in known.keys ==> k in Elements(known.keys);
  }

  // ------------------------------------------------------------ two histories

  /** A store that holds one object and the manifest announcing it. */
  function OneObject(scope: Key, rel: Key, obj: Obj, etag: nat): Store {
    map[scope + rel := obj, scope + MANIFEST_KEY := Obj(obj.stamp, etag)]
  }

  /** The store after that object's deletion was announced. */
  function NoObject(scope: Key, at: nat, etag: nat): Store {
    map[scope + MANIFEST_KEY := Obj(at, etag)]
  }

  lemma OneScope(store: Store, scope: Key)
    ensures NoDup([scope]) && AllEntries(store, [scope]) == ScopeEntries(store, scope)
    ensures Known(store, [scope]) == ViewOf(store, scope) && DistinctKeys(AllEntries(store, [scope]))
  {
    hide ScopeEntries, Record, DistinctKeys, ViewOf;
    assert [scope][..0] == [];
    assert [scope][0] == scope;
    assert AllEntries(store, []) == [];
    assert [] + ScopeEntries(store, scope) == ScopeEntries(store, scope);
    ListingIsView(store, scope);
  }

  lemma DataIsNotManifest(scope: Key, rel: Key)
    requires DataKey(rel)
    ensures scope + rel != scope + MANIFEST_KEY
  {
    hide MANIFEST_KEY, DataKey;
    ManifestIsNotData();
    var a, b := scope + rel, scope + MANIFEST_KEY;
    assert a[|scope|..] == rel && b[|scope|..] == MANIFEST_KEY;
  }

  lemma SeenOnce(scope: Key, rel: Key, obj: Obj, etag: nat)
    requires DataKey(rel)
    ensures ViewOf(OneObject(scope, rel, obj, etag), scope) == map[rel := obj.stamp]
    ensures Etag(OneObject(scope, rel, obj, etag), scope) == Some(etag)
  {
    hide MANIFEST_KEY, DataKey;
    DataIsNotManifest(scope, rel);
    forall k | DataKey(k) ensures scope + k in OneObject(scope, rel, obj, etag) <==> k == rel {
      DataIsNotManifest(scope, k);
      assert (scope + k)[|scope|..] == k && (scope + rel)[|scope|..] == rel;
    }
  }

  lemma SeenNever(scope: Key, at: nat, etag: nat)
    ensures ViewOf(NoObject(scope, at, etag), scope) == map[] && ViewOf(map[], scope) == map[]
    ensures Etag(NoObject(scope, at, etag), scope) == Some(etag) && Etag(map[], scope) == None
  {
    hide MANIFEST_KEY, DataKey;
    forall k | DataKey(k) ensures scope + k !in NoObject(scope, at, etag) { DataIsNotManifest(scope, k); }
  }

  /** What a client starting with nothing makes of the events of a listing poll from a known state. */
  lemma ListingPoll(sub: Sub, store: Store, scope: Key)
    requires !sub.initialized || Remembered(sub.etags, scope) != Etag(store, scope)
    requires sub.known.Valid()
    ensures var (g, events) := GatedPoll(sub, store, [scope], {});
            && g.initialized && Remembers(g, store, [scope])
            && g.known == Record(Empty(), ScopeEntries(store, scope)) && g.known.vals == ViewOf(store, scope)
            && Apply(sub.known.vals, events) == ViewOf(store, scope)
  {
    hide Etag, Remembered, AllEntries, Record, HeadEtags, AnyChanged, Diff, DistinctKeys, Corrected, ViewOf, Apply,
         ScopeEntries;
    OneScope(store, scope);
    assert scope in [scope];
    HeadsAnswered(sub.etags, [scope], store, {});
    ClientCatchesUpIff(sub.known.vals, sub.known, AllEntries(store, [scope]));
    assert Corrected(sub.known.vals, sub.known.vals, ViewOf(store, scope)) by {
      SameIsCorrected(sub.known.vals, ViewOf(store, scope));
    }
  }

  lemma SameIsCorrected(known: map<Key, nat>, r: map<Key, nat>)
    ensures Corrected(known, known, r)
  {
  }

  /**
   * The first poll lists the empty bucket and hangs; a profile is created and its successor tells the client;
   * the first poll finishes; the profile is deleted. The next poll knows that, the client keeps the profile,
   * and no poll tells it while the ETag stays.
   */
  lemma LateOverwriteKeepsDeleted(scope: Key, rel: Key, obj: Obj, at: nat, ticks: seq<Store>)
    requires DataKey(rel) && forall n :: 0 <= n < |ticks| ==> ticks[n] == NoObject(scope, at, 2)
    ensures var a: Store, b, c := map[], OneObject(scope, rel, obj, 1), NoObject(scope, at, 2);
            var (g, told) := GatedPoll(Headed(NewSub, a, [scope]), b, [scope], {});
            var over := Overwritten(g, AllEntries(a, [scope]));
            var (next, events) := GatedPoll(over, c, [scope], {});
            var (later, out) := Polls(next, ticks, [scope]);
            && Apply(map[], told) == map[rel := obj.stamp]
            && rel in Apply(Apply(map[], told), events)
            && later.known.vals == Known(c, [scope]) == map[]
            && forall n :: 0 <= n < |out| ==> out[n] == []
  {
    hide Etag, Remembered, AllEntries, Record, GatedPoll, Apply, ViewOf, OneObject, NoObject, Polls, Corrected;
    var a: Store, b, c := map[], OneObject(scope, rel, obj, 1), NoObject(scope, at, 2);
    SeenOnce(scope, rel, obj, 1);
    SeenNever(scope, at, 2);
    ListingPoll(Headed(NewSub, a, [scope]), b, scope);
    var g := GatedPoll(Headed(NewSub, a, [scope]), b, [scope], {}).0;
    var over := Overwritten(g, AllEntries(a, [scope]));
    OneScope(a, scope);
    OneScope(b, scope);
    OneScope(c, scope);
    assert scope in [scope];
    assert Moved(b, c, [scope]);
    LateClientIff(over, b, AllEntries(a, [scope]), c, [scope]);
    assert ShortLived(over.known.vals, Known(b, [scope]), Known(c, [scope]), rel);
    ListingPoll(over, c, scope);
    LossLasts(GatedPoll(over, c, [scope], {}).0, ticks, [scope]);
  }

  /**
   * A superseded poll listed a new profile: the subscription knows it, the client never hears of it, and no
   * poll tells it while the ETag stays.
   */
  lemma SupersededPollLosesKey(scope: Key, rel: Key, obj: Obj, ticks: seq<Store>)
    requires DataKey(rel) && forall n :: 0 <= n < |ticks| ==> ticks[n] == OneObject(scope, rel, obj, 1)
    ensures var b := OneObject(scope, rel, obj, 1);
            var (first, told) := GatedPoll(NewSub, map[], [scope], {});
            var (known, dropped) := GatedPoll(first, b, [scope], {});
            var (later, out) := Polls(known, ticks, [scope]);
            && Apply(map[], told) == map[] && dropped != []
            && later.known.vals == Known(b, [scope]) == map[rel := obj.stamp]
            && forall n :: 0 <= n < |out| ==> out[n] == []
  {
    hide Etag, Remembered, AllEntries, Record, GatedPoll, ViewOf, OneObject, Polls, Corrected;
    var b := OneObject(scope, rel, obj, 1);
    SeenOnce(scope, rel, obj, 1);
    SeenNever(scope, 0, 0);
    ListingPoll(NewSub, map[], scope);
    var first := GatedPoll(NewSub, map[], [scope], {}).0;
    assert scope in [scope];
    ListingPoll(first, b, scope);
    OneScope(b, scope);
    LossLasts(GatedPoll(first, b, [scope], {}).0, ticks, [scope]);
  }
}
