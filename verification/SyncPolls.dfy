/** What a subscriber's events mean over whole runs of polls. */
module SyncPolls {
  import opened Common
  import opened OrderedMaps
  import opened ObjectKeys
  import opened SyncScopes
  import opened SyncSubscriber
  import opened SyncWorld

  /** A client that applies the events it receives. */
  function Apply(m: map<Key, nat>, events: seq<Event>): map<Key, nat> {
    if events == [] then m else
      var before := Apply(m, events[..|events| - 1]);
      match events[|events| - 1]
      case Change(k, stamp) => before[k := stamp]
      case Delete(k) => before - {k}
  }

  function EventKeys(events: seq<Event>): seq<Key> {
    if events == [] then [] else EventKeys(events[..|events| - 1]) + [events[|events| - 1].key]
  }

  lemma EventKeysStep(a: seq<Event>, e: Event)
    ensures EventKeys(a + [e]) == EventKeys(a) + [e.key]
  {
    assert (a + [e])[..|a|] == a;
  }

  lemma EventKeysAppend(a: seq<Event>, b: seq<Event>)
    ensures EventKeys(a + b) == EventKeys(a) + EventKeys(b)
  {
    if b == [] {
      assert a + b == a;
    } else {
      assert (a + b)[..|a + b| - 1] == a + b[..|b| - 1];
      EventKeysAppend(a, b[..|b| - 1]);
    }
  }

  lemma ApplyAppend(m: map<Key, nat>, a: seq<Event>, b: seq<Event>)
    ensures Apply(m, a + b) == Apply(Apply(m, a), b)
  {
    if b == [] {
      assert a + b == a;
    } else {
      assert (a + b)[..|a + b| - 1] == a + b[..|b| - 1];
      ApplyAppend(m, a, b[..|b| - 1]);
    }
  }

  // ------------------------------------------------- one poll: folding the events

  ghost predicate SomeDiffers(known: map<Key, nat>, es: seq<Entry>, k: Key) {
    exists i :: 0 <= i < |es| && es[i].key == k && Differs(known, es[i])
  }

  /**
   * Two scopes list the same relative key, the one listed last still has the known stamp
   * and the other one does not.
   */
  ghost predicate Shadowed(known: map<Key, nat>, es: seq<Entry>) {
    var r := Record(Empty(), es).vals;
    exists i :: 0 <= i < |es| && Differs(known, es[i]) && es[i].key in r
      && !Differs(known, Entry(es[i].key, r[es[i].key]))
  }

  lemma {:induction false} RecordHasKeys(es: seq<Entry>, i: nat)
    requires i < |es|
    ensures es[i].key in Record(Empty(), es).vals
  {
    if i < |es| - 1 { RecordHasKeys(es[..|es| - 1], i); }
  }

  lemma {:induction false} RecordIsListed(es: seq<Entry>, k: Key) returns (i: nat)
    requires k in Record(Empty(), es).vals
    ensures i < |es| && es[i] == Entry(k, Record(Empty(), es).vals[k])
  {
    i := |es| - 1;
    if es[i].key != k { i := RecordIsListed(es[..i], k); }
  }

  /** Key by key, what the change events alone do to the known state. */
  lemma NoneDiffers(known: map<Key, nat>, k: Key)
    ensures !SomeDiffers(known, [], k)
  {
  }

  lemma ApplyStep(m: map<Key, nat>, events: seq<Event>, e: Event)
    ensures e.Change? ==> Apply(m, events + [e]) == Apply(m, events)[e.key := e.stamp]
    ensures e.Delete? ==> Apply(m, events + [e]) == Apply(m, events) - {e.key}
  {
    assert (events + [e])[..|events|] == events;
  }

  /** One listed entry, applied: a differing one is taken over, any other changes nothing. */
  lemma ChangesStep(client: map<Key, nat>, known: map<Key, nat>, es: seq<Entry>)
    requires es != []
    ensures var e := es[|es| - 1];
            var before := Apply(client, Changes(known, es[..|es| - 1]));
            Apply(client, Changes(known, es)) == if Differs(known, e) then before[e.key := e.stamp] else before
  {
    hide Apply, Differs;
    var c, e := Changes(known, es[..|es| - 1]), es[|es| - 1];
    ApplyStep(client, c, Change(e.key, e.stamp));
    assert c + [] == c;
  }

  lemma {:induction false} ApplyChanges(known: map<Key, nat>, es: seq<Entry>, k: Key)
    ensures var m, r := Apply(known, Changes(known, es)), Record(Empty(), es).vals;
            && (k in m <==> k in known || k in r)
            && (k in m && k !in r ==> m[k] == known[k])
            && (k in r && Differs(known, Entry(k, r[k])) ==> m[k] == r[k] && SomeDiffers(known, es, k))
            && (k in r && !Differs(known, Entry(k, r[k])) ==> (m[k] == r[k] <==> !SomeDiffers(known, es, k)))
            && (k !in r ==> !SomeDiffers(known, es, k))
  {
    hide SomeDiffers;
    if es != [] {
      var front, e := es[..|es| - 1], es[|es| - 1];
      ApplyChanges(known, front, k);
      ChangesStep(known, known, es);
      SomeDiffersStep(known, es, k);
    } else {
      NoneDiffers(known, k);
    }
  }

  lemma SomeDiffersStep(known: map<Key, nat>, es: seq<Entry>, k: Key)
    requires es != []
    ensures SomeDiffers(known, es, k)
       <==> SomeDiffers(known, es[..|es| - 1], k) || (es[|es| - 1].key == k && Differs(known, es[|es| - 1]))
  {
    var front := es[..|es| - 1];
    if SomeDiffers(known, front, k) {
      var i :| 0 <= i < |front| && front[i].key == k && Differs(known, front[i]);
      assert es[i].key == k;
    }
    if SomeDiffers(known, es, k) {
      var i :| 0 <= i < |es| && es[i].key == k && Differs(known, es[i]);
      assert i < |front| ==> front[i] == es[i];
    }
  }

  lemma ApplyDeletes(m: map<Key, nat>, keys: seq<Key>, current: map<Key, nat>)
    ensures var r := Apply(m, Deletes(keys, current));
            && (forall k :: k in r <==> k in m && !(k in keys && k !in current))
            && (forall k :: k in r ==> r[k] == m[k])
  {
    if keys != [] {
      var front, k := keys[..|keys| - 1], keys[|keys| - 1];
      assert keys == front + [k];
      ApplyDeletes(m, front, current);
      ApplyAppend(m, Deletes(front, current), if k !in current then [Delete(k)] else []);
    }
  }

  /** Folding a poll's events over the known state gives the new one, unless an entry is shadowed. */
  lemma FoldGivesListing(known: OMap<Key, nat>, es: seq<Entry>)
    requires known.Valid()
    ensures Apply(known.vals, Diff(known, es)) == Record(Empty(), es).vals <==> !Shadowed(known.vals, es)
  {
    hide Record, Apply, Changes, Deletes, SomeDiffers, Shadowed;
    var r := Record(Empty(), es).vals;
    var m := Apply(known.vals, Changes(known.vals, es));
    ApplyAppend(known.vals, Changes(known.vals, es), Deletes(known.keys, r));
    ApplyDeletes(m, known.keys, r);
    assert forall k :: k in known.keys <==> k in Elements(known.keys);
    forall k
      ensures k in r ==>
                k in m && (m[k] == r[k] <==> Differs(known.vals, Entry(k, r[k])) || !SomeDiffers(known.vals, es, k))
      ensures k in m <==> k in known.vals || k in r
    {
      ApplyChanges(known.vals, es, k);
    }
    var folded := Apply(known.vals, Diff(known, es));
    assert folded.Keys == r.Keys;
    assert forall k :: k in r ==> folded[k] == m[k];
    FoldIffUnshadowed(known, es, m);
    assert folded == r <==> forall k :: k in r ==> m[k] == r[k];
  }

  lemma FoldIffUnshadowed(known: OMap<Key, nat>, es: seq<Entry>, m: map<Key, nat>)
    requires var r := Record(Empty(), es).vals;
             forall k :: k in r ==>
               k in m && (m[k] == r[k] <==> Differs(known.vals, Entry(k, r[k])) || !SomeDiffers(known.vals, es, k))
    ensures var r := Record(Empty(), es).vals;
            (forall k :: k in r ==> m[k] == r[k]) <==> !Shadowed(known.vals, es)
  {
    hide Record;
    var r := Record(Empty(), es).vals;
    if Shadowed(known.vals, es) {
      var i :| 0 <= i < |es| && Differs(known.vals, es[i]) && es[i].key in r
        && !Differs(known.vals, Entry(es[i].key, r[es[i].key]));
      assert SomeDiffers(known.vals, es, es[i].key);
    }
    if k :| k in r && m[k] != r[k] {
      var i :| 0 <= i < |es| && es[i].key == k && Differs(known.vals, es[i]);
    }
  }

  // ------------------------------------------------- one poll: repeated keys

  ghost predicate TwiceDiffering(known: map<Key, nat>, es: seq<Entry>) {
    exists i, j :: 0 <= i < j < |es| && es[i].key == es[j].key && Differs(known, es[i]) && Differs(known, es[j])
  }

  ghost predicate DistinctKeys(es: seq<Entry>) {
    forall i, j :: 0 <= i < j < |es| ==> es[i].key != es[j].key
  }

  lemma {:induction false} ChangeKeys(known: map<Key, nat>, es: seq<Entry>, k: Key)
    ensures k in EventKeys(Changes(known, es)) <==> SomeDiffers(known, es, k)
  {
    if es != [] {
      var front, e := es[..|es| - 1], es[|es| - 1];
      var c := Changes(known, front);
      assert c + [] == c;
      ChangeKeys(known, front, k);
      SomeDiffersStep(known, es, k);
      if Differs(known, e) { EventKeysStep(c, Change(e.key, e.stamp)); }
    }
  }

  lemma {:induction false} ChangesOnce(known: map<Key, nat>, es: seq<Entry>)
    ensures NoDup(EventKeys(Changes(known, es))) <==> !TwiceDiffering(known, es)
  {
    if es != [] {
      var front, e := es[..|es| - 1], es[|es| - 1];
      var c := Changes(known, front);
      assert c + [] == c;
      ChangesOnce(known, front);
      ChangeKeys(known, front, e.key);
      TwiceStep(known, es);
      if Differs(known, e) {
        EventKeysStep(c, Change(e.key, e.stamp));
        NoDupStep(EventKeys(c), e.key);
      }
    }
  }

  lemma TwiceStep(known: map<Key, nat>, es: seq<Entry>)
    requires es != []
    ensures var e := es[|es| - 1];
            TwiceDiffering(known, es) <==>
              TwiceDiffering(known, es[..|es| - 1]) || (Differs(known, e) && SomeDiffers(known, es[..|es| - 1], e.key))
  {
    var front, e := es[..|es| - 1], es[|es| - 1];
    if TwiceDiffering(known, es) {
      var i, j :| 0 <= i < j < |es| && es[i].key == es[j].key && Differs(known, es[i]) && Differs(known, es[j]);
      assert front[i] == es[i];
      if j < |front| { assert front[j] == es[j]; }
    }
    if TwiceDiffering(known, front) {
      var i, j :| 0 <= i < j < |front| && front[i].key == front[j].key && Differs(known, front[i])
        && Differs(known, front[j]);
      assert es[i].key == es[j].key;
    }
    if Differs(known, e) && SomeDiffers(known, front, e.key) {
      var i :| 0 <= i < |front| && front[i].key == e.key && Differs(known, front[i]);
      assert es[i].key == es[|es| - 1].key;
    }
  }

  lemma {:induction false} DeletesOnce(keys: seq<Key>, current: map<Key, nat>)
    requires NoDup(keys)
    ensures NoDup(EventKeys(Deletes(keys, current)))
    ensures forall k :: k in EventKeys(Deletes(keys, current)) <==> k in keys && k !in current
  {
    if keys != [] {
      var front, k := keys[..|keys| - 1], keys[|keys| - 1];
      assert keys == front + [k];
      NoDupStep(front, k);
      DeletesOnce(front, current);
      assert Deletes(front, current) + [] == Deletes(front, current);
      if k !in current {
        var d := Deletes(front, current);
        EventKeysStep(d, Delete(k));
        NoDupStep(EventKeys(d), k);
      }
    }
  }

  /** A poll emits some key twice exactly when two listed entries of that key both differ from what was known. */
  lemma PollEmitsOnce(known: OMap<Key, nat>, es: seq<Entry>)
    requires known.Valid()
    ensures NoDup(EventKeys(Diff(known, es))) <==> !TwiceDiffering(known.vals, es)
  {
    var r := Record(Empty(), es).vals;
    var c, d := Changes(known.vals, es), Deletes(known.keys, r);
    ChangesOnce(known.vals, es);
    DeletesOnce(known.keys, r);
    forall k | k in EventKeys(c) ensures k !in EventKeys(d) {
      ChangeKeys(known.vals, es, k);
      var i :| 0 <= i < |es| && es[i].key == k;
      RecordHasKeys(es, i);
    }
    EventKeysAppend(c, d);
    NoDupConcat(EventKeys(c), EventKeys(d));
  }

  // ------------------------------------------------- runs: gated and ungated

  /** Entries of the same key carry the same stamp. */
  ghost predicate Steady(es: seq<Entry>) {
    forall i, j :: 0 <= i < |es| && 0 <= j < |es| && es[i].key == es[j].key ==> es[i].stamp == es[j].stamp
  }

  lemma {:induction false} NoChanges(known: map<Key, nat>, es: seq<Entry>)
    ensures Changes(known, es) == [] <==> forall i :: 0 <= i < |es| ==> !Differs(known, es[i])
  {
    if es != [] {
      NoChanges(known, es[..|es| - 1]);
    }
  }

  lemma {:induction false} NoDeletes(keys: seq<Key>, current: map<Key, nat>)
    requires forall k :: k in keys ==> k in current
    ensures Deletes(keys, current) == []
  {
    if keys != [] {
      var front := keys[..|keys| - 1];
      assert forall k :: k in front ==> k in keys;
      assert keys[|keys| - 1] in keys;
      NoDeletes(front, current);
    }
  }

  /** Listing the same entries again is silent exactly when no key is listed with two stamps. */
  lemma RelistIsSilent(es: seq<Entry>)
    ensures Diff(Record(Empty(), es), es) == [] <==> Steady(es)
  {
    hide Record, Changes, Deletes;
    var known := Record(Empty(), es);
    var r := known.vals;
    NoChanges(r, es);
    forall k | k in known.keys ensures k in r { assert k in Elements(known.keys); }
    NoDeletes(known.keys, r);
    assert Changes(r, es) + [] == Changes(r, es);
    forall i | 0 <= i < |es| ensures es[i].key in r { RecordHasKeys(es, i); }
    if Steady(es) {
      forall i | 0 <= i < |es| ensures !Differs(r, es[i]) {
        var j := RecordIsListed(es, es[i].key);
      }
    }
  }

  lemma EntriesSame(a: Store, b: Store, scope: Key, page: seq<Key>)
    requires forall k :: k in page ==> Stamp(a, k) == Stamp(b, k)
    ensures Entries(a, scope, page) == Entries(b, scope, page)
  {
    hide DataKey;
    if page != [] {
      var front := page[..|page| - 1];
      assert forall k :: k in front ==> k in page;
      assert page[|page| - 1] in page;
      EntriesSame(a, b, scope, front);
    }
  }

  lemma ScopeEntriesSame(a: Store, b: Store, scope: Key)
    requires SameUnder(a, b, scope)
    ensures ScopeEntries(a, scope) == ScopeEntries(b, scope)
  {
    hide DataKey, Entries, Le;
    assert Remaining(a, scope, None) == Remaining(b, scope, None);
    EntriesSame(a, b, scope, Listing(a, scope, None));
  }

  lemma AllEntriesSame(a: Store, b: Store, scopes: seq<Key>)
    requires forall s :: s in scopes ==> SameUnder(a, b, s)
    ensures AllEntries(a, scopes) == AllEntries(b, scopes)
  {
    hide SameUnder, ScopeEntries;
    if scopes != [] {
      var front := scopes[..|scopes| - 1];
      assert forall s :: s in front ==> s in scopes;
      assert scopes[|scopes| - 1] in scopes;
      AllEntriesSame(a, b, front);
      ScopeEntriesSame(a, b, scopes[|scopes| - 1]);
    }
  }

  /**
   * After the HEAD phase the remembered ETag of an answered scope is the stored one and any other is the
   * old one; a move of an answered scope was noticed, whichever scopes did not answer.
   */
  lemma {:induction false} HeadsAnswered(etags: map<Key, Option<nat>>, scopes: seq<Key>, store: Store,
        unreachable: set<Key>)
    requires NoDup(scopes)
    ensures var after := HeadEtags(etags, scopes, store, unreachable);
            forall s :: Remembered(after, s) ==
              if s in scopes && s !in unreachable then Etag(store, s) else Remembered(etags, s)
    ensures AnyChanged(etags, scopes, store, unreachable) <==>
              exists s :: s in scopes && s !in unreachable && Remembered(etags, s) != Etag(store, s)
  {
    hide Etag;
    if scopes != [] {
      var front, last := scopes[..|scopes| - 1], scopes[|scopes| - 1];
      assert scopes == front + [last];
      NoDupStep(front, last);
      HeadsAnswered(etags, front, store, unreachable);
    }
  }

  function GatedRun(stores: seq<Store>, scopes: seq<Key>): (Sub, seq<seq<Event>>) {
    if stores == [] then (NewSub, []) else
      var (sub, out) := GatedRun(stores[..|stores| - 1], scopes);
      var (sub', events) := GatedPoll(sub, stores[|stores| - 1], scopes, {});
      (sub', out + [events])
  }

  function FullRun(stores: seq<Store>, scopes: seq<Key>): (Sub, seq<seq<Event>>) {
    if stores == [] then (NewSub, []) else
      var (sub, out) := FullRun(stores[..|stores| - 1], scopes);
      var (sub', events) := FullPoll(sub, stores[|stores| - 1], scopes);
      (sub', out + [events])
  }

  /** The bucket as each tick finds it, when each tick is preceded by a batch of committed mutations. */
  function Ticks(w: World, batches: seq<seq<Mutation>>): seq<Store> {
    if batches == [] then [] else
      Ticks(w, batches[..|batches| - 1]) + [WorldAfter(w, batches).store]
  }

  function WorldAfter(w: World, batches: seq<seq<Mutation>>): World {
    if batches == [] then w
    else CommitAll(WorldAfter(w, batches[..|batches| - 1]), batches[|batches| - 1])
  }

  ghost predicate AllWriters(batches: seq<seq<Mutation>>, layout: set<Key>) {
    forall i :: 0 <= i < |batches| ==> Writers(batches[i], layout)
  }

  /** Some subscribed manifest has another ETag. */
  ghost predicate Moved(a: Store, b: Store, scopes: seq<Key>) {
    exists s :: s in scopes && Etag(a, s) != Etag(b, s)
  }

  /** At every tick after the first some manifest has moved, or no key is listed with two stamps. */
  ghost predicate NothingHeldBack(stores: seq<Store>, scopes: seq<Key>) {
    forall i :: 0 < i < |stores| ==> Moved(stores[i - 1], stores[i], scopes) || Steady(AllEntries(stores[i], scopes))
  }

  /** After at least one tick: what both subscribers hold. */
  ghost predicate InStep(g: Sub, f: Sub, store: Store, scopes: seq<Key>) {
    && g.initialized && g.known == f.known
    && f.known == Record(Empty(), AllEntries(store, scopes))
    && forall s :: s in scopes ==> Remembered(g.etags, s) == Etag(store, s)
  }

  /** One more tick keeps the two in step; it gives both the same events unless the full one repeats itself. */
  lemma TickInStep(g: Sub, f: Sub, a: Store, b: Store, scopes: seq<Key>)
    requires NoDup(scopes) && InStep(g, f, a, scopes)
    requires forall s :: s in scopes && Etag(a, s) == Etag(b, s) ==> SameUnder(a, b, s)
    ensures var (g', eg) := GatedPoll(g, b, scopes, {});
            var (f', ef) := FullPoll(f, b, scopes);
            && InStep(g', f', b, scopes)
            && (eg == ef <==> Moved(a, b, scopes) || Steady(AllEntries(b, scopes)))
  {
    hide Etag, SameUnder, AllEntries, Record, Changes, Deletes, HeadEtags, AnyChanged, Steady, Diff;
    HeadsAnswered(g.etags, scopes, b, {});
    if !AnyChanged(g.etags, scopes, b, {}) {
      AllEntriesSame(a, b, scopes);
      RelistIsSilent(AllEntries(b, scopes));
    }
  }

  /** The two subscribers after the same ticks: in step, and alike in what they emitted iff nothing was held back. */
  ghost predicate Compared(w: World, batches: seq<seq<Mutation>>, scopes: seq<Key>) {
    var stores := Ticks(w, batches);
    var (g, og) := GatedRun(stores, scopes);
    var (f, of) := FullRun(stores, scopes);
    && |stores| == |batches| == |og| == |of|
    && (og == of <==> NothingHeldBack(stores, scopes))
    && (batches != [] ==>
          stores[|stores| - 1] == WorldAfter(w, batches).store
          && InStep(g, f, WorldAfter(w, batches).store, scopes))
  }

  /**
   * When every mutation is bumped before the next tick, the ETag-gated subscriber emits, tick by tick,
   * the events of one that LISTs every time, exactly unless a tick without a moved manifest lists some
   * key with two stamps.
   */
  lemma {:induction false} GatedEqualsFull(w: World, batches: seq<seq<Mutation>>, scopes: seq<Key>, layout: set<Key>)
    requires Separated(layout) && NoDup(scopes) && Elements(scopes) <= layout
    requires EtagsUsed(w, layout) && AllWriters(batches, layout)
    ensures GatedRun(Ticks(w, batches), scopes).1 == FullRun(Ticks(w, batches), scopes).1
       <==> NothingHeldBack(Ticks(w, batches), scopes)
    ensures Compared(w, batches, scopes) && EtagsUsed(WorldAfter(w, batches), layout)
  {
    if batches == [] {
      NoTicks(w, scopes);
    } else {
      hide Ticks, GatedRun, FullRun, NothingHeldBack, EtagsUsed, InStep;
      var front := batches[..|batches| - 1];
      var a, b := WorldAfter(w, front), WorldAfter(w, batches);
      GatedEqualsFull(w, front, scopes, layout);
      SameEtagSameObjects(a, batches[|batches| - 1], layout);
      forall s | s in scopes && Etag(a.store, s) == Etag(b.store, s) ensures SameUnder(a.store, b.store, s) {
        assert s in Elements(scopes);
        UsedEtag(a, layout, s);
      }
      GatedTick(w, batches, scopes);
    }
  }

  lemma UsedEtag(w: World, layout: set<Key>, s: Key)
    requires EtagsUsed(w, layout) && s in layout
    ensures Etag(w.store, s).Some? ==> Etag(w.store, s).value < w.nextEtag
  {
    hide Etag;
  }

  lemma NoTicks(w: World, scopes: seq<Key>)
    ensures Compared(w, [], scopes)
  {
  }

  /** Both runs, one tick longer. */
  lemma RunStep(stores: seq<Store>, b: Store, scopes: seq<Key>)
    ensures var (g, og) := GatedRun(stores, scopes);
            var (f, of) := FullRun(stores, scopes);
            && GatedRun(stores + [b], scopes) == (GatedPoll(g, b, scopes, {}).0, og + [GatedPoll(g, b, scopes, {}).1])
            && FullRun(stores + [b], scopes) == (FullPoll(f, b, scopes).0, of + [FullPoll(f, b, scopes).1])
  {
    hide GatedPoll, FullPoll;
    assert (stores + [b])[..|stores|] == stores;
  }

  lemma TicksStep(w: World, batches: seq<seq<Mutation>>)
    requires batches != []
    ensures Ticks(w, batches) == Ticks(w, batches[..|batches| - 1]) + [WorldAfter(w, batches).store]
  {
    hide WorldAfter;
  }

  lemma HeldBackStep(stores: seq<Store>, b: Store, scopes: seq<Key>)
    requires stores != []
    ensures NothingHeldBack(stores + [b], scopes) <==>
            NothingHeldBack(stores, scopes) && (Moved(stores[|stores| - 1], b, scopes) || Steady(AllEntries(b, scopes)))
  {
    hide Moved, Steady, AllEntries;
    var n := |stores|;
    assert (stores + [b])[n] == b && (stores + [b])[n - 1] == stores[n - 1];
    assert forall i :: 0 <= i < n ==> (stores + [b])[i] == stores[i];
  }

  lemma SameAndLast<T>(a: seq<T>, b: seq<T>, x: T, y: T)
    requires |a| == |b|
    ensures a + [x] == b + [y] <==> a == b && x == y
  {
    if a + [x] == b + [y] {
      assert (a + [x])[..|a|] == a && (b + [y])[..|b|] == b;
      assert (a + [x])[|a|] == x && (b + [y])[|b|] == y;
    }
  }

  /** The very first tick: both list. */
  lemma FirstTick(b: Store, scopes: seq<Key>)
    requires NoDup(scopes)
    ensures var (g, eg) := GatedPoll(NewSub, b, scopes, {});
            var (f, ef) := FullPoll(NewSub, b, scopes);
            eg == ef && InStep(g, f, b, scopes)
  {
    hide Etag, AllEntries, Record, HeadEtags, AnyChanged, Diff;
    HeadsAnswered(NewSub.etags, scopes, b, {});
  }

  lemma GatedTick(w: World, batches: seq<seq<Mutation>>, scopes: seq<Key>)
    requires NoDup(scopes) && batches != [] && Compared(w, batches[..|batches| - 1], scopes)
    requires var a, b := WorldAfter(w, batches[..|batches| - 1]).store, WorldAfter(w, batches).store;
             forall s :: s in scopes && Etag(a, s) == Etag(b, s) ==> SameUnder(a, b, s)
    ensures Compared(w, batches, scopes)
  {
    hide Etag, SameUnder, GatedRun, FullRun, GatedPoll, FullPoll, Ticks, WorldAfter, InStep, NothingHeldBack, Moved,
         Steady, AllEntries;
    var front := batches[..|batches| - 1];
    var stores, b := Ticks(w, front), WorldAfter(w, batches).store;
    var (g, og) := GatedRun(stores, scopes);
    var (f, of) := FullRun(stores, scopes);
    TicksStep(w, batches);
    RunStep(stores, b, scopes);
    SameAndLast(og, of, GatedPoll(g, b, scopes, {}).1, FullPoll(f, b, scopes).1);
    if front == [] {
      NothingRun(scopes);
      assert [] + [b] == [b];
      OneTick(b, scopes);
      FirstTick(b, scopes);
    } else {
      TickInStep(g, f, WorldAfter(w, front).store, b, scopes);
      HeldBackStep(stores, b, scopes);
    }
  }

  lemma NothingRun(scopes: seq<Key>)
    ensures GatedRun([], scopes) == (NewSub, []) && FullRun([], scopes) == (NewSub, [])
  {
  }

  lemma OneTick(b: Store, scopes: seq<Key>)
    ensures NothingHeldBack([b], scopes)
  {
    hide Moved, Steady;
  }
}
