/**
 * A poll superseded by the next tick: it has updated the subscription's state, but its events never reach the client.
 */
module SyncDropped {
  import opened Common
  import opened OrderedMaps
  import opened ObjectKeys
  import opened SyncSubscriber
  import opened SyncPolls

  function Lookup(m: map<Key, nat>, k: Key): Option<nat> {
    if k in m then Some(m[k]) else None
  }

  /** What the client holds may differ from the known state only where the listing differs from it too. */
  ghost predicate Corrected(client: map<Key, nat>, known: map<Key, nat>, r: map<Key, nat>) {
    forall k :: Lookup(client, k) == Lookup(known, k) || Lookup(known, k) != Lookup(r, k)
  }

  /** Key by key, what the changes against `known` do to a client that holds something else. */
  lemma {:induction false} ChangesAt(client: map<Key, nat>, known: map<Key, nat>, es: seq<Entry>, k: Key)
    requires DistinctKeys(es)
    ensures var r := Record(Empty(), es).vals;
            Lookup(Apply(client, Changes(known, es)), k) ==
              if k in r && Lookup(known, k) != Lookup(r, k) then Lookup(r, k) else Lookup(client, k)
  {
    if es != [] {
      var front, e := es[..|es| - 1], es[|es| - 1];
      ChangesAt(client, known, front, k);
      ChangesStep(client, known, es);
      LastIsNew(es);
    }
  }

  lemma LastIsNew(es: seq<Entry>)
    requires DistinctKeys(es) && es != []
    ensures es[|es| - 1].key !in Record(Empty(), es[..|es| - 1]).vals
  {
    hide Record;
    var front, e := es[..|es| - 1], es[|es| - 1];
    assert forall i :: 0 <= i < |front| ==> front[i] == es[i] && es[i].key != es[|es| - 1].key;
    if e.key in Record(Empty(), front).vals { var i := RecordIsListed(front, e.key); }
  }

  /**
   * Whatever a client holds, a poll's events bring it to the listed state exactly when every key on
   * which it disagrees with the subscription's known state is changed by this very poll.
   */
  lemma ClientCatchesUpIff(client: map<Key, nat>, known: OMap<Key, nat>, es: seq<Entry>)
    requires known.Valid() && DistinctKeys(es)
    ensures Apply(client, Diff(known, es)) == Record(Empty(), es).vals
       <==> Corrected(client, known.vals, Record(Empty(), es).vals)
  {
    hide Record, Apply, Changes, Deletes, DistinctKeys;
    var r := Record(Empty(), es).vals;
    var m := Apply(client, Changes(known.vals, es));
    var out := Apply(client, Diff(known, es));
    ApplyAppend(client, Changes(known.vals, es), Deletes(known.keys, r));
    ApplyDeletes(m, known.keys, r);
    assert forall k :: k in known.keys <==> k in Elements(known.keys);
    forall k
      ensures Lookup(out, k) == Lookup(r, k)
         <==> (Lookup(client, k) == Lookup(known.vals, k) || Lookup(known.vals, k) != Lookup(r, k)) {
      ChangesAt(client, known.vals, es, k);
    }
    SameLookups(out, r);
  }

  lemma SameLookups(a: map<Key, nat>, b: map<Key, nat>)
    ensures a == b <==> forall k :: Lookup(a, k) == Lookup(b, k)
  {
    if forall k :: Lookup(a, k) == Lookup(b, k) {
      assert forall k :: k in a <==> Lookup(a, k).Some?;
      assert forall k :: k in b <==> Lookup(b, k).Some?;
      assert a.Keys == b.Keys;
    }
  }

  /**
   * A client in step misses the events of one superseded poll. After the next delivered poll it is in
   * step again exactly when every key the missed poll changed has changed once more; with the same
   * listing, exactly when the missed poll had nothing to tell.
   */
  lemma SupersededPollIff(known: OMap<Key, nat>, missed: seq<Entry>, next: seq<Entry>)
    requires known.Valid() && DistinctKeys(missed) && DistinctKeys(next)
    ensures var r1, r2 := Record(Empty(), missed), Record(Empty(), next);
            Apply(known.vals, Diff(r1, next)) == r2.vals <==> Corrected(known.vals, r1.vals, r2.vals)
    ensures var r := Record(Empty(), missed);
            Apply(known.vals, Diff(r, missed)) == r.vals <==> known.vals == r.vals
  {
    hide Record, Apply, Changes, Deletes, DistinctKeys, Diff;
    ClientCatchesUpIff(known.vals, Record(Empty(), missed), next);
    ClientCatchesUpIff(known.vals, Record(Empty(), missed), missed);
    SameLookups(known.vals, Record(Empty(), missed).vals);
  }
}
