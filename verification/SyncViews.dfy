/** What a scope holds, seen through its listing. */
module SyncViews {
  import opened Common
  import opened OrderedMaps
  import opened ObjectKeys
  import opened SyncScopes
  import opened SyncSubscriber
  import opened SyncPolls

  type View = map<Key, nat>

  /** The four-prefix view of a scope: data keys, relative to it, with their stamps. */
  ghost function ViewOf(store: Store, scope: Key): (v: View)
    ensures forall rel :: rel in v <==> DataKey(rel) && scope + rel in store
    ensures forall rel :: rel in v ==> v[rel] == store[scope + rel].stamp
  {
    hide DataKey;
    assert forall k :: scope <= k ==> k == scope + k[|scope|..];
    assert forall rel: Key :: scope <= scope + rel && (scope + rel)[|scope|..] == rel;
    map k | k in store && scope <= k && DataKey(k[|scope|..]) :: k[|scope|..] := store[k].stamp
  }

  /** Later scopes overwrite earlier ones. */
  ghost function Merge(views: seq<View>): View {
    if views == [] then map[] else Merge(views[..|views| - 1]) + views[|views| - 1]
  }

  ghost function ViewsOf(store: Store, scopes: seq<Key>): (r: seq<View>)
    ensures |r| == |scopes|
    ensures forall i :: 0 <= i < |scopes| ==> r[i] == ViewOf(store, scopes[i])
  {
    hide ViewOf;
    seq(|scopes|, i requires 0 <= i < |scopes| => ViewOf(store, scopes[i]))
  }

  lemma EntriesStep(store: Store, scope: Key, page: seq<Key>)
    requires page != []
    ensures Entries(store, scope, page) == Entries(store, scope, page[..|page| - 1])
              + EntryOf(store, scope, page[|page| - 1])
  {
  }

  /** A listed key becomes the entry of its own relative key, if that is a data key. */
  lemma OneEntry(store: Store, scope: Key, k: Key, e: Entry)
    requires k in store && scope <= k
    ensures e in EntryOf(store, scope, k) <==> DataKey(e.key) && scope + e.key == k && store[k].stamp == e.stamp
  {
    hide DataKey;
    assert k == scope + Relative(scope, k);
    assert Relative(scope, scope + e.key) == e.key;
  }

  /** Exactly the data keys of a page become entries. */
  lemma {:induction false} EntriesOfPage(store: Store, scope: Key, page: seq<Key>, e: Entry)
    requires forall k :: k in page ==> k in store && scope <= k
    ensures e in Entries(store, scope, page)
       <==> DataKey(e.key) && scope + e.key in page && store[scope + e.key].stamp == e.stamp
  {
    hide DataKey, EntryOf, Entries;
    if page == [] {
      NoEntries(store, scope);
    } else {
      var front, k := page[..|page| - 1], page[|page| - 1];
      assert page == front + [k];
      assert k in page && forall j :: j in front ==> j in page;
      EntriesStep(store, scope, page);
      EntriesOfPage(store, scope, front, e);
      OneEntry(store, scope, k, e);
    }
  }

  lemma DistinctMore(es: seq<Entry>, more: seq<Entry>)
    requires DistinctKeys(es) && |more| <= 1 && forall e, d :: e in es && d in more ==> e.key != d.key
    ensures DistinctKeys(es + more)
  {
    var all := es + more;
    forall i, j | 0 <= i < j < |all| ensures all[i].key != all[j].key {
      assert all[i] == es[i] && es[i] in es;
      if j == |es| { assert all[j] in more; }
    }
  }

  lemma AtMostOne(store: Store, scope: Key, k: Key)
    ensures |EntryOf(store, scope, k)| <= 1
  {
    hide DataKey;
  }

  lemma {:induction false} EntriesDistinct(store: Store, scope: Key, page: seq<Key>)
    requires NoDup(page) && forall k :: k in page ==> k in store && scope <= k
    ensures DistinctKeys(Entries(store, scope, page))
  {
    hide DataKey, EntryOf, Entries, DistinctKeys;
    if page == [] {
      NoEntries(store, scope);
      assert DistinctKeys([]) by { NothingDistinct(); }
    } else {
      var front, k := page[..|page| - 1], page[|page| - 1];
      assert page == front + [k];
      NoDupStep(front, k);
      assert k in page && forall j :: j in front ==> j in page;
      EntriesDistinct(store, scope, front);
      EntriesStep(store, scope, page);
      AtMostOne(store, scope, k);
      var es := Entries(store, scope, front);
      forall e, d | e in es && d in EntryOf(store, scope, k) ensures e.key != d.key {
        EntriesOfPage(store, scope, front, e);
        OneEntry(store, scope, k, d);
      }
      DistinctMore(es, EntryOf(store, scope, k));
    }
  }

  lemma NothingDistinct()
    ensures DistinctKeys([])
  {
  }

  /** Recording distinct entries: the map holds exactly them. */
  lemma RecordDistinct(es: seq<Entry>, e: Entry)
    requires DistinctKeys(es)
    ensures e in es <==> e.key in Record(Empty(), es).vals && Record(Empty(), es).vals[e.key] == e.stamp
  {
    var r := Record(Empty(), es).vals;
    if e in es {
      var i :| 0 <= i < |es| && es[i] == e;
      RecordHasKeys(es, i);
      var j := RecordIsListed(es, e.key);
    }
    if e.key in r && r[e.key] == e.stamp {
      var j := RecordIsListed(es, e.key);
    }
  }

  lemma PlusUpdate<K, V>(m: map<K, V>, n: map<K, V>, k: K, v: V)
    ensures (m + n)[k := v] == m + n[k := v]
  {
  }

  lemma {:induction false} RecordAppend(a: seq<Entry>, b: seq<Entry>)
    ensures Record(Empty(), a + b).vals == Record(Empty(), a).vals + Record(Empty(), b).vals
  {
    if b == [] {
      assert a + b == a;
    } else {
      var front, e := b[..|b| - 1], b[|b| - 1];
      assert (a + b)[..|a + b| - 1] == a + front;
      RecordAppend(a, front);
      PlusUpdate(Record(Empty(), a).vals, Record(Empty(), front).vals, e.key, e.stamp);
    }
  }

  /** One scope's full listing is its view. */
  lemma ListingIsView(store: Store, scope: Key)
    ensures Record(Empty(), ScopeEntries(store, scope)).vals == ViewOf(store, scope)
    ensures DistinctKeys(ScopeEntries(store, scope))
  {
    hide *;
    var r, v := Record(Empty(), ScopeEntries(store, scope)).vals, ViewOf(store, scope);
    ScopeEntriesDistinct(store, scope);
    forall rel ensures rel in r ==> rel in v && v[rel] == r[rel] ensures rel in v ==> rel in r {
      if rel in r { ListedIffRecorded(store, scope, Entry(rel, r[rel])); }
      if rel in v { ListedIffRecorded(store, scope, Entry(rel, v[rel])); }
    }
    assert r.Keys == v.Keys;
  }

  lemma ListedIffRecorded(store: Store, scope: Key, e: Entry)
    ensures var r, v := Record(Empty(), ScopeEntries(store, scope)).vals, ViewOf(store, scope);
            (e.key in r && r[e.key] == e.stamp) <==> (e.key in v && v[e.key] == e.stamp)
  {
    hide *;
    ScopeEntriesDistinct(store, scope);
    ListingEntry(store, scope, e);
    RecordDistinct(ScopeEntries(store, scope), e);
  }

  lemma ScopeEntriesDistinct(store: Store, scope: Key)
    ensures DistinctKeys(ScopeEntries(store, scope))
  {
    hide Entries;
    EntriesDistinct(store, scope, Listing(store, scope, None));
  }

  lemma ListingEntry(store: Store, scope: Key, e: Entry)
    ensures e in ScopeEntries(store, scope) <==> e.key in ViewOf(store, scope) && ViewOf(store, scope)[e.key] == e.stamp
  {
    hide DataKey, Entries, ViewOf;
    EntriesOfPage(store, scope, Listing(store, scope, None), e);
    assert scope + e.key in Listing(store, scope, None) <==> scope + e.key in store;
  }

  /** Listing every scope leaves the merge of the scopes' views. */
  lemma {:induction false} ListingsMerge(store: Store, scopes: seq<Key>)
    ensures Record(Empty(), AllEntries(store, scopes)).vals == Merge(ViewsOf(store, scopes))
  {
    hide ViewOf, ScopeEntries;
    if scopes != [] {
      var front, last := scopes[..|scopes| - 1], scopes[|scopes| - 1];
      ListingsMerge(store, front);
      RecordAppend(AllEntries(store, front), ScopeEntries(store, last));
      ListingIsView(store, last);
      assert ViewsOf(store, scopes)[..|scopes| - 1] == ViewsOf(store, front);
    }
  }

  /** A first poll of a user and a team scope emits every key once exactly when the two share no data key. */
  lemma FirstPollEmitsOnce(store: Store, user: Key, team: Key)
    ensures NoDup(EventKeys(Diff(Empty(), AllEntries(store, [user, team]))))
       <==> ViewOf(store, user).Keys !! ViewOf(store, team).Keys
  {
    hide *;
    var a, b := ScopeEntries(store, user), ScopeEntries(store, team);
    AllEntriesOfTwo(store, user, team);
    PollEmitsOnce(Empty(), a + b);
    ListingIsView(store, user);
    ListingIsView(store, team);
    TwoListings(a, b);
  }

  lemma AllEntriesOfTwo(store: Store, user: Key, team: Key)
    ensures AllEntries(store, [user, team]) == ScopeEntries(store, user) + ScopeEntries(store, team)
  {
    hide ScopeEntries;
    assert [user, team][..1] == [user] && [user][..0] == [];
    assert AllEntries(store, [user]) == [] + ScopeEntries(store, user);
  }

  lemma TwoListings(a: seq<Entry>, b: seq<Entry>)
    requires DistinctKeys(a) && DistinctKeys(b)
    ensures TwiceDiffering(Empty<Key, nat>().vals, a + b)
       <==> !(Record(Empty(), a).vals.Keys !! Record(Empty(), b).vals.Keys)
  {
    hide Record;
    var es := a + b;
    if TwiceDiffering(map[], es) {
      var i, j :| 0 <= i < j < |es| && es[i].key == es[j].key;
      assert es[i] == a[i];
      assert es[j] == b[j - |a|];
      RecordHasKeys(a, i);
      RecordHasKeys(b, j - |a|);
    }
    if rel :| rel in Record(Empty(), a).vals && rel in Record(Empty(), b).vals {
      var i := RecordIsListed(a, rel);
      var j := RecordIsListed(b, rel);
      assert es[i].key == es[|a| + j].key;
    }
  }

  lemma LaterViewWins(store: Store, user: Key, team: Key, rel: Key)
    requires rel in ViewOf(store, team)
    ensures rel in Record(Empty(), AllEntries(store, [user, team])).vals
    ensures Record(Empty(), AllEntries(store, [user, team])).vals[rel] == ViewOf(store, team)[rel]
  {
    hide *;
    var a, b := ScopeEntries(store, user), ScopeEntries(store, team);
    AllEntriesOfTwo(store, user, team);
    ListingIsView(store, team);
    RecordAppend(a, b);
  }

  lemma ListedAmong(store: Store, user: Key, team: Key, e: Entry)
    requires e.key in ViewOf(store, user) && ViewOf(store, user)[e.key] == e.stamp
    ensures e in AllEntries(store, [user, team])
  {
    hide *;
    AllEntriesOfTwo(store, user, team);
    ListingEntry(store, user, e);
  }

  lemma PutIsSeen(store: Store, scope: Key, rel: Key, obj: Obj)
    requires DataKey(rel)
    ensures var v := ViewOf(store[scope + rel := obj], scope); rel in v && v[rel] == obj.stamp
  {
    hide DataKey;
  }

  lemma ShadowedBy(known: map<Key, nat>, es: seq<Entry>, e: Entry, r: map<Key, nat>)
    requires r == Record(Empty(), es).vals
    requires e in es && Differs(known, e) && e.key in r && !Differs(known, Entry(e.key, r[e.key]))
    ensures Shadowed(known, es)
  {
    hide Record;
    var i :| 0 <= i < |es| && es[i] == e;
    assert Differs(known, es[i]);
  }

  /**
   * The fold does go wrong: the team scope holds a key, then the same key appears in the user scope
   * with another stamp. The second poll tells the client the user's stamp and remembers the team's.
   */
  lemma SharedKeyBreaksFold(user: Key, team: Key, rel: Key, old_: Obj, new_: Obj)
    requires user != team && DataKey(rel) && old_.stamp != new_.stamp
    ensures var first := map[team + rel := old_];
            var second := first[user + rel := new_];
            var known := Record(Empty(), AllEntries(first, [user, team]));
            var es := AllEntries(second, [user, team]);
            Shadowed(known.vals, es) && Apply(known.vals, Diff(known, es)) != Record(Empty(), es).vals
  {
    hide DataKey, Record, AllEntries, Diff, Apply, ViewOf, Shadowed;
    var first: Store := map[team + rel := old_];
    var second := first[user + rel := new_];
    var known, es := Record(Empty(), AllEntries(first, [user, team])), AllEntries(second, [user, team]);
    NotShared(user, team, rel);
    var none: Store := map[];
    PutIsSeen(none, team, rel, old_);
    assert none[team + rel := old_] == first;
    LaterViewWins(first, user, team, rel);
    PutIsSeen(first, user, rel, new_);
    ListedAmong(second, user, team, Entry(rel, new_.stamp));
    var other: Store := map[user + rel := new_];
    assert other[team + rel := old_] == second;
    PutIsSeen(other, team, rel, old_);
    LaterViewWins(second, user, team, rel);
    ShadowedBy(known.vals, es, Entry(rel, new_.stamp), Record(Empty(), es).vals);
    FoldGivesListing(known, es);
  }

  lemma CancelRight(a: Key, b: Key, rel: Key)
    requires a + rel == b + rel
    ensures a == b
  {
    assert (a + rel)[..|a|] == a && (b + rel)[..|b|] == b;
  }

  lemma NotShared(user: Key, team: Key, rel: Key)
    requires user != team
    ensures user + rel != team + rel
  {
    if user + rel == team + rel { CancelRight(user, team, rel); }
  }
}
