/** One subscriber's poll: HEAD every manifest, LIST and diff only when an ETag moved. */
module SyncSubscriber {
  import opened Common
  import opened OrderedMaps
  import opened ObjectKeys
  import opened SyncScopes

  datatype Entry = Entry(key: Key, stamp: nat)

  datatype Event = Change(key: Key, stamp: nat) | Delete(key: Key)

  /** The per-connection state of a subscription. */
  datatype Sub = Sub(etags: map<Key, Option<nat>>, known: OMap<Key, nat>, initialized: bool)

  const NewSub := Sub(map[], Empty(), false)

  predicate DataKey(rel: Key) {
    "profiles/" <= rel || "proxies/" <= rel || "groups/" <= rel || "tombstones/" <= rel
  }

  predicate StartsWith(rel: Key, prefix: Key, rest: Key) {
    rel == prefix + rest
  }

  /** The data keys are what follows one of the four prefixes, whatever it is, and nothing else. */
  lemma DataKeyIff(rel: Key)
    ensures DataKey(rel) <==> exists rest ::
              || StartsWith(rel, "profiles/", rest) || StartsWith(rel, "proxies/", rest)
              || StartsWith(rel, "groups/", rest) || StartsWith(rel, "tombstones/", rest)
  {
    if "profiles/" <= rel { assert StartsWith(rel, "profiles/", rel[|"profiles/"|..]); }
    if "proxies/" <= rel { assert StartsWith(rel, "proxies/", rel[|"proxies/"|..]); }
    if "groups/" <= rel { assert StartsWith(rel, "groups/", rel[|"groups/"|..]); }
    if "tombstones/" <= rel { assert StartsWith(rel, "tombstones/", rel[|"tombstones/"|..]); }
  }

  lemma ManifestIsNotData()
    ensures !DataKey(MANIFEST_KEY)
  {
    var d := MANIFEST_KEY[0];
  }

  function Etag(store: Store, scope: Key): Option<nat> {
    if scope + MANIFEST_KEY in store then Some(store[scope + MANIFEST_KEY].etag) else None
  }

  /** `lastManifestEtag.get(scope)`: undefined for a scope never recorded. */
  function Remembered(etags: map<Key, Option<nat>>, scope: Key): Option<nat> {
    if scope in etags then etags[scope] else None
  }

  // ------------------------------------------------------------ the reference

  /** A listed key relative to its scope. */
  function Relative(scope: Key, fullKey: Key): Key {
    if scope <= fullKey then fullKey[|scope|..] else fullKey
  }

  /** A listed object's LastModified, or the empty stamp when the response has none. */
  function Stamp(store: Store, fullKey: Key): nat {
    if fullKey in store then store[fullKey].stamp else 0
  }

  /** What one listed key contributes: nothing unless it is a data key. */
  function EntryOf(store: Store, scope: Key, k: Key): seq<Entry> {
    if DataKey(Relative(scope, k)) then [Entry(Relative(scope, k), Stamp(store, k))] else []
  }

  /** The data entries of listed keys, in listing order, with keys relative to the scope. */
  function Entries(store: Store, scope: Key, page: seq<Key>): (r: seq<Entry>) {
    if page == [] then [] else
      Entries(store, scope, page[..|page| - 1]) + EntryOf(store, scope, page[|page| - 1])
  }

  function ScopeEntries(store: Store, scope: Key): seq<Entry> {
    Entries(store, scope, Listing(store, scope, None))
  }

  function AllEntries(store: Store, scopes: seq<Key>): seq<Entry> {
    if scopes == [] then []
    else AllEntries(store, scopes[..|scopes| - 1]) + ScopeEntries(store, scopes[|scopes| - 1])
  }

  /** Writing entries one after another into a map. */
  function Record(m: OMap<Key, nat>, es: seq<Entry>): (r: OMap<Key, nat>)
    ensures m.Valid() ==> r.Valid()
  {
    if es == [] then m
    else Record(m, es[..|es| - 1]).Set(es[|es| - 1].key, es[|es| - 1].stamp)
  }

  predicate Differs(known: map<Key, nat>, e: Entry) {
    e.key !in known || known[e.key] != e.stamp
  }

  function Changes(known: map<Key, nat>, es: seq<Entry>): seq<Event> {
    if es == [] then [] else
      var e := es[|es| - 1];
      Changes(known, es[..|es| - 1]) + if Differs(known, e) then [Change(e.key, e.stamp)] else []
  }

  function Deletes(keys: seq<Key>, current: map<Key, nat>): seq<Event> {
    if keys == [] then [] else
      var k := keys[|keys| - 1];
      Deletes(keys[..|keys| - 1], current) + if k !in current then [Delete(k)] else []
  }

  function Diff(known: OMap<Key, nat>, es: seq<Entry>): seq<Event> {
    Changes(known.vals, es) + Deletes(known.keys, Record(Empty(), es).vals)
  }

  /** The HEAD phase; a scope in `unreachable` answers with an error other than 404. */
  function HeadEtags(etags: map<Key, Option<nat>>, scopes: seq<Key>, store: Store,
        unreachable: set<Key>): map<Key, Option<nat>>
  {
    if scopes == [] then etags else
      var s := scopes[|scopes| - 1];
      var rest := HeadEtags(etags, scopes[..|scopes| - 1], store, unreachable);
      if s in unreachable then rest else rest[s := Etag(store, s)]
  }

  predicate AnyChanged(etags: map<Key, Option<nat>>, scopes: seq<Key>, store: Store, unreachable: set<Key>) {
    if scopes == [] then false else
      var s := scopes[|scopes| - 1];
      var rest := scopes[..|scopes| - 1];
      || AnyChanged(etags, rest, store, unreachable)
      || (s !in unreachable && Remembered(HeadEtags(etags, rest, store, unreachable), s) != Etag(store, s))
  }

  /** A subscriber that LISTs on every tick. */
  function FullPoll(sub: Sub, store: Store, scopes: seq<Key>): (Sub, seq<Event>) {
    var es := AllEntries(store, scopes);
    (Sub(sub.etags, Record(Empty(), es), true), Diff(sub.known, es))
  }

  /** The ETag-gated subscriber. */
  function GatedPoll(sub: Sub, store: Store, scopes: seq<Key>, unreachable: set<Key>): (Sub, seq<Event>) {
    var seen := sub.(etags := HeadEtags(sub.etags, scopes, store, unreachable));
    if sub.initialized && !AnyChanged(sub.etags, scopes, store, unreachable) then (seen, [])
    else FullPoll(seen, store, scopes)
  }

  lemma EntriesAppend(store: Store, scope: Key, a: seq<Key>, b: seq<Key>)
    ensures Entries(store, scope, a + b) == Entries(store, scope, a) + Entries(store, scope, b)
  {
    if b == [] {
      assert a + b == a;
    } else {
      assert (a + b)[..|a + b| - 1] == a + b[..|b| - 1];
      EntriesAppend(store, scope, a, b[..|b| - 1]);
    }
  }

  lemma RecordStep(m: OMap<Key, nat>, es: seq<Entry>, e: Entry, known: map<Key, nat>)
    ensures Record(m, es + [e]) == Record(m, es).Set(e.key, e.stamp)
    ensures Changes(known, es + [e]) == Changes(known, es) + if Differs(known, e) then [Change(e.key, e.stamp)] else []
  {
    assert (es + [e])[..|es|] == es;
  }

  lemma ScanStep(store: Store, scope: Key, page: seq<Key>, j: nat, es: seq<Entry>)
    requires j < |page|
    ensures es + Entries(store, scope, page[..j + 1])
         == es + Entries(store, scope, page[..j]) + EntryOf(store, scope, page[j])
  {
    assert page[..j + 1][..j] == page[..j];
  }

  /** The entries of a listing from `token` to its end; nothing once the listing is done. */
  ghost function Rest(store: Store, scope: Key, token: Token, more: bool): seq<Entry> {
    if more then Entries(store, scope, Listing(store, scope, token)) else []
  }

  ghost function RestSize(store: Store, scope: Key, token: Token, more: bool): nat {
    if more then 1 + |Listing(store, scope, token)| else 0
  }

  /** A page and what its token leaves make up the entries still to come. */
  lemma PageEntries(store: Store, scope: Key, token: Token, max: nat, es: seq<Entry>)
    requires 1 <= max
    ensures var next := NextToken(store, scope, token, max);
            var page := Entries(store, scope, PageKeys(store, scope, token, max));
            && RestSize(store, scope, next, next.Some?) < RestSize(store, scope, token, true)
            && es + Rest(store, scope, token, true) == (es + page) + Rest(store, scope, next, next.Some?)
  {
    hide DataKey, Entries, Listing, PageKeys, NextToken, MANIFEST_KEY;
    var next, page := NextToken(store, scope, token, max), PageKeys(store, scope, token, max);
    ListingSplits(store, scope, token, max);
    PageNotEmpty(store, scope, token, max);
    EntriesAppend(store, scope, page, if next.None? then [] else Listing(store, scope, next));
    if next.None? { assert Entries(store, scope, []) == [] by { NoEntries(store, scope); } }
    AppendAssoc(es, Entries(store, scope, page), Rest(store, scope, next, next.Some?));
  }

  lemma NoEntries(store: Store, scope: Key)
    ensures Entries(store, scope, []) == []
  {
  }

  // ------------------------------------------------------------ requests that fail

  /** The HEADs that answer with an error other than 404, and the LISTs, by scope and token, that throw. */
  datatype Faults = Faults(unreachable: set<Key>, pages: set<(Key, Token)>)

  /** What is read of a scope from `token` on: a page that throws ends the scope's listing. */
  function Read(store: Store, scope: Key, token: Token, max: nat, lost: set<(Key, Token)>): seq<Entry>
    requires 1 <= max
    decreases RestSize(store, scope, token, true)
  {
    PageEntries(store, scope, token, max, []);
    if (scope, token) in lost then [] else
      var next := NextToken(store, scope, token, max);
      var page := Entries(store, scope, PageKeys(store, scope, token, max));
      if next.None? then page else page + Read(store, scope, next, max, lost)
  }

  function ReadAll(store: Store, scopes: seq<Key>, max: nat, lost: set<(Key, Token)>): seq<Entry>
    requires 1 <= max
  {
    if scopes == [] then [] else
      ReadAll(store, scopes[..|scopes| - 1], max, lost) + Read(store, scopes[|scopes| - 1], None, max, lost)
  }

  /** One tick of the poll loop, whatever fails. */
  function FaultyPoll(sub: Sub, store: Store, scopes: seq<Key>, max: nat, faults: Faults): (Sub, seq<Event>)
    requires 1 <= max
  {
    var seen := sub.(etags := HeadEtags(sub.etags, scopes, store, faults.unreachable));
    if sub.initialized && !AnyChanged(sub.etags, scopes, store, faults.unreachable) then (seen, [])
    else
      var es := ReadAll(store, scopes, max, faults.pages);
      (Sub(seen.etags, Record(Empty(), es), true), Diff(sub.known, es))
  }

  /** Without a failed LIST everything is read. */
  lemma {:induction false} NothingLost(store: Store, scope: Key, token: Token, max: nat)
    requires 1 <= max
    ensures Read(store, scope, token, max, {}) == Entries(store, scope, Listing(store, scope, token))
    decreases RestSize(store, scope, token, true)
  {
    hide DataKey, Entries, Listing, PageKeys, NextToken;
    var next, page := NextToken(store, scope, token, max), PageKeys(store, scope, token, max);
    PageEntries(store, scope, token, max, []);
    assert [] + Entries(store, scope, page) == Entries(store, scope, page);
    assert Entries(store, scope, page) + [] == Entries(store, scope, page);
    assert [] + Rest(store, scope, token, true) == Rest(store, scope, token, true);
    if next.Some? { NothingLost(store, scope, next, max); }
  }

  lemma {:induction false} AllListed(store: Store, scopes: seq<Key>, max: nat)
    requires 1 <= max
    ensures ReadAll(store, scopes, max, {}) == AllEntries(store, scopes)
  {
    hide Read, Entries, Listing;
    if scopes != [] {
      AllListed(store, scopes[..|scopes| - 1], max);
      NothingLost(store, scopes[|scopes| - 1], None, max);
    }
  }

  /** A tick that loses no page is the gated poll. */
  lemma NoPageLost(sub: Sub, store: Store, scopes: seq<Key>, max: nat, unreachable: set<Key>)
    requires 1 <= max
    ensures FaultyPoll(sub, store, scopes, max, Faults(unreachable, {})) == GatedPoll(sub, store, scopes, unreachable)
  {
    hide ReadAll, AllEntries, Record, Diff, HeadEtags, AnyChanged;
    AllListed(store, scopes, max);
  }

  /** What is still to be read. */
  ghost function ToRead(store: Store, scope: Key, token: Token, more: bool, max: nat, lost: set<(Key, Token)>)
    : seq<Entry>
    requires 1 <= max
  {
    if more then Read(store, scope, token, max, lost) else []
  }

  /** One request: nothing when it throws, else a page and what its token leaves. */
  lemma ReadStep(store: Store, scope: Key, token: Token, max: nat, lost: set<(Key, Token)>, es: seq<Entry>)
    requires 1 <= max
    ensures (scope, token) in lost ==> es + ToRead(store, scope, token, true, max, lost) == es
    ensures var next := NextToken(store, scope, token, max);
            var page := Entries(store, scope, PageKeys(store, scope, token, max));
            && RestSize(store, scope, next, next.Some?) < RestSize(store, scope, token, true)
            && ((scope, token) !in lost ==>
                  es + ToRead(store, scope, token, true, max, lost)
                  == (es + page) + ToRead(store, scope, next, next.Some?, max, lost))
  {
    hide Entries, Listing, PageKeys, NextToken, RestSize;
    var next := NextToken(store, scope, token, max);
    var page := Entries(store, scope, PageKeys(store, scope, token, max));
    PageEntries(store, scope, token, max, es);
    AppendAssoc(es, page, ToRead(store, scope, next, next.Some?, max, lost));
    assert page + [] == page;
  }

  // ------------------------------------------------------------ the poll loop

  class Subscriber {
    var lastManifestEtag: map<Key, Option<nat>>
    var lastKnownState: OMap<Key, nat>
    var initialized: bool

    constructor ()
      ensures State() == NewSub
    {
      lastManifestEtag, lastKnownState, initialized := map[], Empty(), false;
    }

    ghost function State(): Sub
      reads this
    {
      Sub(lastManifestEtag, lastKnownState, initialized)
    }

    /** Phase 1: HEAD each manifest, remember its ETag, tell whether any moved. */
    method HeadManifests(store: Store, scopes: seq<Key>, unreachable: set<Key>) returns (anyScopeChanged: bool)
      modifies this`lastManifestEtag
      ensures lastManifestEtag == HeadEtags(old(lastManifestEtag), scopes, store, unreachable)
      ensures anyScopeChanged == AnyChanged(old(lastManifestEtag), scopes, store, unreachable)
    {
      anyScopeChanged := false;
      var i := 0;
      while i < |scopes|
        invariant 0 <= i <= |scopes|
        invariant lastManifestEtag == HeadEtags(old(lastManifestEtag), scopes[..i], store, unreachable)
        invariant anyScopeChanged == AnyChanged(old(lastManifestEtag), scopes[..i], store, unreachable)
      {
        var scope := scopes[i];
        assert scopes[..i + 1][..i] == scopes[..i];
        if scope !in unreachable {
          var currentEtag := Etag(store, scope);
          if Remembered(lastManifestEtag, scope) != currentEtag {
            anyScopeChanged := true;
          }
          lastManifestEtag := lastManifestEtag[scope := currentEtag];
        }
        i := i + 1;
      }
      assert scopes[..i] == scopes;
    }

    /** Diff one page of a scope's listing against the known state. */
    method ScanPage(store: Store, scope: Key, page: seq<Key>, currentState: OMap<Key, nat>, events: seq<Event>,
          ghost es: seq<Entry>)
      returns (currentState': OMap<Key, nat>, events': seq<Event>)
      requires currentState == Record(Empty(), es) && events == Changes(lastKnownState.vals, es)
      ensures currentState' == Record(Empty(), es + Entries(store, scope, page))
      ensures events' == Changes(lastKnownState.vals, es + Entries(store, scope, page))
    {
      hide DataKey, MANIFEST_KEY;
      ManifestIsNotData();
      currentState', events' := currentState, events;
      var j := 0;
      ghost var done := es;
      assert es + [] == es;
      while j < |page|
        invariant 0 <= j <= |page|
        invariant done == es + Entries(store, scope, page[..j])
        invariant currentState' == Record(Empty(), done)
        invariant events' == Changes(lastKnownState.vals, done)
      {
        var relativeKey := Relative(scope, page[j]);
        ScanStep(store, scope, page, j, es);
        if relativeKey != MANIFEST_KEY && DataKey(relativeKey) {
          var stamp := Stamp(store, page[j]);
          RecordStep(Empty(), done, Entry(relativeKey, stamp), lastKnownState.vals);
          done := done + [Entry(relativeKey, stamp)];
          currentState' := currentState'.Set(relativeKey, stamp);
          if relativeKey !in lastKnownState.vals || lastKnownState.vals[relativeKey] != stamp {
            events' := events' + [Change(relativeKey, stamp)];
          }
        }
        j := j + 1;
      }
      assert page[..j] == page;
    }

    /** The paged LIST of one scope, up to a page that throws. */
    method ListScope(store: Store, scope: Key, maxKeys: nat, lost: set<(Key, Token)>, currentState: OMap<Key, nat>,
          events: seq<Event>, ghost before: seq<Entry>)
      returns (currentState': OMap<Key, nat>, events': seq<Event>)
      requires 1 <= maxKeys
      requires currentState == Record(Empty(), before) && events == Changes(lastKnownState.vals, before)
      ensures currentState' == Record(Empty(), before + Read(store, scope, None, maxKeys, lost))
      ensures events' == Changes(lastKnownState.vals, before + Read(store, scope, None, maxKeys, lost))
    {
      hide DataKey, MANIFEST_KEY;
      ManifestIsNotData();
      hide DataKey, MANIFEST_KEY, EntryOf, Entries, Listing, PageKeys, NextToken, Record, Changes, RestSize, Read;
      currentState', events' := currentState, events;
      var token: Token := None;
      var more := true;
      ghost var es := before;
      while more
        invariant es + ToRead(store, scope, token, more, maxKeys, lost)
               == before + Read(store, scope, None, maxKeys, lost)
        invariant currentState' == Record(Empty(), es)
        invariant events' == Changes(lastKnownState.vals, es)
        decreases RestSize(store, scope, token, more)
      {
        ReadStep(store, scope, token, maxKeys, lost, es);
        if (scope, token) in lost {
          assert es + [] == es;
          return;
        }
        var page := PageKeys(store, scope, token, maxKeys);
        var next := NextToken(store, scope, token, maxKeys);
        currentState', events' := ScanPage(store, scope, page, currentState', events', es);
        es := es + Entries(store, scope, page);
        token := next;
        more := next.Some?;
      }
      assert es + [] == es;
    }

    /** Phase 2: one LIST per scope. */
    method ListScopes(store: Store, scopes: seq<Key>, maxKeys: nat, lost: set<(Key, Token)>)
      returns (currentState: OMap<Key, nat>, events: seq<Event>)
      requires 1 <= maxKeys
      ensures currentState == Record(Empty(), ReadAll(store, scopes, maxKeys, lost))
      ensures events == Changes(lastKnownState.vals, ReadAll(store, scopes, maxKeys, lost))
    {
      hide Read;
      currentState, events := Empty(), [];
      var i := 0;
      while i < |scopes|
        invariant 0 <= i <= |scopes|
        invariant currentState == Record(Empty(), ReadAll(store, scopes[..i], maxKeys, lost))
        invariant events == Changes(lastKnownState.vals, ReadAll(store, scopes[..i], maxKeys, lost))
      {
        assert scopes[..i + 1][..i] == scopes[..i];
        currentState, events := ListScope(store, scopes[i], maxKeys, lost, currentState, events,
                                          ReadAll(store, scopes[..i], maxKeys, lost));
        i := i + 1;
      }
      assert scopes[..i] == scopes;
    }

    /** The known keys that the listing does not have any more. */
    method ReportDeleted(currentState: OMap<Key, nat>, found: seq<Event>) returns (events: seq<Event>)
      ensures events == found + Deletes(lastKnownState.keys, currentState.vals)
    {
      events := found;
      var i := 0;
      while i < |lastKnownState.keys|
        invariant 0 <= i <= |lastKnownState.keys|
        invariant events == found + Deletes(lastKnownState.keys[..i], currentState.vals)
      {
        var key := lastKnownState.keys[i];
        assert lastKnownState.keys[..i + 1][..i] == lastKnownState.keys[..i];
        if key !in currentState.vals {
          events := events + [Delete(key)];
        }
        i := i + 1;
      }
      assert lastKnownState.keys[..i] == lastKnownState.keys;
    }

    /** One tick of the poll loop, run without interference. */
    method Poll(store: Store, scopes: seq<Key>, faults: Faults, maxKeys: nat) returns (events: seq<Event>)
      requires 1 <= maxKeys
      modifies this
      ensures (State(), events) == FaultyPoll(old(State()), store, scopes, maxKeys, faults)
      ensures faults.pages == {} ==> (State(), events) == GatedPoll(old(State()), store, scopes, faults.unreachable)
    {
      hide ReadAll, GatedPoll;
      NoPageLost(State(), store, scopes, maxKeys, faults.unreachable);
      var anyScopeChanged := HeadManifests(store, scopes, faults.unreachable);
      if initialized && !anyScopeChanged {
        return [];
      }
      var currentState;
      currentState, events := ListScopes(store, scopes, maxKeys, faults.pages);
      events := ReportDeleted(currentState, events);
      lastKnownState := currentState;
      initialized := true;
    }
  }
}
