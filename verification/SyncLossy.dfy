/** Listings that lose a page: a failed LIST ends its scope's listing, and what was not read looks deleted. */
module SyncLossy {
  import opened Common
  import opened OrderedMaps
  import opened ObjectKeys
  import opened SyncScopes
  import opened SyncSubscriber
  import opened SyncPolls
  import opened SyncViews
  import opened SyncProtocol
  import opened SyncRuns

  ghost predicate OnlyPages(steps: seq<Step>) {
    forall i :: 0 <= i < |steps| ==> steps[i].Page?
  }

  /** For each scope that lost a page, the token of the page that was lost. */
  ghost function Lost(c: Config, s: State, steps: seq<Step>, sofar: map<nat, Token>): map<nat, Token>
    requires c.Valid() && CanRun(c, s, steps) && OnlyPages(steps)
    decreases |steps|
  {
    if steps == [] then sofar else
      Lost(c, Do(c, s, steps[0]), steps[1..], if steps[0].ok then sofar else sofar[s.phase.at := s.phase.token])
  }

  /** A scope's snapshot holds exactly what the store holds up to where its listing got. */
  ghost predicate ReadTo(store: Store, t: Key, snap: View, done: bool, token: Token) {
    Agrees(store, t, snap, done, token, {}) && Covered(t, snap, done, token)
  }

  /** While nobody writes: each scope is read to its end, to where its page was lost, or to the current token. */
  ghost predicate Partial(c: Config, s: State, lost: map<nat, Token>) {
    && ListInv(c, s) && s.phase.Listing?
    && (forall i :: i in lost ==> i < s.phase.at)
    && (forall i :: 0 <= i < s.phase.at ==>
          ReadTo(s.world.store, c.scopes[i], s.reading[i], i !in lost, if i in lost then lost[i] else None))
    && (s.phase.at < |c.scopes| ==>
          ReadTo(s.world.store, c.scopes[s.phase.at], s.reading[s.phase.at], false, s.phase.token))
  }

  lemma NothingReadYet(store: Store, t: Key)
    ensures ReadTo(store, t, map[], false, None)
  {
  }

  lemma PartialStarts(c: Config, s: State)
    requires c.Valid() && ListInv(c, s) && s.phase == Phase.Listing(0, None, [])
    ensures Partial(c, s, map[])
  {
    hide Agrees, DataKey, Record, Merge, DistinctKeys;
    if |c.scopes| > 0 {
      assert Covered(c.scopes[0], s.reading[0], false, None);
      assert s.reading[0].Keys == {};
      NothingReadYet(s.world.store, c.scopes[0]);
    }
  }

  lemma ReadPage(store: Store, t: Key, snap: View, token: Token, max: nat)
    requires 1 <= max && ReadTo(store, t, snap, false, token)
    ensures var next := NextToken(store, t, token, max);
            ReadTo(store, t, snap + Record(Empty(), Entries(store, t, PageKeys(store, t, token, max))).vals,
                   next.None?, next)
  {
    hide Agrees, Covered, Record, Entries, PageKeys, NextToken, Answered;
    PageAgrees(store, t, snap, token, max, {}, {});
  }

  lemma ReadDone(store: Store, t: Key, snap: View, token: Token)
    requires ReadTo(store, t, snap, true, token)
    ensures ReadTo(store, t, snap, true, None)
  {
  }

  lemma FreshScope(c: Config, s: State, at: nat)
    requires ListInv(c, s) && s.phase.Listing? && s.phase.at < at < |c.scopes|
    ensures ReadTo(s.world.store, c.scopes[at], s.reading[at], false, None)
  {
    hide ListInv, Agrees, Covered;
    EmptyAhead(c, s, at);
    NothingReadYet(s.world.store, c.scopes[at]);
  }

  lemma PageKeepsPartial(c: Config, s: State, lost: map<nat, Token>)
    requires c.Valid() && Enabled(c, s, Page(true)) && Partial(c, s, lost)
    ensures Partial(c, Do(c, s, Page(true)), lost)
  {
    hide ListInv, ReadTo, Record, Entries, PageKeys, NextToken, Answered, NoDup, Separated;
    var at, store := s.phase.at, s.world.store;
    var s' := Do(c, s, Page(true));
    PageKeepsListing(c, s);
    ReadingLength(c, s);
    ReadPage(store, c.scopes[at], s.reading[at], s.phase.token, c.maxKeys);
    if NextToken(store, c.scopes[at], s.phase.token, c.maxKeys).None? {
      ReadDone(store, c.scopes[at], s'.reading[at], None);
      if at + 1 < |c.scopes| { FreshScope(c, s, at + 1); }
    }
  }

  lemma ReadingLength(c: Config, s: State)
    requires ListInv(c, s)
    ensures |s.reading| == |c.scopes|
  {
    hide Covered, Record, Merge, Apart, DistinctKeys;
  }

  lemma LossKeepsPartial(c: Config, s: State, lost: map<nat, Token>)
    requires c.Valid() && Enabled(c, s, Page(false)) && Partial(c, s, lost)
    ensures Partial(c, Do(c, s, Page(false)), lost[s.phase.at := s.phase.token])
  {
    hide ListInv, ReadTo, NoDup, Separated;
    LossKeepsListing(c, s);
    if s.phase.at + 1 < |c.scopes| { FreshScope(c, s, s.phase.at + 1); }
  }

  lemma LossKeepsListing(c: Config, s: State)
    requires c.Valid() && Enabled(c, s, Page(false)) && ListInv(c, s)
    ensures ListInv(c, Do(c, s, Page(false)))
  {
    hide Covered, Merge, Record, Apart, DistinctKeys, NoDup, Separated;
    CoveredDone(c.scopes[s.phase.at], s.reading[s.phase.at], s.phase.token);
  }

  lemma {:induction false} PagesKeepPartial(c: Config, s: State, steps: seq<Step>, sofar: map<nat, Token>)
    requires c.Valid() && CanRun(c, s, steps) && OnlyPages(steps) && Partial(c, s, sofar)
    ensures Partial(c, Run(c, s, steps), Lost(c, s, steps, sofar))
    ensures Run(c, s, steps).world == s.world && Run(c, s, steps).sub == s.sub && Run(c, s, steps).log == s.log
    decreases |steps|
  {
    hide Partial, Do, Enabled;
    if steps != [] {
      var step := steps[0];
      PageLeaves(c, s, step);
      if step.ok { PageKeepsPartial(c, s, sofar); } else { LossKeepsPartial(c, s, sofar); }
      PagesKeepPartial(c, Do(c, s, step), steps[1..], if step.ok then sofar else sofar[s.phase.at := s.phase.token]);
    }
  }

  lemma PageLeaves(c: Config, s: State, step: Step)
    requires c.Valid() && Enabled(c, s, step) && step.Page?
    ensures s.phase.Listing? && Do(c, s, step).world == s.world && Do(c, s, step).sub == s.sub
              && Do(c, s, step).log == s.log
    ensures step == Page(step.ok)
  {
  }

  // ------------------------------------------------------------ one scope

  /** Some data key of the scope lies past the token. */
  ghost predicate Misses(store: Store, t: Key, token: Token) {
    exists rel :: DataKey(rel) && t + rel in store && Past(token, t + rel)
  }

  ghost predicate MissesNothing(c: Config, store: Store, lost: map<nat, Token>) {
    forall i :: i in lost && i < |c.scopes| ==> !Misses(store, c.scopes[i], lost[i])
  }

  /** A scope read up to a token is known exactly as stored iff no data key lies past the token. */
  lemma ReadIsViewIff(store: Store, t: Key, snap: View, token: Token)
    requires ReadTo(store, t, snap, false, token)
    ensures snap == ViewOf(store, t) <==> !Misses(store, t, token)
  {
    hide DataKey, Past;
    var view := ViewOf(store, t);
    if !Misses(store, t, token) {
      assert forall rel :: rel in snap <==> rel in view;
      assert snap.Keys == view.Keys;
    }
  }

  lemma ReadToEnd(store: Store, t: Key, snap: View)
    requires ReadTo(store, t, snap, true, None)
    ensures snap == ViewOf(store, t)
  {
    hide DataKey, Past;
    var view := ViewOf(store, t);
    assert forall rel :: rel in snap <==> rel in view;
    assert snap.Keys == view.Keys;
  }

  /** Of what is stored, a scope read up to a token lacks exactly what lies past it. */
  lemma ReadLacks(store: Store, t: Key, snap: View, token: Token, rel: Key)
    requires ReadTo(store, t, snap, false, token) && rel in ViewOf(store, t)
    ensures rel in snap <==> !Past(token, t + rel)
  {
    hide DataKey, Past;
  }

  ghost predicate Within(a: View, b: View) {
    forall rel :: rel in a ==> rel in b && a[rel] == b[rel]
  }

  lemma ReadWithin(store: Store, t: Key, snap: View, done: bool, token: Token)
    requires ReadTo(store, t, snap, done, token)
    ensures Within(snap, ViewOf(store, t))
  {
    hide DataKey, Past;
  }

  // ------------------------------------------------------------ all scopes

  /** Parts of views that share no key merge to the whole merge only if they are the whole views. */
  lemma MergeOfParts(parts: seq<View>, views: seq<View>)
    requires |parts| == |views| && Apart(views)
    requires forall i :: 0 <= i < |views| ==> Within(parts[i], views[i])
    ensures Merge(parts) == Merge(views) <==> parts == views
  {
    hide Merge;
    if Merge(parts) == Merge(views) {
      forall i | 0 <= i < |views| ensures parts[i] == views[i] {
        forall rel | rel in views[i] ensures rel in parts[i] {
          MergeKeys(views, rel);
          MergeKeys(parts, rel);
          var j :| 0 <= j < |parts| && rel in parts[j];
          OneView(views, i, j, rel);
        }
        assert parts[i].Keys == views[i].Keys;
      }
    }
  }

  lemma OneView(views: seq<View>, i: nat, j: nat, rel: Key)
    requires Apart(views) && i < |views| && j < |views| && rel in views[i] && rel in views[j]
    ensures i == j
  {
    forall a, b | 0 <= a < b < |views| ensures rel !in views[a] || rel !in views[b] {
      assert views[a].Keys !! views[b].Keys;
    }
  }

  lemma PartsAre(c: Config, s: State, lost: map<nat, Token>, i: nat)
    requires Partial(c, s, lost) && s.phase.at == |c.scopes| && i < |c.scopes|
    ensures |s.reading| == |c.scopes|
    ensures Within(s.reading[i], ViewOf(s.world.store, c.scopes[i]))
    ensures s.reading[i] == ViewOf(s.world.store, c.scopes[i])
       <==> (i in lost ==> !Misses(s.world.store, c.scopes[i], lost[i]))
    ensures i in lost ==> ReadTo(s.world.store, c.scopes[i], s.reading[i], false, lost[i])
  {
    hide ListInv, ReadTo, ViewOf, Misses, Within;
    ReadingLength(c, s);
    var store, t, snap := s.world.store, c.scopes[i], s.reading[i];
    if i in lost {
      ReadIsViewIff(store, t, snap, lost[i]);
      ReadWithin(store, t, snap, false, lost[i]);
    } else {
      ReadToEnd(store, t, snap);
      ReadWithin(store, t, snap, true, None);
    }
  }

  /**
   * A listing nobody disturbs, over any scopes and losing any pages: when the scopes share no key, it
   * ends knowing the store exactly when no data key lay past the token at which a page was lost.
   */
  lemma LossyListingIff(c: Config, s: State, steps: seq<Step>)
    requires c.Valid() && Inv(c, s) && s.phase == Phase.Listing(0, None, [])
    requires CanRun(c, s, steps) && OnlyPages(steps) && Enabled(c, Run(c, s, steps), Conclude)
    requires Apart(ViewsOf(s.world.store, c.scopes))
    ensures Do(c, Run(c, s, steps), Conclude).sub.known.vals == Merge(ViewsOf(s.world.store, c.scopes))
       <==> MissesNothing(c, s.world.store, Lost(c, s, steps, map[]))
  {
    hide *;
    var lost, e := Lost(c, s, steps, map[]), Run(c, s, steps);
    ListInvOf(c, s);
    PartialStarts(c, s);
    PagesKeepPartial(c, s, steps, map[]);
    KnownIsReading(c, e, lost);
    ReadingsIff(c, e, lost);
  }

  lemma ListInvOf(c: Config, s: State)
    requires Inv(c, s)
    ensures ListInv(c, s)
  {
    hide GateInv, WorldInv, LogInv, ListInv;
  }

  /** A scope's part of the reading, against what the scope holds. */
  ghost predicate PartOf(part: View, view: View, whole: bool) {
    Within(part, view) && (part == view <==> whole)
  }

  lemma PartsMerge(parts: seq<View>, views: seq<View>, whole: seq<bool>)
    requires |parts| == |views| == |whole| && Apart(views)
    requires forall i :: 0 <= i < |parts| ==> PartOf(parts[i], views[i], whole[i])
    ensures Merge(parts) == Merge(views) <==> forall i :: 0 <= i < |whole| ==> whole[i]
  {
    hide Merge, Apart, Within;
    MergeOfParts(parts, views);
    if forall i :: 0 <= i < |whole| ==> whole[i] {
      assert parts == views;
    }
  }

  ghost function Wholes(c: Config, store: Store, lost: map<nat, Token>): (r: seq<bool>)
    ensures |r| == |c.scopes|
    ensures forall i :: 0 <= i < |r| ==> (r[i] <==> (i in lost ==> !Misses(store, c.scopes[i], lost[i])))
  {
    seq(|c.scopes|, i requires 0 <= i < |c.scopes| => i in lost ==> !Misses(store, c.scopes[i], lost[i]))
  }

  lemma ReadingsIff(c: Config, e: State, lost: map<nat, Token>)
    requires Partial(c, e, lost) && Enabled(c, e, Conclude) && Apart(ViewsOf(e.world.store, c.scopes))
    ensures Merge(e.reading) == Merge(ViewsOf(e.world.store, c.scopes)) <==> MissesNothing(c, e.world.store, lost)
  {
    hide Partial, Merge, Misses, ViewOf, Within, ReadTo, Apart;
    var views, whole := ViewsOf(e.world.store, c.scopes), Wholes(c, e.world.store, lost);
    AllRead(c, e, lost);
    forall i | 0 <= i < |c.scopes| ensures PartOf(e.reading[i], views[i], whole[i]) {
      PartsAre(c, e, lost, i);
    }
    PartsMerge(e.reading, views, whole);
  }

  lemma AllRead(c: Config, e: State, lost: map<nat, Token>)
    requires Partial(c, e, lost)
    ensures |e.reading| == |c.scopes|
  {
    hide ListInv, ReadTo;
    ReadingLength(c, e);
  }

  lemma KnownIsReading(c: Config, e: State, lost: map<nat, Token>)
    requires c.Valid() && Partial(c, e, lost) && Enabled(c, e, Conclude)
    ensures |e.reading| == |c.scopes| && Do(c, e, Conclude).sub.known.vals == Merge(e.reading)
    ensures Record(Empty(), e.phase.entries).vals == Merge(e.reading)
  {
    hide Covered, Record, Merge, Apart, DistinctKeys, Diff, ReadTo;
  }

  /** A key that was known and is still stored is reported deleted exactly when it lay past the lost page's token. */
  lemma LostKeysReportedIff(c: Config, s: State, steps: seq<Step>, i: nat, rel: Key)
    requires c.Valid() && Inv(c, s) && s.phase == Phase.Listing(0, None, [])
    requires CanRun(c, s, steps) && OnlyPages(steps) && Enabled(c, Run(c, s, steps), Conclude)
    requires Apart(ViewsOf(s.world.store, c.scopes))
    requires i < |c.scopes| && rel in ViewOf(s.world.store, c.scopes[i]) && rel in s.sub.known.vals
    ensures var lost := Lost(c, s, steps, map[]);
            var s' := Do(c, Run(c, s, steps), Conclude);
            && |s'.log| == |s.log| + 1
            && (Delete(rel) in s'.log[|s.log|] <==> i in lost && Past(lost[i], c.scopes[i] + rel))
  {
    hide GateInv, WorldInv, LogInv, Partial, Merge, Misses, ViewOf, Within, ReadTo, CanRun, Run, Record, Changes,
         Deletes, Past;
    var lost, e := Lost(c, s, steps, map[]), Run(c, s, steps);
    var views := ViewsOf(s.world.store, c.scopes);
    PartialStarts(c, s);
    PagesKeepPartial(c, s, steps, map[]);
    KnownIsReading(c, e, lost);
    PartsAre(c, e, lost, i);
    forall j | 0 <= j < |c.scopes| && rel in e.reading[j] ensures j == i {
      PartsAre(c, e, lost, j);
      InBoth(e.reading[j], views[j], rel);
      OneView(views, i, j, rel);
    }
    MergeKeys(e.reading, rel);
    if i in lost { ReadLacks(s.world.store, c.scopes[i], e.reading[i], lost[i], rel); }
    KnownOrdered(c, s);
    DeletedIff(s.sub.known, e.phase.entries, rel);
    assert Do(c, e, Conclude).log == s.log + [Diff(s.sub.known, e.phase.entries)];
  }

  lemma InBoth(a: View, b: View, rel: Key)
    requires Within(a, b) && rel in a
    ensures rel in b
  {
  }

  lemma KnownOrdered(c: Config, s: State)
    requires Inv(c, s)
    ensures s.sub.known.Valid()
  {
    hide GateInv, WorldInv, LogInv, Covered, Record, Merge, Apart, DistinctKeys;
  }

  /** A poll reports a known key deleted exactly when its listing does not have it. */
  lemma DeletedIff(known: OMap<Key, nat>, es: seq<Entry>, rel: Key)
    requires known.Valid() && rel in known.vals
    ensures Delete(rel) in Diff(known, es) <==> rel !in Record(Empty(), es).vals
  {
    hide Record, Changes, Deletes;
    assert rel in Elements(known.keys);
    NoDeleteAmongChanges(known.vals, es, rel);
    DeletesAre(known.keys, Record(Empty(), es).vals, rel);
  }

  lemma {:induction false} NoDeleteAmongChanges(known: map<Key, nat>, es: seq<Entry>, rel: Key)
    ensures Delete(rel) !in Changes(known, es)
  {
    if es != [] { NoDeleteAmongChanges(known, es[..|es| - 1], rel); }
  }

  lemma {:induction false} DeletesAre(keys: seq<Key>, current: map<Key, nat>, rel: Key)
    ensures Delete(rel) in Deletes(keys, current) <==> rel in keys && rel !in current
  {
    if keys != [] {
      DeletesAre(keys[..|keys| - 1], current, rel);
      assert keys == keys[..|keys| - 1] + [keys[|keys| - 1]];
    }
  }

  // ------------------------------------------------------------ the tick of the poll loop

  /** The token of the first LIST of the scope that throws. */
  function LossAt(store: Store, scope: Key, token: Token, max: nat, lost: set<(Key, Token)>): Option<Token>
    requires 1 <= max
    decreases RestSize(store, scope, token, true)
  {
    PageEntries(store, scope, token, max, []);
    if (scope, token) in lost then Some(token) else
      var next := NextToken(store, scope, token, max);
      if next.None? then None else LossAt(store, scope, next, max, lost)
  }

  /** What a scope's loop reads is what the store holds up to the token of its first failing LIST. */
  lemma {:induction false} ReadReaches(store: Store, t: Key, snap: View, token: Token, max: nat,
        lost: set<(Key, Token)>)
    requires 1 <= max && ReadTo(store, t, snap, false, token)
    ensures var l := LossAt(store, t, token, max, lost);
            ReadTo(store, t, snap + Record(Empty(), Read(store, t, token, max, lost)).vals,
                   l.None?, if l.None? then None else l.value)
    decreases RestSize(store, t, token, true)
  {
    hide ReadTo, Record, Entries, PageKeys, NextToken, RestSize;
    var next, page := NextToken(store, t, token, max), Entries(store, t, PageKeys(store, t, token, max));
    var nothing := Record(Empty(), []).vals;
    assert nothing == map[] by { NothingRecorded(); }
    assert snap + nothing == snap;
    if (t, token) !in lost {
      ReadStep(store, t, token, max, lost, []);
      ReadPage(store, t, snap, token, max);
      if next.Some? {
        ReadReaches(store, t, snap + Record(Empty(), page).vals, next, max, lost);
        RecordAppend(page, Read(store, t, next, max, lost));
        PlusAssoc(snap, Record(Empty(), page).vals, Record(Empty(), Read(store, t, next, max, lost)).vals);
      }
    }
  }

  lemma NothingRecorded()
    ensures Record(Empty(), []).vals == map[]
  {
  }

  lemma PlusAssoc(a: View, b: View, c: View)
    ensures (a + b) + c == a + (b + c)
  {
  }

  ghost function PartsRead(store: Store, scopes: seq<Key>, max: nat, lost: set<(Key, Token)>): (r: seq<View>)
    requires 1 <= max
    ensures |r| == |scopes|
    ensures forall i :: 0 <= i < |scopes| ==> r[i] == Record(Empty(), Read(store, scopes[i], None, max, lost)).vals
  {
    seq(|scopes|, i requires 0 <= i < |scopes| => Record(Empty(), Read(store, scopes[i], None, max, lost)).vals)
  }

  lemma {:induction false} ReadMerge(store: Store, scopes: seq<Key>, max: nat, lost: set<(Key, Token)>)
    requires 1 <= max
    ensures Record(Empty(), ReadAll(store, scopes, max, lost)).vals == Merge(PartsRead(store, scopes, max, lost))
  {
    hide Record, Read;
    if scopes == [] {
      NothingRecorded();
    } else {
      var front, last := scopes[..|scopes| - 1], scopes[|scopes| - 1];
      ReadMerge(store, front, max, lost);
      RecordAppend(ReadAll(store, front, max, lost), Read(store, last, None, max, lost));
      assert PartsRead(store, scopes, max, lost)[..|scopes| - 1] == PartsRead(store, front, max, lost);
    }
  }

  /** No data key of the scope lies past the token of its first failing LIST. */
  ghost predicate LosesNothing(store: Store, t: Key, max: nat, lost: set<(Key, Token)>)
    requires 1 <= max
  {
    var l := LossAt(store, t, None, max, lost);
    l.Some? ==> !Misses(store, t, l.value)
  }

  lemma PartRead(store: Store, t: Key, max: nat, lost: set<(Key, Token)>)
    requires 1 <= max
    ensures PartOf(Record(Empty(), Read(store, t, None, max, lost)).vals, ViewOf(store, t),
                   LosesNothing(store, t, max, lost))
  {
    hide ReadTo, Record, Read, LossAt, ViewOf, Misses, Within;
    var snap, l := Record(Empty(), Read(store, t, None, max, lost)).vals, LossAt(store, t, None, max, lost);
    NothingReadYet(store, t);
    ReadReaches(store, t, map[], None, max, lost);
    assert map[] + snap == snap;
    if l.None? {
      ReadToEnd(store, t, snap);
      ReadWithin(store, t, snap, true, None);
    } else {
      ReadIsViewIff(store, t, snap, l.value);
      ReadWithin(store, t, snap, false, l.value);
    }
  }

  /**
   * A tick of the poll loop that lists, whichever of its requests fail, ends knowing the store exactly when
   * in each scope no data key lies past the first LIST that threw.
   */
  lemma LossyTickIff(sub: Sub, store: Store, scopes: seq<Key>, max: nat, faults: Faults)
    requires 1 <= max && NoDup(scopes) && Apart(ViewsOf(store, scopes))
    requires !sub.initialized
          || exists t :: t in scopes && t !in faults.unreachable && Remembered(sub.etags, t) != Etag(store, t)
    ensures var next := FaultyPoll(sub, store, scopes, max, faults).0;
            && next.initialized
            && (next.known.vals == Merge(ViewsOf(store, scopes))
                <==> forall t :: t in scopes ==> LosesNothing(store, t, max, faults.pages))
  {
    hide Record, ReadAll, Diff, HeadEtags, AnyChanged, Etag, Remembered, Merge, Apart, PartOf, LosesNothing, ViewOf,
         Read;
    HeadsAnswered(sub.etags, scopes, store, faults.unreachable);
    ReadMerge(store, scopes, max, faults.pages);
    var parts, views := PartsRead(store, scopes, max, faults.pages), ViewsOf(store, scopes);
    var whole := seq(|scopes|, i requires 0 <= i < |scopes| => LosesNothing(store, scopes[i], max, faults.pages));
    forall i | 0 <= i < |scopes| ensures PartOf(parts[i], views[i], whole[i]) {
      PartRead(store, scopes[i], max, faults.pages);
    }
    PartsMerge(parts, views, whole);
    assert forall i :: 0 <= i < |scopes| ==> whole[i] == LosesNothing(store, scopes[i], max, faults.pages);
    assert forall i :: 0 <= i < |scopes| ==> scopes[i] in scopes;
  }

  // ------------------------------------------------------------ afterwards

  /** Any number of further polls. */
  function Polls(sub: Sub, stores: seq<Store>, scopes: seq<Key>): (Sub, seq<seq<Event>>) {
    if stores == [] then (sub, []) else
      var (before, out) := Polls(sub, stores[..|stores| - 1], scopes);
      var (sub', events) := GatedPoll(before, stores[|stores| - 1], scopes, {});
      (sub', out + [events])
  }

  /**
   * As long as no manifest's ETag moves, every later poll is silent and keeps what the last listing left, right or
   * wrong.
   */
  lemma {:induction false} LossLasts(sub: Sub, stores: seq<Store>, scopes: seq<Key>)
    requires NoDup(scopes) && sub.initialized
    requires forall n, t :: 0 <= n < |stores| && t in scopes ==> Etag(stores[n], t) == Remembered(sub.etags, t)
    ensures var (sub', out) := Polls(sub, stores, scopes);
            && sub'.initialized && sub'.known == sub.known && |out| == |stores|
            && (forall n :: 0 <= n < |out| ==> out[n] == [])
            && (forall t :: t in scopes ==> Remembered(sub'.etags, t) == Remembered(sub.etags, t))
  {
    hide Etag, Remembered, FullPoll, HeadEtags, AnyChanged;
    if stores != [] {
      var n := |stores| - 1;
      LossLasts(sub, stores[..n], scopes);
      var before := Polls(sub, stores[..n], scopes).0;
      HeadsAnswered(before.etags, scopes, stores[n], {});
      assert forall t :: t in scopes ==> Etag(stores[n], t) == Remembered(sub.etags, t);
    }
  }

  /** With one scope, a listing whose only page is lost reports every known key deleted, whatever the store holds. */
  lemma LostListingLooksLikeDeletes(c: Config, s: State)
    requires c.Valid() && |c.scopes| == 1 && s.phase == Phase.Listing(0, None, [])
    ensures var s' := Do(c, Do(c, s, Page(false)), Conclude);
            && s'.sub.known == Empty() && !s'.whole
            && s'.log == s.log + [Deletes(s.sub.known.keys, map[])]
  {
    assert [] + Deletes(s.sub.known.keys, map[]) == Deletes(s.sub.known.keys, map[]);
  }
}
