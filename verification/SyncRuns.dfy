/** Runs of the protocol: the service's requests, and an upload that goes unseen. */
module SyncRuns {
  import opened Common
  import opened OrderedMaps
  import opened ObjectKeys
  import opened SyncScopes
  import opened SyncSubscriber
  import opened SyncWorld
  import opened SyncPolls
  import opened SyncViews
  import opened SyncProtocol
  import opened SyncWriters

  /** The steps can be taken one after another, nobody else stepping in between. */
  ghost predicate CanRun(c: Config, s: State, steps: seq<Step>)
    requires c.Valid()
    decreases |steps|
  {
    steps == [] || (Enabled(c, s, steps[0]) && CanRun(c, Do(c, s, steps[0]), steps[1..]))
  }

  ghost function Run(c: Config, s: State, steps: seq<Step>): State
    requires c.Valid() && CanRun(c, s, steps)
    decreases |steps|
  {
    if steps == [] then s else Run(c, Do(c, s, steps[0]), steps[1..])
  }

  lemma {:induction false} RunAppend(c: Config, s: State, a: seq<Step>, b: seq<Step>)
    requires c.Valid() && CanRun(c, s, a) && CanRun(c, Run(c, s, a), b)
    ensures CanRun(c, s, a + b) && Run(c, s, a + b) == Run(c, Run(c, s, a), b)
    decreases |a|
  {
    hide Do, Enabled;
    if a == [] {
      assert a + b == b;
    } else {
      RunAppend(c, Do(c, s, a[0]), a[1..], b);
      assert (a + b)[1..] == a[1..] + b;
    }
  }

  lemma RunOne(c: Config, s: State, step: Step)
    requires c.Valid() && Enabled(c, s, step)
    ensures CanRun(c, s, [step]) && Run(c, s, [step]) == Do(c, s, step)
  {
    hide Do, Enabled;
    assert [step][1..] == [];
  }

  /** A run from an initial state is an execution. */
  lemma {:induction false} RunIsExecution(c: Config, s: State, steps: seq<Step>) returns (states: seq<State>)
    requires c.Valid() && Init(c, s) && CanRun(c, s, steps)
    ensures Execution(c, states, steps) && states[0] == s && states[|steps|] == Run(c, s, steps)
  {
    hide Do, Enabled, Init;
    states := Trace(c, s, steps);
  }

  lemma {:induction false} Trace(c: Config, s: State, steps: seq<Step>) returns (states: seq<State>)
    requires c.Valid() && CanRun(c, s, steps)
    ensures |states| == |steps| + 1 && states[0] == s && states[|steps|] == Run(c, s, steps)
    ensures forall i :: 0 <= i < |steps| ==>
              Enabled(c, states[i], steps[i]) && states[i + 1] == Do(c, states[i], steps[i])
    decreases |steps|
  {
    hide Do, Enabled;
    if steps == [] {
      states := [s];
    } else {
      var rest := Trace(c, Do(c, s, steps[0]), steps[1..]);
      states := [s] + rest;
      assert forall i :: 1 <= i < |states| ==> states[i] == rest[i - 1];
      assert forall i :: 1 <= i < |steps| ==> steps[i] == steps[1..][i - 1];
    }
  }

  /** An undisturbed stretch of a poll is a run. */
  lemma {:induction false} AdvanceIsRun(c: Config, s: State, f: Faults, n: nat) returns (steps: seq<Step>)
    requires c.Valid() && InBounds(c, s)
    ensures CanRun(c, s, steps) && Run(c, s, steps) == Advance(c, s, f, n)
    decreases n
  {
    hide Do;
    if n == 0 {
      steps := [];
    } else {
      var rest := AdvanceIsRun(c, PollOnce(c, s, f), f, n - 1);
      steps := [PollStep(c, s, f)] + rest;
      assert steps[1..] == rest;
    }
  }

  // ------------------------------------------------------------ an upload that goes unseen

  lemma DataIsPlain(layout: set<Key>, t: Key, u: Key, rel: Key)
    requires Separated(layout) && t in layout && u in layout && DataKey(rel)
    ensures t + rel != u + MANIFEST_KEY
  {
    if t + rel == u + MANIFEST_KEY {
      assert t <= t + rel && u <= u + MANIFEST_KEY;
      OwnerIsUnique(layout, t, u, t + rel);
      SameRest(t, rel, MANIFEST_KEY);
      ManifestIsNotData();
    }
  }

  lemma SameRest(t: Key, a: Key, b: Key)
    requires t + a == t + b
    ensures a == b
  {
    assert (t + a)[|t|..] == a && (t + b)[|t|..] == b;
  }

  /** Everything in the bucket was written before `stamp`. */
  ghost predicate Before(store: Store, stamp: nat) {
    forall k :: k in store ==> store[k].stamp < stamp
  }

  lemma ViewsBefore(store: Store, scopes: seq<Key>, stamp: nat, rel: Key)
    requires Before(store, stamp)
    ensures rel in Merge(ViewsOf(store, scopes)) ==> Merge(ViewsOf(store, scopes))[rel] < stamp
  {
    hide ViewOf;
    if scopes != [] {
      ViewsBefore(store, scopes[..|scopes| - 1], stamp, rel);
      ViewBefore(store, scopes[|scopes| - 1], stamp, rel);
      assert ViewsOf(store, scopes)[..|scopes| - 1] == ViewsOf(store, scopes[..|scopes| - 1]);
    }
  }

  lemma ViewBefore(store: Store, scope: Key, stamp: nat, rel: Key)
    requires Before(store, stamp)
    ensures rel in ViewOf(store, scope) ==> ViewOf(store, scope)[rel] < stamp
  {
    hide DataKey;
  }

  /** After its first undisturbed poll a subscriber knows the bucket and remembers every manifest. */
  lemma FirstPoll(c: Config, s: State) returns (steps: seq<Step>)
    requires c.Valid() && s.phase.Idle? && !s.sub.initialized
    ensures CanRun(c, s, steps)
    ensures var s' := Run(c, s, steps);
            && s'.phase.Idle? && s'.world == s.world && |s'.log| == |s.log| + 1 && s'.sub.initialized
            && s'.sub.known.vals == Merge(ViewsOf(s.world.store, c.scopes))
            && forall t :: t in c.scopes ==> Remembered(s'.sub.etags, t) == Etag(s.world.store, t)
  {
    hide Advance, Record, AllEntries, Diff, HeadEtags, AnyChanged, Merge, ViewsOf, Etag, Remembered, FaultyPoll;
    var n := UndisturbedPoll(c, s, Faults({}, {}));
    NoPageLost(s.sub, s.world.store, c.scopes, c.maxKeys, {});
    steps := AdvanceIsRun(c, s, Faults({}, {}), n);
    HeadsAnswered(s.sub.etags, c.scopes, s.world.store, {});
    ListingsMerge(s.world.store, c.scopes);
  }

  /** A poll of a subscriber whose manifests have not moved stays silent and keeps the known state. */
  lemma SilentPoll(c: Config, s: State) returns (steps: seq<Step>)
    requires c.Valid() && s.phase.Idle? && s.sub.initialized
    requires forall t :: t in c.scopes ==> Remembered(s.sub.etags, t) == Etag(s.world.store, t)
    ensures CanRun(c, s, steps)
    ensures var s' := Run(c, s, steps);
            s'.phase.Idle? && s'.world == s.world && s'.sub.known == s.sub.known && s'.log == s.log + [[]]
  {
    hide Advance, Record, AllEntries, Diff, HeadEtags, AnyChanged, Etag, Remembered, FaultyPoll;
    var n := UndisturbedPoll(c, s, Faults({}, {}));
    NoPageLost(s.sub, s.world.store, c.scopes, c.maxKeys, {});
    steps := AdvanceIsRun(c, s, Faults({}, {}), n);
    HeadsAnswered(s.sub.etags, c.scopes, s.world.store, {});
  }

  /**
   * A whole run: an upload is announced, a poll lists the bucket, the upload lands, and the next poll
   * says nothing and leaves the subscriber without it.
   */
  lemma HiddenUploadRun(c: Config, s: State, i: nat, rel: Key, obj: Obj, at: nat) returns (steps: seq<Step>)
    requires c.Valid() && Init(c, s) && i < |c.scopes| && DataKey(rel)
    requires Before(s.world.store, obj.stamp) && at < obj.stamp
    requires forall j :: i < j < |c.scopes| ==> c.scopes[j] + rel !in s.world.store
    ensures CanRun(c, s, steps)
    ensures |steps| > 0 && steps[0] == Announce(c.scopes[i], at) && Unannounced(c.scopes[i] + rel, Some(obj)) in steps
    ensures var s' := Run(c, s, steps);
            && s'.phase.Idle? && c.scopes[i] + rel in s'.world.store && s'.world.store[c.scopes[i] + rel] == obj
            && |s'.log| == 2 && s'.log[1] == []
            && s'.sub.known.vals != Merge(ViewsOf(s'.world.store, c.scopes))
  {
    hide Do, Merge, ViewsOf, DataKey, MANIFEST_KEY, CanRun, Run;
    var announce, land := Announce(c.scopes[i], at), Unannounced(c.scopes[i] + rel, Some(obj));
    var s1 := Announced1(c, s, i, at, obj.stamp);
    RunOne(c, s, announce);
    var first := FirstPoll(c, s1);
    RunAppend(c, s, [announce], first);
    var s2 := Run(c, s1, first);
    var s3 := Landed(c, s2, i, rel, obj);
    RunOne(c, s2, land);
    RunAppend(c, s, [announce] + first, [land]);
    var second := SilentPoll(c, s3);
    RunAppend(c, s, [announce] + first + [land], second);
    steps := [announce] + first + [land] + second;
    ViewsBefore(s1.world.store, c.scopes, obj.stamp, rel);
    forall j | i < j < |c.scopes| ensures rel !in ViewOf(s1.world.store, c.scopes[j]) {
      NotListed(c, s, i, j, rel, at);
    }
    UnseenUpload(c, s2, i, rel, obj);
    assert steps[|[announce] + first|] == land;
  }

  lemma Announced1(c: Config, s: State, i: nat, at: nat, stamp: nat) returns (s1: State)
    requires c.Valid() && Init(c, s) && i < |c.scopes| && Before(s.world.store, stamp) && at < stamp
    ensures Enabled(c, s, Announce(c.scopes[i], at)) && s1 == Do(c, s, Announce(c.scopes[i], at))
    ensures s1.phase.Idle? && !s1.sub.initialized && s1.log == [] && Before(s1.world.store, stamp)
    ensures s1.world == Bump(s.world, c.scopes[i], at)
  {
    hide MANIFEST_KEY;
    assert c.scopes[i] in Elements(c.scopes);
    s1 := Do(c, s, Announce(c.scopes[i], at));
  }

  lemma Landed(c: Config, s: State, i: nat, rel: Key, obj: Obj) returns (s1: State)
    requires c.Valid() && i < |c.scopes| && DataKey(rel)
    ensures Enabled(c, s, Unannounced(c.scopes[i] + rel, Some(obj)))
              && s1 == Do(c, s, Unannounced(c.scopes[i] + rel, Some(obj)))
    ensures s1.world.store == s.world.store[c.scopes[i] + rel := obj] && s1.sub == s.sub && s1.phase == s.phase
              && s1.log == s.log
    ensures forall t :: t in c.scopes ==> Etag(s1.world.store, t) == Etag(s.world.store, t)
  {
    hide MANIFEST_KEY, DataKey;
    assert c.scopes[i] in Elements(c.scopes);
    forall t | t in c.layout ensures c.scopes[i] + rel != t + MANIFEST_KEY {
      DataIsPlain(c.layout, c.scopes[i], t, rel);
    }
    assert forall t :: t in c.scopes ==> t in Elements(c.scopes);
    s1 := Do(c, s, Unannounced(c.scopes[i] + rel, Some(obj)));
  }

  lemma NotListed(c: Config, s: State, i: nat, j: nat, rel: Key, at: nat)
    requires c.Valid() && i < |c.scopes| && j < |c.scopes| && DataKey(rel) && c.scopes[j] + rel !in s.world.store
    ensures rel !in ViewOf(Bump(s.world, c.scopes[i], at).store, c.scopes[j])
  {
    hide MANIFEST_KEY, DataKey;
    assert c.scopes[i] in Elements(c.scopes) && c.scopes[j] in Elements(c.scopes);
    DataIsPlain(c.layout, c.scopes[j], c.scopes[i], rel);
  }

  lemma UnseenUpload(c: Config, s: State, i: nat, rel: Key, obj: Obj)
    requires c.Valid() && i < |c.scopes| && DataKey(rel) && s.sub.known.vals == Merge(ViewsOf(s.world.store, c.scopes))
    requires forall t :: t in c.scopes ==> Remembered(s.sub.etags, t) == Etag(s.world.store, t)
    requires rel in s.sub.known.vals ==> s.sub.known.vals[rel] < obj.stamp
    requires s.sub.initialized && forall j :: i < j < |c.scopes| ==> rel !in ViewOf(s.world.store, c.scopes[j])
    ensures s.sub.known.vals != Merge(ViewsOf(s.world.store[c.scopes[i] + rel := obj], c.scopes))
  {
    hide MANIFEST_KEY, DataKey, Merge, ViewsOf, ViewOf, Etag, Remembered, GatedPoll;
    assert c.scopes[i] in Elements(c.scopes);
    forall t | t in c.layout ensures c.scopes[i] + rel != t + MANIFEST_KEY {
      DataIsPlain(c.layout, c.scopes[i], t, rel);
    }
    UploadAfterListingIsHidden(c, s.sub, s.world.store, i, rel, obj);
  }

  // ------------------------------------------------------------ delete

  /** The bucket and the requests in flight changed; the subscriber did not. */
  ghost predicate WriterRan(s: State, s': State, w: World) {
    s' == s.(world := w, late := s'.late, lateNow := s'.lateNow)
  }

  /** The tombstone: a write of the request in its own scope, an unannounced one elsewhere. */
  ghost function Bury(id: nat, own: bool, tomb: Key, at: nat): Step {
    if own then Write(id, {}, map[tomb := Obj(at, 0)]) else Unannounced(tomb, Some(Obj(at, 0)))
  }

  lemma BuryRuns(c: Config, s: State, id: nat, t: Key, tomb: Key, at: nat, own: bool)
    requires c.Valid() && id in s.open && s.open[id].scope == t && t in c.layout && PlainKey(tomb, c.layout)
    requires own ==> t <= tomb
    ensures Enabled(c, s, Bury(id, own, tomb, at))
    ensures var s' := Do(c, s, Bury(id, own, tomb, at));
            && s'.world == s.world.(store := s.world.store[tomb := Obj(at, 0)])
            && s'.open == s.open[id := Request(t, s.open[id].dirty || own)]
            && s' == s.(world := s'.world, open := s'.open, late := s'.late, lateNow := s'.lateNow)
  {
    hide MANIFEST_KEY;
    assert (s.world.store - {}) + map[tomb := Obj(at, 0)] == s.world.store[tomb := Obj(at, 0)];
    if !own { assert s.open[id := s.open[id]] == s.open; }
  }

  lemma RemoveRuns(c: Config, s: State, id: nat, t: Key, removes: set<Key>)
    requires c.Valid() && id in s.open && s.open[id].scope == t && forall k :: k in removes ==> t <= k
    ensures Enabled(c, s, Write(id, removes, map[]))
    ensures Do(c, s, Write(id, removes, map[]))
         == s.(world := s.world.(store := s.world.store - removes), open := s.open[id := Request(t, true)])
  {
    hide MANIFEST_KEY;
    assert (s.world.store - removes) + map[] == s.world.store - removes;
  }

  /** The end of a request: its bump, or none when it changed nothing of its own. */
  lemma FinishRuns(c: Config, s: State, id: nat, t: Key, at: nat, dirty: bool)
    requires c.Valid() && t in c.layout && id in s.open && s.open[id] == Request(t, dirty)
    ensures dirty ==>
              Enabled(c, s, Finish(id, at))
              && Do(c, s, Finish(id, at)) == s.(world := Bump(s.world, t, at), open := s.open - {id})
    ensures !dirty ==> Enabled(c, s, Abandon(id)) && Do(c, s, Abandon(id)) == s.(open := s.open - {id})
    ensures Enabled(c, s, Announce(t, at)) && Do(c, s, Announce(t, at)) == s.(world := Bump(s.world, t, at))
  {
    hide Bump;
  }

  /** The first deletion, if it succeeds. */
  lemma DeleteFirst(c: Config, s: State, t: Key, k: Key, deleteOk: bool, id: nat) returns (steps: seq<Step>)
    requires c.Valid() && id !in s.open && t in c.layout && t <= k
    ensures CanRun(c, s, steps)
    ensures Run(c, s, steps) == s.(world := if deleteOk then s.world.(store := s.world.store - {k}) else s.world,
                                   open := s.open[id := Request(t, deleteOk)])
  {
    hide CanRun, Run;
    var s1 := Do(c, s, Begin(id, t));
    RunOne(c, s, Begin(id, t));
    steps := [Begin(id, t)];
    if deleteOk {
      RemoveRuns(c, s1, id, t, {k});
      RunOne(c, s1, Write(id, {k}, map[]));
      RunAppend(c, s, steps, [Write(id, {k}, map[])]);
      steps := steps + [Write(id, {k}, map[])];
      assert s1.open[id := Request(t, true)] == s.open[id := Request(t, true)];
    }
  }

  /** The tombstone, if one is asked for. */
  lemma BurySecond(c: Config, s: State, id: nat, t: Key, tomb: Option<Key>, at: nat, own: bool)
    returns (steps: seq<Step>)
    requires c.Valid() && id in s.open && s.open[id].scope == t && t in c.layout
    requires tomb.Some? ==> PlainKey(tomb.value, c.layout) && (own ==> t <= tomb.value)
    ensures CanRun(c, s, steps)
    ensures var s' := Run(c, s, steps);
            && s'.world == (if tomb.Some? then s.world.(store := s.world.store[tomb.value := Obj(at, 0)]) else s.world)
            && s'.open == s.open[id := Request(t, s.open[id].dirty || (tomb.Some? && own))]
            && s' == s.(world := s'.world, open := s'.open, late := s'.late, lateNow := s'.lateNow)
  {
    if tomb.None? {
      steps := [];
      assert s.open[id := s.open[id]] == s.open;
    } else {
      hide CanRun, Run, Do, Enabled, Bury, PlainKey;
      BuryRuns(c, s, id, t, tomb.value, at, own);
      RunOne(c, s, Bury(id, own, tomb.value, at));
      steps := [Bury(id, own, tomb.value, at)];
    }
  }

  /** The bump that follows, whatever the request wrote itself. */
  lemma BumpThird(c: Config, s: State, id: nat, t: Key, at: nat, bump: bool) returns (steps: seq<Step>)
    requires c.Valid() && id in s.open && s.open[id].scope == t && t in c.layout
    requires s.open[id].dirty ==> bump
    ensures CanRun(c, s, steps)
    ensures Run(c, s, steps) == s.(world := if bump then Bump(s.world, t, at) else s.world, open := s.open - {id})
  {
    hide CanRun, Run, Do, Enabled, Bump;
    var dirty := s.open[id].dirty;
    FinishRuns(c, s, id, t, at, dirty);
    if dirty {
      steps := [Finish(id, at)];
      RunOne(c, s, Finish(id, at));
    } else {
      steps := [Abandon(id)];
      RunOne(c, s, Abandon(id));
      if bump {
        var s1 := Do(c, s, Abandon(id));
        AnnounceRuns(c, s1, t, at);
        RunOne(c, s1, Announce(t, at));
        RunAppend(c, s, steps, [Announce(t, at)]);
        steps := steps + [Announce(t, at)];
      }
    }
  }

  lemma AnnounceRuns(c: Config, s: State, t: Key, at: nat)
    requires c.Valid() && t in c.layout
    ensures Enabled(c, s, Announce(t, at)) && Do(c, s, Announce(t, at)) == s.(world := Bump(s.world, t, at))
  {
    hide Bump;
  }

  lemma UnannouncedRuns(c: Config, s: State, k: Key)
    requires c.Valid() && PlainKey(k, c.layout)
    ensures var step := Unannounced(k, None);
            && Enabled(c, s, step) && CanRun(c, s, [step]) && Run(c, s, [step]) == Do(c, s, step)
            && WriterRan(s, Do(c, s, step), s.world.(store := s.world.store - {k}))
  {
    hide MANIFEST_KEY;
    RunOne(c, s, Unannounced(k, None));
  }

  /**
   * Every `delete`, whichever of its calls succeed and wherever its tombstone goes, is a run of the
   * protocol with the bucket as its effect: what it leaves unbumped is what the protocol calls unannounced.
   */
  lemma DeleteIsARun(c: Config, s: State, ctx: UserContext, key: Key, tombstoneKey: Key, deleteOk: bool, putOk: bool,
        at: nat, id: nat)
    returns (steps: seq<Step>)
    requires c.Valid() && id !in s.open && Member(ctx, c.layout)
    requires tombstoneKey != "" ==> PlainKey(ScopeKey(ctx, tombstoneKey), c.layout)
    requires tombstoneKey != "" && !putOk ==> PlainKey(ScopeKey(ctx, key), c.layout)
    ensures CanRun(c, s, steps)
    ensures WriterRan(s, Run(c, s, steps), DeleteEffect(s.world, ctx, key, tombstoneKey, deleteOk, putOk, at).0)
  {
    hide MANIFEST_KEY, ScopeKey, ScopeForKey, CanRun, Run, Do, Enabled, Bump, PlainKey;
    var k, tomb := ScopeKey(ctx, key), ScopeKey(ctx, tombstoneKey);
    var t := OwnerOf(ctx, c.layout, key);
    if tombstoneKey != "" && !putOk {
      if deleteOk {
        UnannouncedRuns(c, s, k);
        steps := [Unannounced(k, None)];
      } else {
        steps := NoSteps(c, s);
      }
    } else {
      steps := DeleteFirst(c, s, t, k, deleteOk, id);
      var s1 := Run(c, s, steps);
      var more := BuryAndBump(c, s1, ctx, t, tombstoneKey, at, id, deleteOk || tombstoneKey != "");
      RunAppend(c, s, steps, more);
      steps := steps + more;
      assert s1.open - {id} == s.open;
    }
  }

  lemma NoSteps(c: Config, s: State) returns (steps: seq<Step>)
    requires c.Valid()
    ensures steps == [] && CanRun(c, s, steps) && Run(c, s, steps) == s
  {
    steps := [];
  }

  /** What follows the deletions. */
  lemma BuryAndBump(c: Config, s: State, ctx: UserContext, t: Key, tombstoneKey: Key, at: nat, id: nat, bump: bool)
    returns (steps: seq<Step>)
    requires c.Valid() && id in s.open && s.open[id].scope == t && t in c.layout && Member(ctx, c.layout)
    requires tombstoneKey != "" ==> PlainKey(ScopeKey(ctx, tombstoneKey), c.layout)
    requires s.open[id].dirty || tombstoneKey != "" ==> bump
    ensures CanRun(c, s, steps)
    ensures var tomb := ScopeKey(ctx, tombstoneKey);
            var w := if tombstoneKey != "" then s.world.(store := s.world.store[tomb := Obj(at, 0)]) else s.world;
            var s' := Run(c, s, steps);
            s' == s.(world := if bump then Bump(w, t, at) else w, open := s.open - {id},
                     late := s'.late, lateNow := s'.lateNow)
  {
    hide MANIFEST_KEY, ScopeKey, ScopeForKey, CanRun, Run, Do, Enabled, Bump, PlainKey;
    var u := OwnerOf(ctx, c.layout, tombstoneKey);
    var tomb := if tombstoneKey != "" then Some(ScopeKey(ctx, tombstoneKey)) else None;
    steps := BurySecond(c, s, id, t, tomb, at, u == t);
    var s1 := Run(c, s, steps);
    var last := BumpThird(c, s1, id, t, at, bump);
    RunAppend(c, s, steps, last);
    steps := steps + last;
    assert s1.open - {id} == s.open - {id};
  }

  // ------------------------------------------------------------ deletePrefix

  /** The delete loop of a request: one write for each page. */
  lemma {:induction false} PagesAreWrites(c: Config, s: State, id: nat, t: Key, store: Store, prefix: Key,
        token: Token, max: nat, done: set<Key>)
    returns (steps: seq<Step>)
    requires c.Valid() && 1 <= max && id in s.open && s.open[id].scope == t && t <= prefix
    requires Deleting(store, s.world.store, prefix, token, true, done)
    ensures CanRun(c, s, steps)
    ensures Run(c, s, steps) == s.(world := s.world.(store := store - Under(store, prefix)),
                                   open := s.open[id := Request(t, true)])
    decreases |Under(store, prefix) - done|
  {
    hide *;
    var page := PageKeys(s.world.store, prefix, token, max);
    var next := NextToken(s.world.store, prefix, token, max);
    DeletingStep(store, s.world.store, prefix, token, max, done);
    PageUnder(s.world.store, prefix, token, max, t);
    var step := Write(id, Elements(page), map[]);
    RemoveRuns(c, s, id, t, Elements(page));
    var s1 := Do(c, s, step);
    RunOne(c, s, step);
    steps := [step];
    if next.Some? {
      var more := PagesAreWrites(c, s1, id, t, store, prefix, next, max, done + Elements(page));
      RunAppend(c, s, steps, more);
      steps := steps + more;
      assert s1.open[id := Request(t, true)] == s.open[id := Request(t, true)];
    } else {
      DeletingEnds(store, s1.world.store, prefix, next, done + Elements(page));
    }
  }

  lemma PageUnder(store: Store, prefix: Key, token: Token, max: nat, t: Key)
    requires 1 <= max && t <= prefix
    ensures forall k :: k in Elements(PageKeys(store, prefix, token, max)) ==> t <= k
  {
    hide Le;
    forall k | k in PageKeys(store, prefix, token, max) ensures t <= k {
      assert prefix <= k;
      assert t == k[..|prefix|][..|t|];
    }
  }

  /** Objects removed without a bump to follow, one by one. */
  lemma {:induction false} LossesAreARun(c: Config, s: State, keys: seq<Key>) returns (steps: seq<Step>)
    requires c.Valid() && forall k :: k in keys ==> PlainKey(k, c.layout)
    ensures CanRun(c, s, steps)
    ensures WriterRan(s, Run(c, s, steps), s.world.(store := s.world.store - Elements(keys)))
    decreases |keys|
  {
    hide CanRun, Run, Do, Enabled, PlainKey;
    if keys == [] {
      steps := NoSteps(c, s);
      assert s.world.store - Elements(keys) == s.world.store;
    } else {
      var n := |keys| - 1;
      assert keys == keys[..n] + [keys[n]];
      steps := LossesAreARun(c, s, keys[..n]);
      var s1 := Run(c, s, steps);
      assert keys[n] in keys;
      UnannouncedRuns(c, s1, keys[n]);
      RunAppend(c, s, steps, [Unannounced(keys[n], None)]);
      steps := steps + [Unannounced(keys[n], None)];
      assert (s.world.store - Elements(keys[..n])) - {keys[n]} == s.world.store - Elements(keys) by {
        assert Elements(keys) == Elements(keys[..n]) + {keys[n]};
      }
    }
  }

  /** No manifest lies under the prefix: a prefix delete that fails half-way removes only plain objects. */
  ghost predicate NoManifestUnder(c: Config, store: Store, prefix: Key) {
    forall k :: k in store && prefix <= k ==> PlainKey(k, c.layout)
  }

  lemma RemovedListed(store: Store, prefix: Key, max: nat, failAt: Option<nat>) returns (keys: seq<Key>)
    ensures Elements(keys) == RemovedUnder(store, prefix, max, failAt)
    ensures forall k :: k in keys ==> k in store && prefix <= k
  {
    hide Le;
    var all := ObjectKeys.Listing(store, prefix, None);
    keys := if FailsAt(store, prefix, max, failAt) then all[..failAt.value * max] else all;
    forall k | k in keys ensures k in store && prefix <= k { assert k in all; }
    if !FailsAt(store, prefix, max, failAt) { assert Elements(all) == Under(store, prefix); }
  }

  /** Every `deletePrefix` that succeeds, page by page, is a run with the bucket as its effect. */
  lemma WholePrefixIsARun(c: Config, s: State, ctx: UserContext, prefix: Key, tombstoneKey: Key, at: nat, id: nat)
    returns (steps: seq<Step>)
    requires c.Valid() && id !in s.open && Member(ctx, c.layout)
    requires tombstoneKey != "" ==> PlainKey(ScopeKey(ctx, tombstoneKey), c.layout)
    requires Under(s.world.store, ScopeKey(ctx, prefix)) != {}
    ensures CanRun(c, s, steps)
    ensures var p := ScopeKey(ctx, prefix);
            var w1 := s.world.(store := s.world.store - Under(s.world.store, p));
            var tomb := ScopeKey(ctx, tombstoneKey);
            var w2 := if tombstoneKey != "" then w1.(store := w1.store[tomb := Obj(at, 0)]) else w1;
            WriterRan(s, Run(c, s, steps), BumpFor(w2, ctx, p, at))
  {
    hide MANIFEST_KEY, ScopeKey, ScopeForKey, CanRun, Run, Do, Enabled, Bump, PlainKey, Under, Deleting,
         ObjectKeys.Listing, PageKeys;
    var p := ScopeKey(ctx, prefix);
    var t := OwnerOf(ctx, c.layout, prefix);
    steps := DeleteFirst(c, s, t, p, false, id);
    var s1 := Run(c, s, steps);
    DeletingStarts(s.world.store, p);
    var pages := PagesAreWrites(c, s1, id, t, s.world.store, p, None, MAX_KEYS, {});
    RunAppend(c, s, steps, pages);
    var s2 := Run(c, s1, pages);
    var more := BuryAndBump(c, s2, ctx, t, tombstoneKey, at, id, true);
    RunAppend(c, s, steps + pages, more);
    steps := steps + pages + more;
    assert s2.open - {id} == s.open;
  }

  /**
   * Every `deletePrefix`, wherever it fails, is a run of the protocol with the bucket as its effect: a
   * failed one leaves its deletions unannounced.
   */
  lemma DeletePrefixIsARun(c: Config, s: State, ctx: UserContext, prefix: Key, tombstoneKey: Key, failAt: Option<nat>,
        putOk: bool, at: nat, id: nat)
    returns (steps: seq<Step>)
    requires c.Valid() && id !in s.open && Member(ctx, c.layout)
    requires tombstoneKey != "" ==> PlainKey(ScopeKey(ctx, tombstoneKey), c.layout)
    requires DeletePrefixEffect(s.world, ctx, prefix, tombstoneKey, failAt, putOk, at).1 == PrefixThrew
         ==> NoManifestUnder(c, s.world.store, ScopeKey(ctx, prefix))
    ensures CanRun(c, s, steps)
    ensures WriterRan(s, Run(c, s, steps), DeletePrefixEffect(s.world, ctx, prefix, tombstoneKey, failAt, putOk, at).0)
  {
    hide MANIFEST_KEY, ScopeKey, ScopeForKey, CanRun, Run, Do, Enabled, Bump, PlainKey, Under, FailsAt, BumpFor;
    var p, store := ScopeKey(ctx, prefix), s.world.store;
    if DeletePrefixEffect(s.world, ctx, prefix, tombstoneKey, failAt, putOk, at).1 == PrefixThrew {
      var keys := RemovedListed(store, p, MAX_KEYS, failAt);
      steps := LossesAreARun(c, s, keys);
    } else if RemovedUnder(store, p, MAX_KEYS, failAt) == {} {
      steps := NoSteps(c, s);
      assert store - {} == store;
    } else {
      steps := WholePrefixIsARun(c, s, ctx, prefix, tombstoneKey, at, id);
    }
  }
}
