/**
 * Writers and one subscriber, interleaved at every request to the bucket.
 * Polls of the subscriber do not overlap; everything else may happen in any order.
 */
module SyncProtocol {
  import opened Common
  import opened OrderedMaps
  import opened ObjectKeys
  import opened SyncScopes
  import opened SyncSubscriber
  import opened SyncWorld
  import opened SyncPolls
  import opened SyncViews

  /** The subscriber's scopes, every scope prefix of the bucket, and the size of a LIST page. */
  datatype Config = Config(scopes: seq<Key>, layout: set<Key>, maxKeys: nat) {
    ghost predicate Valid() {
      && NoDup(scopes) && Elements(scopes) <= layout && Separated(layout) && 1 <= maxKeys
    }
  }

  /** A delete request in flight, and whether it has changed anything yet. */
  datatype Request = Request(scope: Key, dirty: bool)

  datatype Phase =
    | Idle
    | Heading(at: nat, changed: bool)
    | Listing(at: nat, token: Token, entries: seq<Entry>)

  /**
   * `listed` and `reading` record, scope by scope, what the last finished and the current listing
   * read; `late` and `lateNow` the keys written since without a bump to follow; `whole` and
   * `wholeNow` that no LIST page failed; `apart` that no listing found a key in two scopes; `log`
   * the events of each finished poll.
   */
  datatype State = State(
    world: World, open: map<nat, Request>, sub: Sub, phase: Phase,
    listed: seq<View>, reading: seq<View>, late: set<Key>, lateNow: set<Key>,
    whole: bool, wholeNow: bool, apart: bool, log: seq<seq<Event>>)

  datatype Step =
    | Begin(id: nat, scope: Key)                         // a delete request arrives
    | Write(id: nat, removes: set<Key>, puts: Store)     // one of its deletions, or its tombstone
    | Finish(id: nat, at: nat)                           // its manifest bump
    | Abandon(id: nat)                                   // it changed nothing, so it does not bump
    | Announce(scope: Key, at: nat)                      // an upload is presigned: bump only
    | Unannounced(key: Key, obj: Option<Obj>)         // an upload or clean-up lands: no bump follows
    | Tick                                               // a poll starts
    | Head(ok: bool)                                     // HEAD of the next manifest
    | Decide                                             // skip or start listing
    | Page(ok: bool)                                     // one LIST response
    | Conclude                                           // diff, emit, remember

  ghost predicate Dirty(s: State, scope: Key) {
    exists id :: id in s.open && s.open[id] == Request(scope, true)
  }

  ghost predicate Enabled(c: Config, s: State, step: Step) {
    match step
    case Begin(id, scope) => id !in s.open && scope in c.layout
    case Write(id, removes, puts) => id in s.open && InScope(Mutation(s.open[id].scope, removes, puts, 0))
    case Finish(id, _) => id in s.open && s.open[id].dirty
    case Abandon(id) => id in s.open && !s.open[id].dirty
    case Announce(scope, _) => scope in c.layout
    case Unannounced(key, _) => forall t :: t in c.layout ==> key != t + MANIFEST_KEY
    case Tick => s.phase.Idle?
    case Head(_) => s.phase.Heading? && s.phase.at < |c.scopes|
    case Decide => s.phase.Heading? && s.phase.at == |c.scopes|
    case Page(_) => s.phase.Listing? && s.phase.at < |c.scopes|
    case Conclude => s.phase.Listing? && s.phase.at == |c.scopes|
  }

  ghost function Blank(n: nat): (r: seq<View>)
    ensures |r| == n && forall i :: 0 <= i < n ==> r[i] == map[]
  {
    if n == 0 then [] else Blank(n - 1) + [map[]]
  }

  ghost predicate Apart(views: seq<View>) {
    forall i, j :: 0 <= i < j < |views| ==> views[i].Keys !! views[j].Keys
  }

  ghost function DoHead(c: Config, s: State, ok: bool): State
    requires Enabled(c, s, Head(ok))
  {
    var t := c.scopes[s.phase.at];
    var current := Etag(s.world.store, t);
    if !ok then s.(phase := Heading(s.phase.at + 1, s.phase.changed))
    else s.(phase := Heading(s.phase.at + 1, s.phase.changed || Remembered(s.sub.etags, t) != current),
            sub := s.sub.(etags := s.sub.etags[t := current]))
  }

  /** The keys of scope `t` that a page between two tokens answers for. */
  ghost predicate Answered(t: Key, token: Token, next: Token, k: Key) {
    t <= k && Past(token, k) && (next.None? || !Past(next, k))
  }

  ghost function Extend(views: seq<View>, i: nat, more: View): (r: seq<View>)
    ensures |r| == |views|
  {
    if i < |views| then views[i := views[i] + more] else views
  }

  ghost function DoPage(c: Config, s: State, ok: bool): State
    requires Enabled(c, s, Page(ok)) && c.Valid()
  {
    var i, token := s.phase.at, s.phase.token;
    var t := c.scopes[i];
    if !ok then s.(phase := Listing(i + 1, None, s.phase.entries), wholeNow := false)
    else
      var next := NextToken(s.world.store, t, token, c.maxKeys);
      var es := Entries(s.world.store, t, PageKeys(s.world.store, t, token, c.maxKeys));
      s.(phase := Listing(if next.None? then i + 1 else i, next, s.phase.entries + es),
         reading := Extend(s.reading, i, Record(Empty(), es).vals),
         lateNow := set k | k in s.lateNow && !Answered(t, token, next, k))
  }

  ghost function Do(c: Config, s: State, step: Step): State
    requires c.Valid() && Enabled(c, s, step)
  {
    match step
    case Begin(id, scope) => s.(open := s.open[id := Request(scope, false)])
    case Write(id, removes, puts) =>
      s.(world := s.world.(store := Mutate(s.world.store, removes, puts)),
         open := s.open[id := s.open[id].(dirty := true)])
    case Finish(id, at) => s.(world := Bump(s.world, s.open[id].scope, at), open := s.open - {id})
    case Abandon(id) => s.(open := s.open - {id})
    case Announce(scope, at) => s.(world := Bump(s.world, scope, at))
    case Unannounced(key, obj) =>
      s.(world := s.world.(store := if obj.None? then s.world.store - {key} else s.world.store[key := obj.value]),
         late := s.late + {key}, lateNow := s.lateNow + {key})
    case Tick => s.(phase := Heading(0, false))
    case Head(ok) => DoHead(c, s, ok)
    case Decide =>
      if s.sub.initialized && !s.phase.changed then s.(phase := Idle, log := s.log + [[]])
      else s.(phase := Listing(0, None, []), reading := Blank(|c.scopes|), lateNow := {}, wholeNow := true)
    case Page(ok) => DoPage(c, s, ok)
    case Conclude =>
      s.(phase := Idle,
         sub := Sub(s.sub.etags, Record(Empty(), s.phase.entries), true),
         listed := s.reading, late := s.lateNow, whole := s.wholeNow, apart := s.apart && Apart(s.reading),
         log := s.log + [Diff(s.sub.known, s.phase.entries)])
  }

  ghost predicate Init(c: Config, s: State) {
    && EtagsUsed(s.world, c.layout)
    && s.open == map[] && s.sub == NewSub && s.phase == Idle
    && s.listed == Blank(|c.scopes|) && s.reading == Blank(|c.scopes|)
    && s.late == {} && s.lateNow == {} && s.whole && s.wholeNow && s.apart && s.log == []
  }

  ghost predicate Execution(c: Config, states: seq<State>, steps: seq<Step>)
    requires c.Valid()
  {
    && |states| == |steps| + 1
    && Init(c, states[0])
    && forall i :: 0 <= i < |steps| ==>
         && Enabled(c, states[i], steps[i])
         && states[i + 1] == Do(c, states[i], steps[i])
  }

  // ------------------------------------------------------------ the invariant

  /** The stored ETag is the remembered one and no delete still owes this scope a bump. */
  ghost predicate Quiet(s: State, t: Key) {
    Remembered(s.sub.etags, t) == Etag(s.world.store, t) && !Dirty(s, t)
  }

  /** Over the keys a listing has answered for, `snap` is what the store holds, up to `late` keys. */
  ghost predicate Agrees(store: Store, t: Key, snap: View, done: bool, token: Token, late: set<Key>) {
    forall rel :: DataKey(rel) && t + rel !in late && (done || !Past(token, t + rel)) ==>
      && (rel in snap <==> t + rel in store)
      && (rel in snap ==> snap[rel] == store[t + rel].stamp)
  }

  /** A snapshot holds data keys the listing has answered for. */
  ghost predicate Covered(t: Key, snap: View, done: bool, token: Token) {
    forall rel :: rel in snap ==> DataKey(rel) && (done || !Past(token, t + rel))
  }

  ghost predicate KnownAgrees(c: Config, s: State) {
    && |s.listed| == |c.scopes|
    && forall i :: 0 <= i < |c.scopes| && Quiet(s, c.scopes[i])
         ==> Agrees(s.world.store, c.scopes[i], s.listed[i], true, None, s.late)
  }

  ghost predicate ReadingAgrees(c: Config, s: State) {
    && s.phase.Listing? && s.phase.at <= |c.scopes| == |s.reading|
    && forall i :: 0 <= i < |c.scopes| && i <= s.phase.at && Quiet(s, c.scopes[i]) ==>
         Agrees(s.world.store, c.scopes[i], s.reading[i], i < s.phase.at, s.phase.token, s.lateNow)
  }

  /** The gate: as long as nothing tells the subscriber to list again, it knows what there is. */
  ghost predicate GateInv(c: Config, s: State) {
    match s.phase
    case Idle => s.sub.initialized && s.whole ==> KnownAgrees(c, s)
    case Heading(_, changed) => s.sub.initialized && s.whole && !changed ==> KnownAgrees(c, s)
    case Listing(_, _, _) => s.wholeNow ==> ReadingAgrees(c, s)
  }

  ghost predicate WorldInv(c: Config, s: State) {
    && EtagsUsed(s.world, c.layout)
    && (forall t :: t in c.layout && Remembered(s.sub.etags, t).Some?
           ==> Remembered(s.sub.etags, t).value < s.world.nextEtag)
    && (forall id :: id in s.open ==> s.open[id].scope in c.layout)
  }

  /** Shape of a listing in progress, and what it has recorded. */
  ghost predicate ListInv(c: Config, s: State) {
    && |s.listed| == |s.reading| == |c.scopes|
    && s.sub.known.Valid()
    && (s.phase.Heading? ==> s.phase.at <= |c.scopes|)
    && s.sub.known.vals == Merge(s.listed)
    && (forall i :: 0 <= i < |c.scopes| ==> Covered(c.scopes[i], s.listed[i], true, None))
    && (s.phase.Listing? ==>
          && s.phase.at <= |c.scopes|
          && Record(Empty(), s.phase.entries).vals == Merge(s.reading)
          && (forall i :: 0 <= i < |c.scopes| ==>
                Covered(c.scopes[i], s.reading[i], i < s.phase.at, if i == s.phase.at then s.phase.token else None))
          && (Apart(s.reading) ==> DistinctKeys(s.phase.entries)))
  }

  function Flatten(log: seq<seq<Event>>): seq<Event> {
    if log == [] then [] else Flatten(log[..|log| - 1]) + log[|log| - 1]
  }

  /** The events delivered so far rebuild the known state, and no poll repeated a key. */
  ghost predicate LogInv(s: State) {
    s.apart ==>
      && Apply(map[], Flatten(s.log)) == s.sub.known.vals
      && forall i :: 0 <= i < |s.log| ==> NoDup(EventKeys(s.log[i]))
  }

  ghost predicate Inv(c: Config, s: State) {
    WorldInv(c, s) && ListInv(c, s) && GateInv(c, s) && LogInv(s)
  }

  // ------------------------------------------------------------ steps of the writers

  ghost predicate Kept(a: Store, b: Store, t: Key, except: set<Key>) {
    forall k :: t <= k && k !in except ==> (k in a <==> k in b) && (k in a ==> a[k] == b[k])
  }

  lemma AgreesKept(a: Store, b: Store, t: Key, snap: View, done: bool, token: Token, late: set<Key>, extra: set<Key>)
    requires Agrees(a, t, snap, done, token, late) && Kept(a, b, t, extra)
    ensures Agrees(b, t, snap, done, token, late + extra)
  {
    hide DataKey, Past;
    forall rel | DataKey(rel) && t + rel !in late + extra && (done || !Past(token, t + rel))
      ensures (rel in snap <==> t + rel in b) && (rel in snap ==> snap[rel] == b[t + rel].stamp)
    {
      assert t <= t + rel;
    }
  }

  /** A writer's step touches only the world, and a scope still quiet afterwards kept its objects. */
  ghost predicate WriterFrame(c: Config, s: State, s': State, extra: set<Key>) {
    && s' == s.(world := s'.world, open := s'.open, late := s.late + extra, lateNow := s.lateNow + extra)
    && forall t :: t in c.layout && Quiet(s', t) ==> Quiet(s, t) && Kept(s.world.store, s'.world.store, t, extra)
  }

  lemma WriterKeepsGate(c: Config, s: State, s': State, extra: set<Key>)
    requires c.Valid() && GateInv(c, s) && WriterFrame(c, s, s', extra)
    ensures GateInv(c, s')
  {
    hide Quiet, Agrees, Kept, NoDup, Separated;
    forall i | 0 <= i < |c.scopes| && Quiet(s', c.scopes[i])
      ensures Quiet(s, c.scopes[i]) && Kept(s.world.store, s'.world.store, c.scopes[i], extra)
    {
      assert c.scopes[i] in Elements(c.scopes);
    }
    if KnownAgrees(c, s) {
      forall i | 0 <= i < |c.scopes| && Quiet(s', c.scopes[i])
        ensures Agrees(s'.world.store, c.scopes[i], s'.listed[i], true, None, s'.late) {
        AgreesKept(s.world.store, s'.world.store, c.scopes[i], s.listed[i], true, None, s.late, extra);
      }
    }
    if ReadingAgrees(c, s) {
      forall i | 0 <= i < |c.scopes| && i <= s.phase.at && Quiet(s', c.scopes[i])
        ensures Agrees(s'.world.store, c.scopes[i], s'.reading[i], i < s.phase.at, s.phase.token, s'.lateNow)
      {
        AgreesKept(s.world.store, s'.world.store, c.scopes[i], s.reading[i], i < s.phase.at, s.phase.token, s.lateNow,
                   extra);
      }
    }
  }

  /** A bump takes its scope out of the quiet ones and touches no other. */
  lemma BumpFrame(c: Config, w: World, scope: Key, at: nat, t: Key)
    requires c.Valid() && scope in c.layout && t in c.layout && EtagsUsed(w, c.layout)
    ensures t == scope ==> Etag(Bump(w, scope, at).store, t) == Some(w.nextEtag)
    ensures t != scope ==>
              Etag(Bump(w, scope, at).store, t) == Etag(w.store, t) && Kept(w.store, Bump(w, scope, at).store, t, {})
  {
    hide MANIFEST_KEY;
    if t != scope {
      var after := Bump(w, scope, at).store;
      forall k | t <= k ensures (k in w.store <==> k in after) && (k in w.store ==> w.store[k] == after[k]) {
        if scope <= k { OwnerIsUnique(c.layout, t, scope, k); }
      }
      assert t <= t + MANIFEST_KEY && scope <= scope + MANIFEST_KEY;
    }
  }

  lemma BumpKeepsWorld(c: Config, w: World, scope: Key, at: nat)
    requires c.Valid() && scope in c.layout && EtagsUsed(w, c.layout)
    ensures EtagsUsed(Bump(w, scope, at), c.layout)
  {
    hide Etag, Bump, Separated, Kept;
    assert Bump(w, scope, at).nextEtag == w.nextEtag + 1 by { BumpNext(w, scope, at); }
    forall t | t in c.layout && Etag(Bump(w, scope, at).store, t).Some?
      ensures Etag(Bump(w, scope, at).store, t).value < w.nextEtag + 1 {
      BumpFrame(c, w, scope, at, t);
    }
  }

  lemma BumpNext(w: World, scope: Key, at: nat)
    ensures Bump(w, scope, at).nextEtag == w.nextEtag + 1
  {
  }

  lemma AnnounceKeepsInv(c: Config, s: State, step: Step)
    requires c.Valid() && Enabled(c, s, step) && (step.Announce? || step.Finish?) && Inv(c, s)
    ensures Inv(c, Do(c, s, step))
  {
    hide Etag, Bump, Separated, Kept, Agrees, Covered, Record, Apply, Merge;
    var s' := Do(c, s, step);
    var scope := if step.Finish? then s.open[step.id].scope else step.scope;
    BumpNext(s.world, scope, step.at);
    BumpKeepsWorld(c, s.world, scope, step.at);
    forall t | t in c.layout ensures Quiet(s', t) ==> Quiet(s, t) && Kept(s.world.store, s'.world.store, t, {}) {
      BumpFrame(c, s.world, scope, step.at, t);
      if step.Finish? && t != scope && Dirty(s, t) {
        var id :| id in s.open && s.open[id] == Request(t, true);
        assert s'.open[id] == Request(t, true);
      }
    }
    assert s.late + {} == s.late && s.lateNow + {} == s.lateNow;
    WriterKeepsGate(c, s, s', {});
  }

  lemma WriteKeepsInv(c: Config, s: State, step: Step)
    requires c.Valid() && Enabled(c, s, step) && step.Write? && Inv(c, s)
    ensures Inv(c, Do(c, s, step))
  {
    hide Agrees, Covered, Record, Apply, Merge, MANIFEST_KEY, Flatten, EventKeys, NoDup, DistinctKeys, Apart, Separated;
    var s' := Do(c, s, step);
    var scope := s.open[step.id].scope;
    forall t | t in c.layout
      ensures Etag(s'.world.store, t).Some? ==> Etag(s'.world.store, t).value < s'.world.nextEtag
      ensures Quiet(s', t) ==> Quiet(s, t) && Kept(s.world.store, s'.world.store, t, {})
    {
      assert t <= t + MANIFEST_KEY;
      if t == scope {
        assert s'.open[step.id] == Request(t, true);
      } else {
        WriteElsewhere(c, s.world.store, scope, step.removes, step.puts, t);
        if Dirty(s, t) {
          var id :| id in s.open && s.open[id] == Request(t, true);
          assert s'.open[id] == Request(t, true);
        }
      }
    }
    assert s.late + {} == s.late && s.lateNow + {} == s.lateNow;
    WriterKeepsGate(c, s, s', {});
  }

  lemma WriteElsewhere(c: Config, store: Store, scope: Key, removes: set<Key>, puts: Store, t: Key)
    requires c.Valid() && scope in c.layout && t in c.layout && t != scope && InScope(Mutation(scope, removes, puts, 0))
    ensures Kept(store, Mutate(store, removes, puts), t, {})
    ensures Etag(Mutate(store, removes, puts), t) == Etag(store, t)
  {
    hide MANIFEST_KEY;
    var after := Mutate(store, removes, puts);
    forall k | t <= k ensures (k in store <==> k in after) && (k in store ==> store[k] == after[k]) {
      if scope <= k { OwnerIsUnique(c.layout, t, scope, k); }
    }
    assert t <= t + MANIFEST_KEY;
  }

  lemma UnannouncedKeepsInv(c: Config, s: State, step: Step)
    requires c.Valid() && Enabled(c, s, step) && step.Unannounced? && Inv(c, s)
    ensures Inv(c, Do(c, s, step))
  {
    hide Agrees, Covered, Record, Apply, Merge, MANIFEST_KEY;
    var s' := Do(c, s, step);
    assert forall t :: t in c.layout ==> Etag(s'.world.store, t) == Etag(s.world.store, t);
    assert forall t :: Dirty(s', t) <==> Dirty(s, t);
    WriterKeepsGate(c, s, s', {step.key});
  }

  lemma RequestKeepsInv(c: Config, s: State, step: Step)
    requires c.Valid() && Enabled(c, s, step) && (step.Begin? || step.Abandon?) && Inv(c, s)
    ensures Inv(c, Do(c, s, step))
  {
    hide Agrees, Covered, Record, Apply, Merge, Etag, Flatten, EventKeys, NoDup, DistinctKeys, Apart, Separated,
         EtagsUsed;
    var s' := Do(c, s, step);
    forall t ensures Dirty(s, t) ==> Dirty(s', t) {
      if Dirty(s, t) {
        var id :| id in s.open && s.open[id] == Request(t, true);
        assert s'.open[id] == Request(t, true);
      }
    }
    assert s.late + {} == s.late && s.lateNow + {} == s.lateNow;
    WriterKeepsGate(c, s, s', {});
  }

  // ------------------------------------------------------------ steps of the subscriber

  lemma HeadKeepsInv(c: Config, s: State, step: Step)
    requires c.Valid() && Enabled(c, s, step) && step.Head? && Inv(c, s)
    ensures Inv(c, Do(c, s, step))
  {
    hide *;
    HeadKeepsWorld(c, s, step);
    HeadKeepsRest(c, s, step);
    HeadKeepsGate(c, s, step);
    InvParts(c, s);
    InvParts(c, Do(c, s, step));
  }

  lemma InvParts(c: Config, s: State)
    ensures Inv(c, s) <==> WorldInv(c, s) && ListInv(c, s) && GateInv(c, s) && LogInv(s)
  {
    hide WorldInv, ListInv, GateInv, LogInv;
  }

  lemma HeadKeepsWorld(c: Config, s: State, step: Step)
    requires c.Valid() && Enabled(c, s, step) && step.Head? && Inv(c, s)
    ensures WorldInv(c, Do(c, s, step))
  {
    hide ListInv, GateInv, LogInv, Etag, EtagsUsed, Separated, NoDup;
    var t := c.scopes[s.phase.at];
    assert t in Elements(c.scopes);
    EtagBelow(c, s.world, t);
  }

  lemma HeadKeepsRest(c: Config, s: State, step: Step)
    requires c.Valid() && Enabled(c, s, step) && step.Head? && Inv(c, s)
    ensures ListInv(c, Do(c, s, step)) && LogInv(Do(c, s, step))
  {
    hide WorldInv, GateInv, Etag, Remembered, Covered, Record, Apply, Merge, Flatten, EventKeys, NoDup, DistinctKeys,
         Apart;
  }

  lemma HeadKeepsGate(c: Config, s: State, step: Step)
    requires c.Valid() && Enabled(c, s, step) && step.Head? && Inv(c, s)
    ensures GateInv(c, Do(c, s, step))
  {
    hide WorldInv, ListInv, LogInv, Agrees, Etag, Quiet, Separated, NoDup;
    var s' := Do(c, s, step);
    if !s'.phase.changed {
      assert forall u :: Remembered(s'.sub.etags, u) == Remembered(s.sub.etags, u);
      assert forall u :: Quiet(s', u) <==> Quiet(s, u) by { QuietSame(s, s'); }
    }
  }

  lemma EtagBelow(c: Config, w: World, t: Key)
    requires EtagsUsed(w, c.layout) && t in c.layout
    ensures Etag(w.store, t).Some? ==> Etag(w.store, t).value < w.nextEtag
  {
  }

  lemma QuietSame(s: State, s': State)
    requires s'.world == s.world && s'.open == s.open
    requires forall u :: Remembered(s'.sub.etags, u) == Remembered(s.sub.etags, u)
    ensures forall u :: Quiet(s', u) <==> Quiet(s, u)
  {
    hide Remembered, Etag;
    assert forall u :: Dirty(s', u) <==> Dirty(s, u);
  }

  lemma SameLog(log: seq<seq<Event>>, events: seq<Event>)
    ensures Flatten(log + [events]) == Flatten(log) + events
  {
    assert (log + [events])[..|log|] == log;
  }

  lemma {:induction false} MergeBlank(n: nat)
    ensures Merge(Blank(n)) == map[]
  {
    if n > 0 {
      assert Blank(n)[..n - 1] == Blank(n - 1);
      MergeBlank(n - 1);
    }
  }

  lemma RecordNil()
    ensures Record(Empty(), []).vals == map[]
  {
  }

  lemma TickKeepsInv(c: Config, s: State)
    requires c.Valid() && Enabled(c, s, Tick) && Inv(c, s)
    ensures Inv(c, Do(c, s, Tick))
  {
    hide Record, Apply, Merge, Etag, EtagsUsed, Quiet, Agrees, Covered;
    assert forall t :: Quiet(Do(c, s, Tick), t) <==> Quiet(s, t) by { QuietSame(s, Do(c, s, Tick)); }
  }

  lemma SkipKeepsInv(c: Config, s: State)
    requires c.Valid() && Enabled(c, s, Decide) && Inv(c, s) && s.sub.initialized && !s.phase.changed
    ensures Inv(c, Do(c, s, Decide))
  {
    hide Record, Apply, Merge, Etag, EtagsUsed, Quiet, Agrees, Covered;
    var s' := Do(c, s, Decide);
    assert forall t :: Quiet(s', t) <==> Quiet(s, t) by { QuietSame(s, s'); }
    SameLog(s.log, []);
    assert Flatten(s.log) + [] == Flatten(s.log);
  }

  lemma NothingRead(store: Store, t: Key)
    ensures Agrees(store, t, map[], false, None, {})
    ensures Covered(t, map[], false, None)
  {
  }

  lemma StartKeepsInv(c: Config, s: State)
    requires c.Valid() && Enabled(c, s, Decide) && Inv(c, s) && !(s.sub.initialized && !s.phase.changed)
    ensures Inv(c, Do(c, s, Decide))
  {
    hide Record, Apply, Merge, Etag, EtagsUsed, Quiet, Agrees, Covered;
    var s' := Do(c, s, Decide);
    MergeBlank(|c.scopes|);
    RecordNil();
    forall i | 0 <= i < |c.scopes|
      ensures Agrees(s.world.store, c.scopes[i], s'.reading[i], false, None, {})
                && Covered(c.scopes[i], s'.reading[i], false, None)
    {
      NothingRead(s.world.store, c.scopes[i]);
    }
  }

  // ------------------------------------------------------------ a LIST page

  /** What a page's entries say about the keys it answers for. */
  lemma PageSays(store: Store, t: Key, token: Token, max: nat, rel: Key)
    requires 1 <= max
    ensures var next := NextToken(store, t, token, max);
            var got := Record(Empty(), Entries(store, t, PageKeys(store, t, token, max))).vals;
            && (rel in got ==>
                  && DataKey(rel) && t + rel in store && got[rel] == store[t + rel].stamp
                  && Answered(t, token, next, t + rel))
            && (DataKey(rel) && t + rel in store && Answered(t, token, next, t + rel) ==> rel in got)
  {
    hide DataKey, Record, Entries, PageKeys, NextToken, Past, Le;
    var next := NextToken(store, t, token, max);
    var page := PageKeys(store, t, token, max);
    var es := Entries(store, t, page);
    var got := Record(Empty(), es).vals;
    assert t <= t + rel;
    if rel in got {
      var i := RecordIsListed(es, rel);
      assert es[i] in es;
      EntriesOfPage(store, t, page, es[i]);
      PageCovers(store, t, token, max, t + rel);
    }
    if DataKey(rel) && t + rel in store && Answered(t, token, next, t + rel) {
      var e := Entry(rel, store[t + rel].stamp);
      PageCovers(store, t, token, max, t + rel);
      EntriesOfPage(store, t, page, e);
      var i :| 0 <= i < |es| && es[i] == e;
      RecordHasKeys(es, i);
    }
  }

  /** A later token has passed every key an earlier one had. */
  lemma TokensAdvance(store: Store, t: Key, token: Token, max: nat, k: Key)
    requires 1 <= max && !Past(token, k)
    ensures var next := NextToken(store, t, token, max);
            next.Some? ==> !Past(next, k)
  {
    hide ObjectKeys.Listing;
    var next := NextToken(store, t, token, max);
    if next.Some? && Past(next, k) { LtTrans(token.value, next.value, k); }
  }

  /** The scope being listed: after the page, its snapshot answers for one more stretch of keys. */
  lemma PageAgrees(store: Store, t: Key, snap: View, token: Token, max: nat, late: set<Key>, late': set<Key>)
    requires 1 <= max
    requires forall k :: k in late' <==> k in late && !Answered(t, token, NextToken(store, t, token, max), k)
    requires Covered(t, snap, false, token)
    ensures var next := NextToken(store, t, token, max);
            var snap' := snap + Record(Empty(), Entries(store, t, PageKeys(store, t, token, max))).vals;
            && Covered(t, snap', next.None?, next)
            && (Agrees(store, t, snap, false, token, late) ==> Agrees(store, t, snap', next.None?, next, late'))
  {
    hide DataKey, Record, Entries, PageKeys, NextToken, Past;
    var next := NextToken(store, t, token, max);
    var got := Record(Empty(), Entries(store, t, PageKeys(store, t, token, max))).vals;
    var snap' := snap + got;
    forall rel | rel in snap' ensures DataKey(rel) && (next.None? || !Past(next, t + rel)) {
      PageSays(store, t, token, max, rel);
      if rel in snap { TokensAdvance(store, t, token, max, t + rel); }
    }
    if Agrees(store, t, snap, false, token, late) {
      forall rel | DataKey(rel) && t + rel !in late' && (next.None? || !Past(next, t + rel))
        ensures (rel in snap' <==> t + rel in store) && (rel in snap' ==> snap'[rel] == store[t + rel].stamp)
      {
        assert t <= t + rel;
        PageSays(store, t, token, max, rel);
      }
    }
  }

  lemma OtherScopeAgrees(c: Config, store: Store, t: Key, u: Key, snap: View, done: bool, token: Token, next: Token,
        u_token: Token, late: set<Key>, late': set<Key>)
    requires c.Valid() && t in c.layout && u in c.layout && t != u
    requires forall k :: k in late' <==> k in late && !Answered(t, token, next, k)
    requires Agrees(store, u, snap, done, u_token, late)
    ensures Agrees(store, u, snap, done, u_token, late')
  {
    hide DataKey, Past;
    forall rel | DataKey(rel) && u + rel !in late' && (done || !Past(u_token, u + rel)) ensures u + rel !in late {
      assert u <= u + rel;
      if t <= u + rel { OwnerIsUnique(c.layout, t, u, u + rel); }
    }
  }

  lemma {:induction false} MergeExtend(views: seq<View>, i: nat, more: View)
    requires i < |views| && forall j :: i < j < |views| ==> views[j] == map[]
    ensures Merge(views[i := views[i] + more]) == Merge(views) + more
  {
    var n := |views| - 1;
    var views' := views[i := views[i] + more];
    if i == n {
      assert views'[..n] == views[..n];
      PlusAssoc(Merge(views[..n]), views[n], more);
    } else {
      assert views'[..n] == views[..n][i := views[..n][i] + more];
      MergeExtend(views[..n], i, more);
      PlusNothing(Merge(views[..n]) + more);
      PlusNothing(Merge(views[..n]));
    }
  }

  lemma PlusAssoc(a: View, b: View, c: View)
    ensures a + (b + c) == (a + b) + c
  {
  }

  lemma PlusNothing(a: View)
    ensures a + map[] == a
  {
  }

  lemma {:induction false} MergeKeys(views: seq<View>, k: Key)
    ensures k in Merge(views) <==> exists i :: 0 <= i < |views| && k in views[i]
  {
    if views != [] {
      var front := views[..|views| - 1];
      MergeKeys(front, k);
      if k in Merge(views) {
        if k !in views[|views| - 1] {
          var i :| 0 <= i < |front| && k in front[i];
          assert k in views[i];
        }
      }
      if i :| 0 <= i < |views| && k in views[i] {
        assert i < |front| ==> k in front[i];
      }
    }
  }

  /** Two different keys of the same map carry their own entries: appending fresh entries keeps keys distinct. */
  lemma DistinctAppend(a: seq<Entry>, b: seq<Entry>)
    requires DistinctKeys(a) && DistinctKeys(b)
    requires Record(Empty(), a).vals.Keys !! Record(Empty(), b).vals.Keys
    ensures DistinctKeys(a + b)
  {
    hide Record;
    forall i, j | 0 <= i < j < |a + b| ensures (a + b)[i].key != (a + b)[j].key {
      if i < |a| <= j {
        RecordHasKeys(a, i);
        RecordHasKeys(b, j - |a|);
      }
    }
  }

  /** While the scopes' snapshots stay apart, a page repeats no key that was read before. */
  lemma PageIsFresh(views: seq<View>, i: nat, t: Key, token: Token, store: Store, max: nat)
    requires i < |views| && 1 <= max && Covered(t, views[i], false, token)
    requires Apart(views[i := views[i] + Record(Empty(), Entries(store, t, PageKeys(store, t, token, max))).vals])
    ensures Apart(views)
    ensures Merge(views).Keys !! Record(Empty(), Entries(store, t, PageKeys(store, t, token, max))).vals.Keys
  {
    hide DataKey, Record, Entries, PageKeys, NextToken, Past, Merge;
    var got := Record(Empty(), Entries(store, t, PageKeys(store, t, token, max))).vals;
    var views' := views[i := views[i] + got];
    assert forall j :: 0 <= j < |views| ==> views[j].Keys <= views'[j].Keys;
    forall j, k | 0 <= j < k < |views| ensures views[j].Keys !! views[k].Keys {
      assert views'[j].Keys !! views'[k].Keys;
    }
    forall rel | rel in got ensures rel !in Merge(views) {
      MergeKeys(views, rel);
      PageSays(store, t, token, max, rel);
      assert forall j :: 0 <= j < |views| && j != i ==> views'[j].Keys !! views'[i].Keys;
    }
  }

  lemma EmptyAhead(c: Config, s: State, j: nat)
    requires ListInv(c, s) && s.phase.Listing? && s.phase.at < j < |c.scopes|
    ensures s.reading[j] == map[]
  {
    hide DataKey, Record, Merge, DistinctKeys;
    assert Covered(c.scopes[j], s.reading[j], false, None);
    assert s.reading[j].Keys == {};
  }

  lemma PageKeepsListing(c: Config, s: State)
    requires c.Valid() && Enabled(c, s, Page(true)) && ListInv(c, s)
    ensures ListInv(c, Do(c, s, Page(true)))
  {
    hide DataKey, Record, Entries, PageKeys, NextToken, Past, Merge, DistinctKeys, Covered, Answered, Apart, NoDup,
         Separated;
    var s' := Do(c, s, Page(true));
    var i, token, store := s.phase.at, s.phase.token, s.world.store;
    var t := c.scopes[i];
    var next := NextToken(store, t, token, c.maxKeys);
    var es := Entries(store, t, PageKeys(store, t, token, c.maxKeys));
    RecordAppend(s.phase.entries, es);
    forall j | i < j < |c.scopes| ensures s.reading[j] == map[] { EmptyAhead(c, s, j); }
    MergeExtend(s.reading, i, Record(Empty(), es).vals);
    PageAgrees(store, t, s.reading[i], token, c.maxKeys, s.lateNow, s'.lateNow);
    if Apart(s'.reading) {
      PageIsFresh(s.reading, i, t, token, store, c.maxKeys);
      PageDistinct(store, t, token, c.maxKeys);
      DistinctAppend(s.phase.entries, es);
    }
  }

  lemma PageDistinct(store: Store, t: Key, token: Token, max: nat)
    ensures DistinctKeys(Entries(store, t, PageKeys(store, t, token, max)))
  {
    hide DataKey, Entries;
    EntriesDistinct(store, t, PageKeys(store, t, token, max));
  }

  lemma PageKeepsReading(c: Config, s: State)
    requires c.Valid() && Enabled(c, s, Page(true)) && ListInv(c, s) && ReadingAgrees(c, s)
    ensures ReadingAgrees(c, Do(c, s, Page(true)))
  {
    hide DataKey, Record, Entries, PageKeys, NextToken, Past, Merge, DistinctKeys, Covered, Answered, Apart, Agrees,
         Quiet;
    var s' := Do(c, s, Page(true));
    var at, token, store := s.phase.at, s.phase.token, s.world.store;
    var t := c.scopes[at];
    var next := NextToken(store, t, token, c.maxKeys);
    assert forall u :: Quiet(s', u) <==> Quiet(s, u) by { QuietSame(s, s'); }
    PageAgrees(store, t, s.reading[at], token, c.maxKeys, s.lateNow, s'.lateNow);
    forall i | 0 <= i < |c.scopes| && i <= s'.phase.at && Quiet(s', c.scopes[i])
      ensures Agrees(store, c.scopes[i], s'.reading[i], i < s'.phase.at, s'.phase.token, s'.lateNow)
    {
      assert c.scopes[i] in Elements(c.scopes) && t in Elements(c.scopes);
      if i < at {
        OtherScopeAgrees(c, store, t, c.scopes[i], s.reading[i], true, token, next, token, s.lateNow, s'.lateNow);
        DoneAgrees(store, c.scopes[i], s.reading[i], token, next, s'.lateNow);
      } else if i == at {
        if next.None? { DoneAgrees(store, t, s'.reading[i], next, next, s'.lateNow); }
      } else {
        NotStarted(store, c.scopes[i], s'.reading[i], s'.lateNow);
      }
    }
  }

  lemma DoneAgrees(store: Store, t: Key, snap: View, token: Token, token': Token, late: set<Key>)
    ensures Agrees(store, t, snap, true, token, late) <==> Agrees(store, t, snap, true, token', late)
  {
  }

  lemma NotStarted(store: Store, t: Key, snap: View, late: set<Key>)
    ensures Agrees(store, t, snap, false, None, late)
  {
  }

  lemma ReadPageKeepsInv(c: Config, s: State)
    requires c.Valid() && Enabled(c, s, Page(true)) && Inv(c, s)
    ensures Inv(c, Do(c, s, Page(true)))
  {
    hide Etag, EtagsUsed, ListInv, ReadingAgrees, KnownAgrees, Record, Entries, PageKeys, NextToken, Apply, Flatten,
         EventKeys, NoDup;
    PageKeepsListing(c, s);
    if s.wholeNow { PageKeepsReading(c, s); }
  }

  lemma LostPageKeepsInv(c: Config, s: State)
    requires c.Valid() && Enabled(c, s, Page(false)) && Inv(c, s)
    ensures Inv(c, Do(c, s, Page(false)))
  {
    hide Etag, EtagsUsed, Covered, Merge, Record, Apply, Apart, Flatten, EventKeys, NoDup, DistinctKeys,
         ReadingAgrees, KnownAgrees;
    CoveredDone(c.scopes[s.phase.at], s.reading[s.phase.at], s.phase.token);
  }

  lemma CoveredDone(t: Key, snap: View, token: Token)
    requires Covered(t, snap, false, token)
    ensures Covered(t, snap, true, None)
  {
  }

  lemma DistinctIsPlain(known: map<Key, nat>, es: seq<Entry>)
    requires DistinctKeys(es)
    ensures !Shadowed(known, es) && !TwiceDiffering(known, es)
  {
    hide Record;
    var r := Record(Empty(), es).vals;
    forall i | 0 <= i < |es| && es[i].key in r ensures r[es[i].key] == es[i].stamp {
      var j := RecordIsListed(es, es[i].key);
    }
  }

  lemma ConcludeKeepsLog(c: Config, s: State)
    requires c.Valid() && Enabled(c, s, Conclude) && ListInv(c, s) && LogInv(s)
    ensures LogInv(Do(c, s, Conclude))
  {
    hide Record, Apply, Merge, Covered, Apart, EventKeys, NoDup, Diff, DistinctKeys, Flatten;
    var events := Diff(s.sub.known, s.phase.entries);
    if s.apart && Apart(s.reading) {
      DistinctIsPlain(s.sub.known.vals, s.phase.entries);
      FoldGivesListing(s.sub.known, s.phase.entries);
      PollEmitsOnce(s.sub.known, s.phase.entries);
      SameLog(s.log, events);
      ApplyAppend(map[], Flatten(s.log), events);
    }
  }

  lemma ConcludeKeepsInv(c: Config, s: State)
    requires c.Valid() && Enabled(c, s, Conclude) && Inv(c, s)
    ensures Inv(c, Do(c, s, Conclude))
  {
    hide Etag, EtagsUsed, Covered, Merge, Record, Apply, Apart, Flatten, EventKeys, NoDup, DistinctKeys, Agrees,
         Quiet, LogInv, Diff;
    var s' := Do(c, s, Conclude);
    ConcludeKeepsLog(c, s);
    assert forall t :: Quiet(s', t) <==> Quiet(s, t) by { QuietSame(s, s'); }
    if s.wholeNow {
      forall i | 0 <= i < |c.scopes| && Quiet(s', c.scopes[i])
        ensures Agrees(s.world.store, c.scopes[i], s'.listed[i], true, None, s'.late) {
        DoneAgrees(s.world.store, c.scopes[i], s.reading[i], s.phase.token, None, s.lateNow);
      }
    }
  }

  // ------------------------------------------------------------ whole runs

  lemma StepKeepsInv(c: Config, s: State, step: Step)
    requires c.Valid() && Enabled(c, s, step) && Inv(c, s)
    ensures Inv(c, Do(c, s, step))
  {
    hide Inv, Do;
    match step
    case Begin(_, _) => RequestKeepsInv(c, s, step);
    case Write(_, _, _) => WriteKeepsInv(c, s, step);
    case Finish(_, _) => AnnounceKeepsInv(c, s, step);
    case Abandon(_) => RequestKeepsInv(c, s, step);
    case Announce(_, _) => AnnounceKeepsInv(c, s, step);
    case Unannounced(_, _) => UnannouncedKeepsInv(c, s, step);
    case Tick => TickKeepsInv(c, s);
    case Head(_) => HeadKeepsInv(c, s, step);
    case Decide => if s.sub.initialized && !s.phase.changed { SkipKeepsInv(c, s); } else { StartKeepsInv(c, s); }
    case Page(ok) => if ok { ReadPageKeepsInv(c, s); } else { LostPageKeepsInv(c, s); }
    case Conclude => ConcludeKeepsInv(c, s);
  }

  lemma InitInv(c: Config, s: State)
    requires c.Valid() && Init(c, s)
    ensures Inv(c, s)
  {
    hide DataKey, Etag;
    MergeBlank(|c.scopes|);
  }

  /** Every state of every run satisfies the invariant. */
  lemma {:induction false} RunKeepsInv(c: Config, states: seq<State>, steps: seq<Step>, i: nat)
    requires c.Valid() && Execution(c, states, steps) && i < |states|
    ensures Inv(c, states[i])
  {
    hide Inv, Do, Enabled, Init;
    if i == 0 {
      InitInv(c, states[0]);
    } else {
      RunKeepsInv(c, states, steps, i - 1);
      StepKeepsInv(c, states[i - 1], steps[i - 1]);
    }
  }

  /** An initialised subscriber between polls whose last listing lost no page. */
  ghost predicate Settled(s: State) {
    s.phase.Idle? && s.sub.initialized && s.whole
  }

  /**
   * Whatever the interleaving: between polls, a scope whose ETag is the remembered one and that no
   * delete still owes a bump is known exactly as it is, up to keys written without a later bump.
   */
  lemma SkippedListHidesNothing(c: Config, states: seq<State>, steps: seq<Step>, n: nat, i: nat, rel: Key)
    requires c.Valid() && Execution(c, states, steps) && n < |states| && i < |c.scopes|
    requires var s := states[n]; Settled(s) && Quiet(s, c.scopes[i]) && c.scopes[i] + rel !in s.late
    ensures var s := states[n];
            && |s.listed| == |c.scopes| && s.sub.known.vals == Merge(s.listed)
            && (rel in s.listed[i] <==> rel in ViewOf(s.world.store, c.scopes[i]))
            && (rel in s.listed[i] ==> s.listed[i][rel] == ViewOf(s.world.store, c.scopes[i])[rel])
  {
    hide Execution, Quiet, Merge, DataKey, LogInv, WorldInv;
    var s := states[n];
    RunKeepsInv(c, states, steps, n);
    assert KnownAgrees(c, s);
    assert Agrees(s.world.store, c.scopes[i], s.listed[i], true, None, s.late);
    assert Covered(c.scopes[i], s.listed[i], true, None);
  }

  /** With no unannounced write since, quiet scopes mean the known state is the merged view of the store. */
  lemma QuietMeansKnown(c: Config, states: seq<State>, steps: seq<Step>, n: nat)
    requires c.Valid() && Execution(c, states, steps) && n < |states|
    requires var s := states[n]; Settled(s) && s.late == {} && forall t :: t in c.scopes ==> Quiet(s, t)
    ensures states[n].sub.known.vals == Merge(ViewsOf(states[n].world.store, c.scopes))
  {
    hide Execution, Quiet, Merge, DataKey, LogInv, WorldInv, GateInv;
    var s := states[n];
    RunKeepsInv(c, states, steps, n);
    forall i | 0 <= i < |c.scopes| ensures s.listed[i] == ViewOf(s.world.store, c.scopes[i]) {
      forall rel ensures rel in s.listed[i] <==> rel in ViewOf(s.world.store, c.scopes[i])
                 ensures rel in s.listed[i] ==> s.listed[i][rel] == ViewOf(s.world.store, c.scopes[i])[rel] {
        SkippedListHidesNothing(c, states, steps, n, i, rel);
      }
      assert s.listed[i].Keys == ViewOf(s.world.store, c.scopes[i]).Keys;
    }
    assert s.listed == ViewsOf(s.world.store, c.scopes);
  }

  /** As long as no listing found a key in two scopes, the events rebuild the known state and no poll repeats a key. */
  lemma EventsRebuildKnown(c: Config, states: seq<State>, steps: seq<Step>, n: nat)
    requires c.Valid() && Execution(c, states, steps) && n < |states| && states[n].apart
    ensures Apply(map[], Flatten(states[n].log)) == states[n].sub.known.vals
    ensures forall i :: 0 <= i < |states[n].log| ==> NoDup(EventKeys(states[n].log[i]))
  {
    hide Execution, GateInv, WorldInv, ListInv, Apply, EventKeys;
    RunKeepsInv(c, states, steps, n);
  }

  /**
   * From any point of any run where no delete owes a bump and nothing was written unannounced, one
   * undisturbed poll leaves the subscriber knowing the whole bucket.
   */
  lemma NextPollCatchesUp(c: Config, states: seq<State>, steps: seq<Step>, n: nat)
    requires c.Valid() && Execution(c, states, steps) && n < |states|
    requires var s := states[n]; s.phase.Idle? && s.whole && s.late == {} && forall t :: t in c.scopes ==> !Dirty(s, t)
    ensures var s := states[n];
            GatedPoll(s.sub, s.world.store, c.scopes, {}).0.known.vals == Merge(ViewsOf(s.world.store, c.scopes))
  {
    hide Execution, Merge, Record, AllEntries, Etag, ViewsOf, HeadEtags, AnyChanged, Diff;
    var s := states[n];
    HeadsAnswered(s.sub.etags, c.scopes, s.world.store, {});
    ListingsMerge(s.world.store, c.scopes);
    if s.sub.initialized && !AnyChanged(s.sub.etags, c.scopes, s.world.store, {}) {
      QuietMeansKnown(c, states, steps, n);
    }
  }

  /**
   * A poll that nothing disturbs, whichever HEADs fail, ends knowing the store exactly when some answered
   * ETag moved or it knew the store already.
   */
  lemma PollKnowsIff(sub: Sub, store: Store, scopes: seq<Key>, unreachable: set<Key>)
    requires NoDup(scopes) && sub.initialized
    ensures GatedPoll(sub, store, scopes, unreachable).0.known.vals == Merge(ViewsOf(store, scopes))
       <==> (exists t :: t in scopes && t !in unreachable && Remembered(sub.etags, t) != Etag(store, t))
              || sub.known.vals == Merge(ViewsOf(store, scopes))
  {
    hide Merge, Record, AllEntries, Etag, ViewsOf, HeadEtags, AnyChanged, Diff;
    HeadsAnswered(sub.etags, scopes, store, unreachable);
    ListingsMerge(store, scopes);
  }

  // ------------------------------------------------------------ an undisturbed poll

  ghost function PollStep(c: Config, s: State, f: Faults): Step {
    match s.phase
    case Idle => Tick
    case Heading(at, _) => if at < |c.scopes| then Head(c.scopes[at] !in f.unreachable) else Decide
    case Listing(at, token, _) => if at < |c.scopes| then Page((c.scopes[at], token) !in f.pages) else Conclude
  }

  ghost predicate InBounds(c: Config, s: State) {
    !s.phase.Idle? ==> s.phase.at <= |c.scopes|
  }

  ghost function PollOnce(c: Config, s: State, f: Faults): (s': State)
    requires c.Valid() && InBounds(c, s)
    ensures InBounds(c, s')
  {
    Do(c, s, PollStep(c, s, f))
  }

  /** The state after `n` poll steps with no step of anyone else in between. */
  ghost function Advance(c: Config, s: State, f: Faults, n: nat): (s': State)
    requires c.Valid() && InBounds(c, s)
    ensures InBounds(c, s')
    decreases n
  {
    hide Do, PollStep;
    if n == 0 then s else Advance(c, PollOnce(c, s, f), f, n - 1)
  }

  lemma AdvanceMore(c: Config, s: State, f: Faults, m: nat, n: nat)
    requires c.Valid() && InBounds(c, s)
    ensures Advance(c, s, f, m + n) == Advance(c, Advance(c, s, f, m), f, n)
    decreases m
  {
    hide Do, PollStep, PollOnce;
    if m > 0 {
      AdvanceMore(c, PollOnce(c, s, f), f, m - 1, n);
    }
  }

  lemma AdvanceOne(c: Config, s: State, f: Faults)
    requires c.Valid() && InBounds(c, s)
    ensures Advance(c, s, f, 1) == PollOnce(c, s, f)
  {
    hide Do, PollStep, PollOnce;
    assert Advance(c, PollOnce(c, s, f), f, 0) == PollOnce(c, s, f);
  }

  /** The state after `i` HEADs. */
  ghost function AfterHeads(c: Config, s: State, f: Faults, i: nat): State
    requires i <= |c.scopes|
  {
    s.(phase := Heading(i, AnyChanged(s.sub.etags, c.scopes[..i], s.world.store, f.unreachable)),
       sub := s.sub.(etags := HeadEtags(s.sub.etags, c.scopes[..i], s.world.store, f.unreachable)))
  }

  /** The HEAD phase, one manifest at a time, answered or not. */
  lemma {:induction false} HeadsAdvance(c: Config, s: State, f: Faults, i: nat)
    requires c.Valid() && s.phase == Heading(0, false) && i <= |c.scopes|
    ensures Advance(c, s, f, i) == AfterHeads(c, s, f, i)
  {
    hide PollOnce, Advance, AnyChanged, HeadEtags, Do, PollStep, NoDup, Separated;
    if i > 0 {
      HeadsAdvance(c, s, f, i - 1);
      AdvanceMore(c, s, f, i - 1, 1);
      AdvanceOne(c, Advance(c, s, f, i - 1), f);
      HeadOnce(c, s, f, i - 1);
    } else {
      HeadsNone(c, s, f);
    }
  }

  lemma HeadsNone(c: Config, s: State, f: Faults)
    requires c.Valid() && s.phase == Heading(0, false)
    ensures Advance(c, s, f, 0) == s == AfterHeads(c, s, f, 0)
  {
    hide PollOnce, Etag;
    assert c.scopes[..0] == [];
  }

  lemma HeadOnce(c: Config, s: State, f: Faults, i: nat)
    requires c.Valid() && i < |c.scopes|
    ensures PollOnce(c, AfterHeads(c, s, f, i), f) == AfterHeads(c, s, f, i + 1)
  {
    hide Etag;
    assert c.scopes[..i + 1][..i] == c.scopes[..i];
  }

  lemma PageOnce(c: Config, s: State, f: Faults) returns (s1: State)
    requires c.Valid() && s.phase.Listing? && s.phase.at < |c.scopes|
    ensures InBounds(c, s1) && s1 == Advance(c, s, f, 1) && s1 == PollOnce(c, s, f)
    ensures s1.world == s.world && s1.sub == s.sub && s1.log == s.log
    ensures var at, t, store := s.phase.at, c.scopes[s.phase.at], s.world.store;
            var next := NextToken(store, t, s.phase.token, c.maxKeys);
            var page := Entries(store, t, PageKeys(store, t, s.phase.token, c.maxKeys));
            s1.phase == if (t, s.phase.token) in f.pages then Phase.Listing(at + 1, None, s.phase.entries)
                        else Phase.Listing(if next.None? then at + 1 else at, next, s.phase.entries + page)
  {
    hide Entries, PageKeys, NextToken, Answered, NoDup, Separated;
    AdvanceOne(c, s, f);
    s1 := PollOnce(c, s, f);
  }

  /** The pages of the scope being listed, to its end or to one that fails. */
  lemma {:induction false} PagesAdvance(c: Config, s: State, f: Faults) returns (n: nat)
    requires c.Valid() && s.phase.Listing? && s.phase.at < |c.scopes|
    ensures var s' := Advance(c, s, f, n);
            && s'.world == s.world && s'.sub == s.sub && s'.log == s.log
            && s'.phase == Phase.Listing(s.phase.at + 1, None, s.phase.entries
                 + ToRead(s.world.store, c.scopes[s.phase.at], s.phase.token, true, c.maxKeys, f.pages))
    decreases RestSize(s.world.store, c.scopes[s.phase.at], s.phase.token, true)
  {
    hide Entries, PageKeys, NextToken, RestSize, ObjectKeys.Listing, Do, PollOnce, Advance, NoDup, Separated, Read;
    var t, store := c.scopes[s.phase.at], s.world.store;
    var next := NextToken(store, t, s.phase.token, c.maxKeys);
    ReadStep(store, t, s.phase.token, c.maxKeys, f.pages, s.phase.entries);
    var s1 := PageOnce(c, s, f);
    if next.None? || (t, s.phase.token) in f.pages {
      n := 1;
      assert s1.phase.entries + [] == s1.phase.entries;
    } else {
      var m := PagesAdvance(c, s1, f);
      n := 1 + m;
      AdvanceMore(c, s, f, 1, m);
    }
  }

  lemma {:induction false} ListingAdvance(c: Config, s: State, f: Faults, i: nat) returns (n: nat)
    requires c.Valid() && s.phase == Phase.Listing(0, None, []) && i <= |c.scopes|
    ensures var s' := Advance(c, s, f, n);
            && s'.world == s.world && s'.sub == s.sub && s'.log == s.log
            && s'.phase == Phase.Listing(i, None, ReadAll(s.world.store, c.scopes[..i], c.maxKeys, f.pages))
  {
    hide Entries, Do, Read;
    if i == 0 {
      n := 0;
    } else {
      n := ListingAdvance(c, s, f, i - 1);
      var m := PagesAdvance(c, Advance(c, s, f, n), f);
      AdvanceMore(c, s, f, n, m);
      assert c.scopes[..i][..i - 1] == c.scopes[..i - 1];
      n := n + m;
    }
  }

  lemma AllHeads(c: Config, s: State, f: Faults)
    requires c.Valid() && s.phase.Idle?
    ensures Advance(c, s, f, 1 + |c.scopes|) == AfterHeads(c, s, f, |c.scopes|)
    ensures c.scopes[..|c.scopes|] == c.scopes
  {
    hide AnyChanged, HeadEtags, Advance;
    AdvanceOne(c, s, f);
    HeadsAdvance(c, PollOnce(c, s, f), f, |c.scopes|);
    assert c.scopes[..|c.scopes|] == c.scopes;
    AdvanceMore(c, s, f, 1, |c.scopes|);
  }

  /** Run without interference, the protocol's poll is the poll loop's tick, whichever of its requests fail. */
  lemma UndisturbedPoll(c: Config, s: State, f: Faults) returns (n: nat)
    requires c.Valid() && s.phase.Idle?
    ensures var (sub, events) := FaultyPoll(s.sub, s.world.store, c.scopes, c.maxKeys, f);
            var s' := Advance(c, s, f, n);
            s'.phase.Idle? && s'.world == s.world && s'.sub == sub && s'.log == s.log + [events]
  {
    hide AnyChanged, HeadEtags, ReadAll, Advance, Blank, Record, Diff;
    n := 1 + |c.scopes|;
    AllHeads(c, s, f);
    AdvanceMore(c, s, f, n, 1);
    AdvanceOne(c, Advance(c, s, f, n), f);
    n := n + 1;
    if Advance(c, s, f, n).phase.Listing? {
      n := FinishListing(c, s, f, n);
    }
  }

  lemma FinishListing(c: Config, s: State, f: Faults, m: nat) returns (n: nat)
    requires c.Valid() && InBounds(c, s) && Advance(c, s, f, m).phase == Phase.Listing(0, None, [])
    ensures var s1, s' := Advance(c, s, f, m), Advance(c, s, f, n);
            var es := ReadAll(s1.world.store, c.scopes, c.maxKeys, f.pages);
            && s'.phase.Idle? && s'.world == s1.world && s'.sub == Sub(s1.sub.etags, Record(Empty(), es), true)
            && s'.log == s1.log + [Diff(s1.sub.known, es)]
  {
    hide ReadAll, Diff, Record, Advance;
    var k := |c.scopes|;
    var s1 := Advance(c, s, f, m);
    var j := ListingAdvance(c, s1, f, k);
    assert c.scopes[..k] == c.scopes;
    AdvanceMore(c, s, f, m, j);
    AdvanceOne(c, Advance(c, s, f, m + j), f);
    AdvanceMore(c, s, f, m + j, 1);
    n := m + j + 1;
  }

  // ------------------------------------------------------------ what the gate does not cover

  lemma {:induction false} MergeAt(views: seq<View>, i: nat, rel: Key)
    requires i < |views| && rel in views[i] && forall j :: i < j < |views| ==> rel !in views[j]
    ensures rel in Merge(views) && Merge(views)[rel] == views[i][rel]
  {
    if i < |views| - 1 {
      MergeAt(views[..|views| - 1], i, rel);
    }
  }

  /**
   * An upload is announced before it lands. One that lands after the listing its announcement
   * caused is not seen: the next poll, undisturbed, stays silent and keeps the old state.
   */
  lemma UploadAfterListingIsHidden(c: Config, sub: Sub, store: Store, i: nat, rel: Key, obj: Obj)
    requires c.Valid() && i < |c.scopes| && sub.initialized && DataKey(rel)
    requires forall t :: t in c.scopes ==> Remembered(sub.etags, t) == Etag(store, t)
    requires rel !in sub.known.vals || sub.known.vals[rel] != obj.stamp
    requires forall t :: t in c.layout ==> c.scopes[i] + rel != t + MANIFEST_KEY
    requires forall j :: i < j < |c.scopes| ==> rel !in ViewOf(store, c.scopes[j])
    ensures var after := store[c.scopes[i] + rel := obj];
            && GatedPoll(sub, after, c.scopes, {}).1 == []
            && GatedPoll(sub, after, c.scopes, {}).0.known == sub.known
            && sub.known.vals != Merge(ViewsOf(after, c.scopes))
  {
    hide Merge, Record, AllEntries, Diff, DataKey, MANIFEST_KEY, HeadEtags, AnyChanged;
    var after := store[c.scopes[i] + rel := obj];
    assert forall t :: t in c.scopes ==> t in Elements(c.scopes);
    HeadsAnswered(sub.etags, c.scopes, after, {});
    var views := ViewsOf(after, c.scopes);
    assert rel in views[i] && views[i][rel] == obj.stamp;
    forall j | i < j < |views| ensures rel !in views[j] {
      NotSame(c.scopes, i, j, rel);
    }
    MergeAt(views, i, rel);
  }

  lemma NotSame(scopes: seq<Key>, i: nat, j: nat, rel: Key)
    requires NoDup(scopes) && i < j < |scopes|
    ensures scopes[i] + rel != scopes[j] + rel
  {
    if scopes[i] + rel == scopes[j] + rel { CancelRight(scopes[i], scopes[j], rel); }
  }
}
