/** Removing the newest profiles beyond a limit, on a bucket nobody else writes meanwhile. */
module SyncCleanup {
  import opened Common
  import opened ObjectKeys
  import opened SyncScopes
  import opened SyncSubscriber
  import opened SyncWorld
  import opened SyncWriters

  datatype Profile = Profile(id: Key, lastModified: nat)

  const PROFILES: Key := "profiles/"
  const TOMBSTONES: Key := "tombstones/profiles/"

  /** The part of a relative key before its first slash. */
  function Segment(rel: Key): Key
    requires '/' in rel
  {
    if rel[0] == '/' then "" else [rel[0]] + Segment(rel[1..])
  }

  lemma SegmentPrefix(rel: Key)
    requires '/' in rel
    ensures Segment(rel) + "/" <= rel && '/' !in Segment(rel)
  {
    if rel[0] != '/' {
      SegmentPrefix(rel[1..]);
      assert rel == [rel[0]] + rel[1..];
      assert Segment(rel) + "/" == [rel[0]] + (Segment(rel[1..]) + "/");
    }
  }

  /** The ids of the profile directories under a prefix. */
  function ProfileIds(store: Store, profilePrefix: Key): set<Key> {
    set k | k in store && profilePrefix <= k && '/' in k[|profilePrefix|..] :: Segment(k[|profilePrefix|..])
  }

  function ProfileDir(profilePrefix: Key, id: Key): Key {
    profilePrefix + id + "/"
  }

  lemma DirOf(store: Store, profilePrefix: Key, id: Key)
    requires id in ProfileIds(store, profilePrefix)
    ensures '/' !in id && Under(store, ProfileDir(profilePrefix, id)) != {}
  {
    var k :| k in store && profilePrefix <= k && '/' in k[|profilePrefix|..] && Segment(k[|profilePrefix|..]) == id;
    SegmentPrefix(k[|profilePrefix|..]);
    assert k == profilePrefix + k[|profilePrefix|..];
    DirPrefix(profilePrefix, id, k);
    assert k in Under(store, ProfileDir(profilePrefix, id));
  }

  /** A profile is a directory directly below the prefix with something in it. */
  lemma ProfileIdsIff(store: Store, profilePrefix: Key, id: Key)
    ensures id in ProfileIds(store, profilePrefix) <==>
              '/' !in id && exists k :: k in store && ProfileDir(profilePrefix, id) <= k
  {
    if id in ProfileIds(store, profilePrefix) {
      DirOf(store, profilePrefix, id);
      var k :| k in Under(store, ProfileDir(profilePrefix, id));
    }
    if '/' !in id {
      if k :| k in store && ProfileDir(profilePrefix, id) <= k {
        var d := ProfileDir(profilePrefix, id);
        var rest := k[|d|..];
        assert k == d + rest && k[|profilePrefix|..] == id + "/" + rest && profilePrefix <= k;
        SegmentIs(id, rest);
      }
    }
  }

  lemma {:induction false} SegmentIs(id: Key, rest: Key)
    requires '/' !in id
    ensures '/' in id + "/" + rest && Segment(id + "/" + rest) == id
  {
    var rel := id + "/" + rest;
    assert rel[|id|] == '/';
    if id != "" {
      assert rel[0] == id[0] && rel[1..] == id[1..] + "/" + rest;
      SegmentIs(id[1..], rest);
    }
  }

  lemma DirPrefix(profilePrefix: Key, id: Key, k: Key)
    requires profilePrefix <= k && id + "/" <= k[|profilePrefix|..]
    ensures ProfileDir(profilePrefix, id) <= k
  {
    var rest := k[|profilePrefix|..];
    assert k == profilePrefix + rest && rest == id + "/" + rest[|id| + 1..];
    assert k == ProfileDir(profilePrefix, id) + rest[|id| + 1..];
  }

  /** LastModified of the first object a listing of the directory returns. */
  function Recorded(store: Store, profilePrefix: Key, id: Key): nat {
    var first := PageKeys(store, ProfileDir(profilePrefix, id), None, 1);
    if first == [] then 0 else Stamp(store, first[0])
  }

  /** A profile counts as old as the least key of its own directory. */
  lemma RecordedIsLeast(store: Store, profilePrefix: Key, id: Key) returns (least: Key)
    requires id in ProfileIds(store, profilePrefix)
    ensures least in store && ProfileDir(profilePrefix, id) <= least
    ensures forall k :: k in store && ProfileDir(profilePrefix, id) <= k ==> k == least || Lt(least, k)
    ensures Recorded(store, profilePrefix, id) == store[least].stamp
  {
    hide Le, Lt, ProfileIds, ProfileDir, SortedKeys, Remaining;
    DirOf(store, profilePrefix, id);
    var all := Listing(store, ProfileDir(profilePrefix, id), None);
    var k :| k in Under(store, ProfileDir(profilePrefix, id));
    assert k in all;
    least := all[0];
    assert PageKeys(store, ProfileDir(profilePrefix, id), None, 1) == [least];
    forall k | k in store && ProfileDir(profilePrefix, id) <= k ensures k == least || Lt(least, k) {
      assert k in all;
      var i :| 0 <= i < |all| && all[i] == k;
    }
  }

  // ------------------------------------------------------------ newest first

  /** The later stamp goes first, among equal ones the directory listed first. */
  ghost predicate Newer(profilePrefix: Key, p: Profile, q: Profile) {
    || p.lastModified > q.lastModified
    || (p.lastModified == q.lastModified && Lt(ProfileDir(profilePrefix, p.id), ProfileDir(profilePrefix, q.id)))
  }

  ghost predicate NewestFirst(profilePrefix: Key, ps: seq<Profile>) {
    forall i, j :: 0 <= i < j < |ps| ==> Newer(profilePrefix, ps[i], ps[j])
  }

  ghost predicate InListingOrder(profilePrefix: Key, ps: seq<Profile>) {
    forall i, j :: 0 <= i < j < |ps| ==> Lt(ProfileDir(profilePrefix, ps[i].id), ProfileDir(profilePrefix, ps[j].id))
  }

  function Insert(p: Profile, ps: seq<Profile>): (r: seq<Profile>)
    ensures multiset(r) == multiset(ps) + multiset{p} && |r| == |ps| + 1
  {
    if ps == [] || p.lastModified > ps[0].lastModified then
      [p] + ps
    else
      assert ps == [ps[0]] + ps[1..];
      [ps[0]] + Insert(p, ps[1..])
  }

  lemma {:induction false} InsertNewest(profilePrefix: Key, p: Profile, ps: seq<Profile>)
    requires NewestFirst(profilePrefix, ps)
    requires forall q :: q in ps ==> Lt(ProfileDir(profilePrefix, q.id), ProfileDir(profilePrefix, p.id))
    ensures NewestFirst(profilePrefix, Insert(p, ps))
  {
    hide Newer, Lt, ProfileDir;
    if ps == [] {
    } else if p.lastModified > ps[0].lastModified {
      forall q | q in ps ensures Newer(profilePrefix, p, q) { StampAhead(profilePrefix, p, ps, q); }
    } else {
      var rest := Insert(p, ps[1..]);
      InsertNewest(profilePrefix, p, ps[1..]);
      forall q | q in rest ensures Newer(profilePrefix, ps[0], q) { InsertedBehind(profilePrefix, p, ps, q); }
      assert Insert(p, ps) == [ps[0]] + rest;
    }
  }

  lemma StampAhead(profilePrefix: Key, p: Profile, ps: seq<Profile>, q: Profile)
    requires NewestFirst(profilePrefix, ps) && ps != [] && p.lastModified > ps[0].lastModified && q in ps
    ensures Newer(profilePrefix, p, q)
  {
    hide Lt, ProfileDir;
    var i :| 0 <= i < |ps| && ps[i] == q;
    assert i > 0 ==> Newer(profilePrefix, ps[0], ps[i]);
  }

  lemma InsertedBehind(profilePrefix: Key, p: Profile, ps: seq<Profile>, q: Profile)
    requires NewestFirst(profilePrefix, ps) && ps != [] && p.lastModified <= ps[0].lastModified
    requires Lt(ProfileDir(profilePrefix, ps[0].id), ProfileDir(profilePrefix, p.id))
    requires q in Insert(p, ps[1..])
    ensures Newer(profilePrefix, ps[0], q)
  {
    hide Lt, ProfileDir;
    assert q in multiset(Insert(p, ps[1..]));
    assert q == p || q in multiset(ps[1..]);
    if q != p {
      var i :| 0 <= i < |ps[1..]| && ps[1..][i] == q;
      assert Newer(profilePrefix, ps[0], ps[i + 1]);
    }
  }

  /** The stable sort by descending LastModified. */
  function SortNewest(ps: seq<Profile>): (r: seq<Profile>)
    ensures multiset(r) == multiset(ps) && |r| == |ps|
  {
    if ps == [] then [] else
      assert ps == ps[..|ps| - 1] + [ps[|ps| - 1]];
      Insert(ps[|ps| - 1], SortNewest(ps[..|ps| - 1]))
  }

  lemma {:induction false} SortedNewest(profilePrefix: Key, ps: seq<Profile>)
    requires InListingOrder(profilePrefix, ps)
    ensures NewestFirst(profilePrefix, SortNewest(ps))
  {
    hide Newer, NewestFirst, Lt, ProfileDir, Insert, InListingOrder;
    if ps == [] {
      NothingSorted(profilePrefix);
    } else {
      var front, last := ps[..|ps| - 1], ps[|ps| - 1];
      FrontInOrder(profilePrefix, ps);
      SortedNewest(profilePrefix, front);
      forall q | q in SortNewest(front)
        ensures Lt(ProfileDir(profilePrefix, q.id), ProfileDir(profilePrefix, last.id)) {
        SameElements(front, SortNewest(front));
      }
      InsertNewest(profilePrefix, last, SortNewest(front));
    }
  }

  lemma NothingSorted(profilePrefix: Key)
    ensures NewestFirst(profilePrefix, [])
  {
  }

  lemma FrontInOrder(profilePrefix: Key, ps: seq<Profile>)
    requires InListingOrder(profilePrefix, ps) && ps != []
    ensures InListingOrder(profilePrefix, ps[..|ps| - 1])
    ensures forall q :: q in ps[..|ps| - 1] ==>
              Lt(ProfileDir(profilePrefix, q.id), ProfileDir(profilePrefix, ps[|ps| - 1].id))
  {
    hide Lt, ProfileDir;
  }

  // ------------------------------------------------------------ the clean-up

  /** A listing with delimiter `/` returns the profile directories themselves. */
  function CommonPrefixes(store: Store, profilePrefix: Key): Store {
    map d | d in Dirs(store, profilePrefix) :: Obj(0, 0)
  }

  function Dirs(store: Store, profilePrefix: Key): set<Key> {
    set id | id in ProfileIds(store, profilePrefix) :: ProfileDir(profilePrefix, id)
  }

  function DirId(profilePrefix: Key, dir: Key): Key {
    if profilePrefix <= dir && |profilePrefix| < |dir| then dir[|profilePrefix|..|dir| - 1] else dir
  }

  lemma DirIdOf(profilePrefix: Key, id: Key)
    ensures DirId(profilePrefix, ProfileDir(profilePrefix, id)) == id
  {
    var d := ProfileDir(profilePrefix, id);
    assert d[|profilePrefix|..|d| - 1] == id;
    assert d[..|profilePrefix|] == profilePrefix;
  }

  /** The bucket once the given profiles are removed and their tombstones written. */
  function Removed(store: Store, userPrefix: Key, ids: seq<Key>, at: nat): Store {
    if ids == [] then store else
      var before := Removed(store, userPrefix, ids[..|ids| - 1], at);
      var id := ids[|ids| - 1];
      (before - Under(before, ProfileDir(userPrefix + PROFILES, id)))[userPrefix + TOMBSTONES + id := Obj(at, 0)]
  }

  ghost predicate InSomeDir(userPrefix: Key, ids: seq<Key>, k: Key) {
    exists i :: 0 <= i < |ids| && ProfileDir(userPrefix + PROFILES, ids[i]) <= k
  }

  ghost predicate IsTombstone(userPrefix: Key, ids: seq<Key>, k: Key) {
    exists i :: 0 <= i < |ids| && k == userPrefix + TOMBSTONES + ids[i]
  }

  lemma TombstoneNotInDir(userPrefix: Key, id: Key, other: Key)
    ensures !(ProfileDir(userPrefix + PROFILES, id) <= userPrefix + TOMBSTONES + other)
  {
    var d, t := ProfileDir(userPrefix + PROFILES, id), userPrefix + TOMBSTONES + other;
    var n := |userPrefix|;
    assert d[n] == 'p' && t[n] == 't';
  }

  lemma InSomeDirStep(userPrefix: Key, ids: seq<Key>, k: Key)
    requires ids != []
    ensures InSomeDir(userPrefix, ids, k)
       <==> InSomeDir(userPrefix, ids[..|ids| - 1], k) || ProfileDir(userPrefix + PROFILES, ids[|ids| - 1]) <= k
    ensures IsTombstone(userPrefix, ids, k)
       <==> IsTombstone(userPrefix, ids[..|ids| - 1], k) || k == userPrefix + TOMBSTONES + ids[|ids| - 1]
  {
    hide ProfileDir, PROFILES, TOMBSTONES;
    var front := ids[..|ids| - 1];
    forall i | 0 <= i < |front| ensures front[i] == ids[i] { }
  }

  /** Exactly the objects of the removed directories go, exactly one tombstone each comes, the rest stays. */
  lemma {:induction false} RemovedExactly(store: Store, userPrefix: Key, ids: seq<Key>, at: nat, k: Key)
    ensures var r := Removed(store, userPrefix, ids, at);
            && (IsTombstone(userPrefix, ids, k) ==> k in r && r[k] == Obj(at, 0))
            && (!IsTombstone(userPrefix, ids, k) ==>
                  && (k in r <==> k in store && !InSomeDir(userPrefix, ids, k))
                  && (k in r ==> r[k] == store[k]))
  {
    hide PROFILES, TOMBSTONES, ProfileDir;
    if ids != [] {
      RemovedExactly(store, userPrefix, ids[..|ids| - 1], at, k);
      InSomeDirStep(userPrefix, ids, k);
      if IsTombstone(userPrefix, ids[..|ids| - 1], k) {
        var i :| 0 <= i < |ids| - 1 && k == userPrefix + TOMBSTONES + ids[i];
        TombstoneNotInDir(userPrefix, ids[|ids| - 1], ids[i]);
      }
    }
  }

  /** What a listing of the bucket says about its profiles, in listing order. */
  ghost predicate Describes(ps: seq<Profile>, store: Store, profilePrefix: Key) {
    && IdsDiffer(ps)
    && (forall i :: 0 <= i < |ps| ==>
          && ps[i].id in ProfileIds(store, profilePrefix)
          && ps[i].lastModified == Recorded(store, profilePrefix, ps[i].id))
    && (forall id :: id in ProfileIds(store, profilePrefix) ==> exists i :: 0 <= i < |ps| && ps[i].id == id)
  }

  function Ids(ps: seq<Profile>): seq<Key> {
    if ps == [] then [] else Ids(ps[..|ps| - 1]) + [ps[|ps| - 1].id]
  }

  lemma IdsAt(ps: seq<Profile>)
    ensures |Ids(ps)| == |ps| && forall i :: 0 <= i < |ps| ==> Ids(ps)[i] == ps[i].id
  {
  }

  function Min(a: int, b: int): int {
    if a <= b then a else b
  }

  ghost predicate NewerId(store: Store, profilePrefix: Key, a: Key, b: Key) {
    Newer(profilePrefix, Profile(a, Recorded(store, profilePrefix, a)), Profile(b, Recorded(store, profilePrefix, b)))
  }

  /** The ids chosen for removal: the newest ones beyond the limit, newest first. */
  ghost predicate NewestExcess(ids: seq<Key>, store: Store, profilePrefix: Key, maxProfiles: int) {
    var all := ProfileIds(store, profilePrefix);
    && NoDup(ids) && Elements(ids) <= all
    && |ids| == (if |all| <= maxProfiles then 0 else Min(|all|, |all| - maxProfiles))
    && (forall i, j :: 0 <= i < j < |ids| ==> NewerId(store, profilePrefix, ids[i], ids[j]))
    && forall gone, kept :: gone in ids && kept in all && kept !in ids ==> NewerId(store, profilePrefix, gone, kept)
  }

  /** The profiles of listed directories, one for each. */
  ghost predicate ReadFrom(ps: seq<Profile>, dirs: seq<Key>, store: Store, profilePrefix: Key) {
    && |ps| == |dirs|
    && forall i :: 0 <= i < |ps| ==> ps[i] == ProfileAt(store, profilePrefix, dirs[i])
  }

  function ProfileAt(store: Store, profilePrefix: Key, dir: Key): Profile {
    var id := DirId(profilePrefix, dir);
    Profile(id, Recorded(store, profilePrefix, id))
  }

  lemma DirListed(store: Store, profilePrefix: Key, d: Key)
    requires d in Dirs(store, profilePrefix)
    ensures DirId(profilePrefix, d) in ProfileIds(store, profilePrefix)
              && d == ProfileDir(profilePrefix, DirId(profilePrefix, d))
  {
    hide ProfileIds, ProfileDir, DirId;
    var id :| id in ProfileIds(store, profilePrefix) && d == ProfileDir(profilePrefix, id);
    DirIdOf(profilePrefix, id);
  }

  /** The full listing of the directories, as a sequence without repetition of exactly the profile directories. */
  lemma DirsListed(store: Store, profilePrefix: Key)
    ensures var dirs := Listing(CommonPrefixes(store, profilePrefix), profilePrefix, None);
            NoDup(dirs) && forall d :: d in dirs <==> d in Dirs(store, profilePrefix)
  {
    hide ProfileIds, ProfileDir, Le;
    forall d | d in Dirs(store, profilePrefix) ensures profilePrefix <= d {
      var id :| id in ProfileIds(store, profilePrefix) && d == ProfileDir(profilePrefix, id);
      DirHasPrefix(profilePrefix, id);
    }
  }

  lemma ReadAllDescribes(ps: seq<Profile>, store: Store, profilePrefix: Key)
    requires ReadFrom(ps, Listing(CommonPrefixes(store, profilePrefix), profilePrefix, None), store, profilePrefix)
    ensures Describes(ps, store, profilePrefix) && InListingOrder(profilePrefix, ps)
  {
    hide Recorded, ProfileIds, ProfileDir, DirId, ObjectKeys.Listing, Dirs, Lt;
    var dirs := Listing(CommonPrefixes(store, profilePrefix), profilePrefix, None);
    DirsListed(store, profilePrefix);
    forall i | 0 <= i < |dirs|
      ensures ps[i].id in ProfileIds(store, profilePrefix) && dirs[i] == ProfileDir(profilePrefix, ps[i].id)
    {
      DirListed(store, profilePrefix, dirs[i]);
    }
    forall id | id in ProfileIds(store, profilePrefix) ensures exists i :: 0 <= i < |ps| && ps[i].id == id {
      DirInDirs(store, profilePrefix, id);
      var i :| 0 <= i < |dirs| && dirs[i] == ProfileDir(profilePrefix, id);
      DirIdOf(profilePrefix, id);
      assert ps[i].id == id;
    }
  }

  lemma DirInDirs(store: Store, profilePrefix: Key, id: Key)
    requires id in ProfileIds(store, profilePrefix)
    ensures ProfileDir(profilePrefix, id) in Dirs(store, profilePrefix)
  {
  }

  lemma DirHasPrefix(profilePrefix: Key, id: Key)
    ensures profilePrefix <= ProfileDir(profilePrefix, id)
  {
    assert ProfileDir(profilePrefix, id)[..|profilePrefix|] == profilePrefix;
  }

  /** Reads the profile behind each directory of one page. */
  method ReadPage(service: SyncService, profilePrefix: Key, page: seq<Key>, profiles: seq<Profile>,
        ghost dirs: seq<Key>)
      returns (profiles': seq<Profile>)
    requires ReadFrom(profiles, dirs, service.objects, profilePrefix)
    ensures ReadFrom(profiles', dirs + page, service.objects, profilePrefix)
  {
    hide ProfileAt;
    profiles' := profiles;
    var i := 0;
    assert dirs + [] == dirs;
    while i < |page|
      invariant 0 <= i <= |page|
      invariant ReadFrom(profiles', dirs + page[..i], service.objects, profilePrefix)
    {
      profiles' := profiles' + [ProfileAt(service.objects, profilePrefix, page[i])];
      assert dirs + page[..i + 1] == dirs + page[..i] + [page[i]];
      i := i + 1;
    }
    assert page[..i] == page;
  }

  lemma NothingRead(store: Store, profilePrefix: Key)
    ensures ReadFrom([], [], store, profilePrefix)
  {
  }

  method ListProfiles(service: SyncService, profilePrefix: Key, maxKeys: nat) returns (profiles: seq<Profile>)
    requires 1 <= maxKeys
    ensures Describes(profiles, service.objects, profilePrefix) && InListingOrder(profilePrefix, profiles)
  {
    hide ObjectKeys.Listing, InListingOrder, PageKeys, NextToken, CommonPrefixes, Describes, ReadFrom;
    assert ReadFrom([], [], service.objects, profilePrefix) by { NothingRead(service.objects, profilePrefix); }
    var common := CommonPrefixes(service.objects, profilePrefix);
    profiles := [];
    var token: Token := None;
    var more := true;
    ghost var dirs: seq<Key> := [];
    ghost var rest := Listing(common, profilePrefix, None);
    while more
      invariant ReadFrom(profiles, dirs, service.objects, profilePrefix)
      invariant rest == if more then Listing(common, profilePrefix, token) else []
      invariant dirs + rest == Listing(common, profilePrefix, None)
      decreases |rest|, more
    {
      var page := PageKeys(common, profilePrefix, token, maxKeys);
      var next := NextToken(common, profilePrefix, token, maxKeys);
      ListingSplits(common, profilePrefix, token, maxKeys);
      PageNotEmpty(common, profilePrefix, token, maxKeys);
      profiles := ReadPage(service, profilePrefix, page, profiles, dirs);
      assert dirs + (page + if next.None? then [] else Listing(common, profilePrefix, next))
               == dirs + page + if next.None? then [] else Listing(common, profilePrefix, next);
      rest := if next.None? then [] else Listing(common, profilePrefix, next);
      dirs := dirs + page;
      token := next;
      more := next.Some?;
    }
    assert dirs + [] == dirs;
    ReadAllDescribes(profiles, service.objects, profilePrefix);
  }

  /** Sorting and cutting a full description picks the newest excess. */
  lemma CutIsNewestExcess(ps: seq<Profile>, store: Store, profilePrefix: Key, maxProfiles: int, cut: seq<Profile>)
    requires Describes(ps, store, profilePrefix) && InListingOrder(profilePrefix, ps) && |ps| > maxProfiles
    requires cut == SortNewest(ps)[..Min(|ps|, |ps| - maxProfiles)]
    ensures NewestExcess(Ids(cut), store, profilePrefix, maxProfiles)
  {
    hide Recorded, ProfileIds, SortNewest, Describes, NewestFirst, NewestExcess, InListingOrder;
    SortedNewest(profilePrefix, ps);
    SortDescribes(ps, SortNewest(ps), store, profilePrefix);
    DescribedCount(SortNewest(ps), store, profilePrefix);
    CutExcess(SortNewest(ps), store, profilePrefix, maxProfiles, cut);
  }

  lemma CutExcess(sorted: seq<Profile>, store: Store, profilePrefix: Key, maxProfiles: int, cut: seq<Profile>)
    requires Describes(sorted, store, profilePrefix) && NewestFirst(profilePrefix, sorted)
    requires |sorted| == |ProfileIds(store, profilePrefix)| > maxProfiles
    requires cut == sorted[..Min(|sorted|, |sorted| - maxProfiles)]
    ensures NewestExcess(Ids(cut), store, profilePrefix, maxProfiles)
  {
    hide Recorded, ProfileIds, Ids, Newer;
    IdsAt(cut);
    var ids := Ids(cut);
    assert forall m :: 0 <= m < |cut| ==> ids[m] == sorted[m].id && ids[m] in ids;
    forall i, j | 0 <= i < j < |sorted| ensures NewerId(store, profilePrefix, sorted[i].id, sorted[j].id) {
      assert Newer(profilePrefix, sorted[i], sorted[j]);
      AsRead(sorted, store, profilePrefix, i);
      AsRead(sorted, store, profilePrefix, j);
    }
    forall gone, kept | gone in ids && kept in ProfileIds(store, profilePrefix) && kept !in ids
      ensures NewerId(store, profilePrefix, gone, kept)
    {
      var i :| 0 <= i < |cut| && ids[i] == gone;
      var j :| 0 <= j < |sorted| && sorted[j].id == kept;
    }
  }

  lemma AsRead(ps: seq<Profile>, store: Store, profilePrefix: Key, i: nat)
    requires Describes(ps, store, profilePrefix) && i < |ps|
    ensures ps[i] == Profile(ps[i].id, Recorded(store, profilePrefix, ps[i].id))
  {
    hide Recorded, ProfileIds;
  }

  lemma SortDescribes(ps: seq<Profile>, sorted: seq<Profile>, store: Store, profilePrefix: Key)
    requires Describes(ps, store, profilePrefix) && multiset(sorted) == multiset(ps)
    ensures Describes(sorted, store, profilePrefix)
  {
    hide Recorded, ProfileIds;
    SameElements(ps, sorted);
    SortedOnce(ps, sorted);
    forall i | 0 <= i < |sorted| ensures sorted[i] in ps { assert sorted[i] in sorted; }
    forall id | id in ProfileIds(store, profilePrefix) ensures exists i :: 0 <= i < |sorted| && sorted[i].id == id {
      var a :| 0 <= a < |ps| && ps[a].id == id;
      assert ps[a] in sorted;
      var i :| 0 <= i < |sorted| && sorted[i] == ps[a];
    }
  }

  lemma SameElements(ps: seq<Profile>, sorted: seq<Profile>)
    requires multiset(sorted) == multiset(ps)
    ensures forall p :: p in sorted <==> p in ps
  {
    forall p ensures p in sorted <==> p in ps { assert p in multiset(sorted) <==> p in multiset(ps); }
  }

  ghost predicate IdsDiffer(ps: seq<Profile>) {
    forall i, j :: 0 <= i < j < |ps| ==> ps[i].id != ps[j].id
  }

  lemma SortedOnce(ps: seq<Profile>, sorted: seq<Profile>)
    requires multiset(sorted) == multiset(ps) && IdsDiffer(ps)
    ensures IdsDiffer(sorted)
  {
    SameElements(ps, sorted);
    forall i, j | 0 <= i < j < |sorted| ensures sorted[i].id != sorted[j].id {
      if sorted[i].id == sorted[j].id {
        assert sorted[i] in sorted && sorted[j] in sorted;
        var a :| 0 <= a < |ps| && ps[a] == sorted[i];
        var b :| 0 <= b < |ps| && ps[b] == sorted[j];
        TwiceInMultiset(sorted, i, j);
        OnceInMultiset(ps, a);
      }
    }
  }

  lemma TwiceInMultiset<T>(s: seq<T>, i: nat, j: nat)
    requires i < j < |s| && s[i] == s[j]
    ensures multiset(s)[s[i]] >= 2
  {
    assert s == s[..j] + [s[j]] + s[j + 1..];
    assert s[..j][i] == s[i];
  }

  lemma OnceInMultiset(ps: seq<Profile>, a: nat)
    requires a < |ps| && IdsDiffer(ps)
    ensures multiset(ps)[ps[a]] == 1
  {
    assert ps == ps[..a] + [ps[a]] + ps[a + 1..];
    assert ps[a] !in ps[..a] && ps[a] !in ps[a + 1..];
  }

  lemma DescribedCount(ps: seq<Profile>, store: Store, profilePrefix: Key)
    requires Describes(ps, store, profilePrefix)
    ensures |ps| == |ProfileIds(store, profilePrefix)|
  {
    hide Recorded, ProfileIds;
    IdsAt(ps);
    assert NoDup(Ids(ps));
    NoDupCard(Ids(ps));
    forall id ensures id in Elements(Ids(ps)) <==> id in ProfileIds(store, profilePrefix) {
      if id in Ids(ps) { var i :| 0 <= i < |ps| && Ids(ps)[i] == id; }
      if id in ProfileIds(store, profilePrefix) {
        var i :| 0 <= i < |ps| && ps[i].id == id;
        assert Ids(ps)[i] == id;
      }
    }
    assert Elements(Ids(ps)) == ProfileIds(store, profilePrefix);
  }

  /** Empties each directory and leaves a tombstone for it. */
  method RemoveProfiles(service: SyncService, userPrefix: Key, toDelete: seq<Profile>, at: nat)
    returns (deletedProfiles: seq<Key>)
    modifies service
    ensures deletedProfiles == Ids(toDelete)
    ensures service.objects == Removed(old(service.objects), userPrefix, deletedProfiles, at)
    ensures service.nextEtag == old(service.nextEtag)
  {
    hide PROFILES, TOMBSTONES, Under, ProfileDir;
    deletedProfiles := [];
    var i := 0;
    while i < |toDelete|
      invariant 0 <= i <= |toDelete|
      invariant deletedProfiles == Ids(toDelete[..i])
      invariant service.objects == Removed(old(service.objects), userPrefix, deletedProfiles, at)
      invariant service.nextEtag == old(service.nextEtag)
    {
      var id := toDelete[i].id;
      var count, threw := service.DeleteAllUnder(ProfileDir(userPrefix + PROFILES, id), MAX_KEYS, None);
      service.objects := service.objects[userPrefix + TOMBSTONES + id := Obj(at, 0)];
      assert toDelete[..i + 1][..i] == toDelete[..i];
      assert (deletedProfiles + [id])[..|deletedProfiles|] == deletedProfiles;
      deletedProfiles := deletedProfiles + [id];
      i := i + 1;
    }
    assert toDelete[..i] == toDelete;
  }

  method CleanupExcessProfiles(service: SyncService, userPrefix: Key, maxProfiles: int, at: nat)
    returns (deletedProfiles: seq<Key>, remaining: nat)
    modifies service
    ensures NewestExcess(deletedProfiles, old(service.objects), userPrefix + PROFILES, maxProfiles)
    ensures service.objects == Removed(old(service.objects), userPrefix, deletedProfiles, at)
    ensures remaining == |ProfileIds(old(service.objects), userPrefix + PROFILES)| - |deletedProfiles|
    ensures service.nextEtag == old(service.nextEtag)
  {
    hide PROFILES, TOMBSTONES, SortNewest, Describes, NewestExcess, ProfileIds;
    var profilePrefix := userPrefix + PROFILES;
    var profiles := ListProfiles(service, profilePrefix, MAX_KEYS);
    DescribedCount(profiles, service.objects, profilePrefix);
    if |profiles| <= maxProfiles {
      NothingToRemove(service.objects, profilePrefix, maxProfiles);
      return [], |profiles|;
    }
    var toDelete := SortNewest(profiles)[..Min(|profiles|, |profiles| - maxProfiles)];
    CutIsNewestExcess(profiles, service.objects, profilePrefix, maxProfiles, toDelete);
    IdsAt(toDelete);
    deletedProfiles := RemoveProfiles(service, userPrefix, toDelete, at);
    remaining := |profiles| - |deletedProfiles|;
  }

  lemma NothingToRemove(store: Store, profilePrefix: Key, maxProfiles: int)
    requires |ProfileIds(store, profilePrefix)| <= maxProfiles
    ensures NewestExcess([], store, profilePrefix, maxProfiles)
  {
  }

  lemma ManifestUntouched(store: Store, userPrefix: Key, ids: seq<Key>, at: nat)
    ensures Etag(Removed(store, userPrefix, ids, at), userPrefix) == Etag(store, userPrefix)
  {
    var m := userPrefix + MANIFEST_KEY;
    var n := |userPrefix|;
    RemovedExactly(store, userPrefix, ids, at, m);
    assert m[n] == '.';
    forall i | 0 <= i < |ids|
      ensures !(ProfileDir(userPrefix + PROFILES, ids[i]) <= m) && m != userPrefix + TOMBSTONES + ids[i] {
      assert ProfileDir(userPrefix + PROFILES, ids[i])[n] == 'p' && (userPrefix + TOMBSTONES + ids[i])[n] == 't';
    }
  }

  /** A clean-up bumps no manifest: what it does is announced exactly when it removes nothing. */
  lemma CleanupIsUnannounced(w: World, layout: set<Key>, userPrefix: Key, ids: seq<Key>, at: nat)
    requires userPrefix in layout && Elements(ids) <= ProfileIds(w.store, userPrefix + PROFILES)
    ensures Announced(w, w.(store := Removed(w.store, userPrefix, ids, at)), layout) <==> ids == []
  {
    hide PROFILES, TOMBSTONES, MANIFEST_KEY, ProfileIds, Removed, Etag, ProfileDir, Announced;
    if ids == [] {
      NothingAnnounced(w, layout, userPrefix, at);
    } else {
      RemovalUnannounced(w, layout, userPrefix, ids, at);
    }
  }

  lemma NothingAnnounced(w: World, layout: set<Key>, userPrefix: Key, at: nat)
    ensures Announced(w, w.(store := Removed(w.store, userPrefix, [], at)), layout)
  {
    hide Etag;
  }

  lemma RemovalUnannounced(w: World, layout: set<Key>, userPrefix: Key, ids: seq<Key>, at: nat)
    requires userPrefix in layout && ids != [] && Elements(ids) <= ProfileIds(w.store, userPrefix + PROFILES)
    ensures !Announced(w, w.(store := Removed(w.store, userPrefix, ids, at)), layout)
  {
    hide PROFILES, TOMBSTONES, MANIFEST_KEY, ProfileIds, Removed, Etag, ProfileDir;
    ManifestUntouched(w.store, userPrefix, ids, at);
    var after := Removed(w.store, userPrefix, ids, at);
    var d := ProfileDir(userPrefix + PROFILES, ids[0]);
    assert ids[0] in Elements(ids);
    DirOf(w.store, userPrefix + PROFILES, ids[0]);
    var k :| k in Under(w.store, d);
    RemovedExactly(w.store, userPrefix, ids, at, k);
    if IsTombstone(userPrefix, ids, k) {
      var i :| 0 <= i < |ids| && k == userPrefix + TOMBSTONES + ids[i];
      TombstoneNotInDir(userPrefix, ids[0], ids[i]);
    }
    assert k in w.store && k !in after;
    DirStartsAt(userPrefix, ids[0], k);
    assert !SameUnder(w.store, after, userPrefix);
  }

  /** The clean-up of a user is announced exactly when the user has no profile too many. */
  lemma CleanupAnnouncedIff(w: World, layout: set<Key>, userPrefix: Key, maxProfiles: int, ids: seq<Key>, at: nat)
    requires userPrefix in layout && NewestExcess(ids, w.store, userPrefix + PROFILES, maxProfiles)
    ensures var n := |ProfileIds(w.store, userPrefix + PROFILES)|;
            Announced(w, w.(store := Removed(w.store, userPrefix, ids, at)), layout) <==> n <= maxProfiles || n == 0
  {
    hide PROFILES, TOMBSTONES, MANIFEST_KEY, ProfileIds, Removed, Announced, Recorded;
    CleanupIsUnannounced(w, layout, userPrefix, ids, at);
  }

  lemma DirStartsAt(userPrefix: Key, id: Key, k: Key)
    requires ProfileDir(userPrefix + PROFILES, id) <= k
    ensures userPrefix <= k
  {
    assert ProfileDir(userPrefix + PROFILES, id)[..|userPrefix|] == userPrefix;
    assert k[..|ProfileDir(userPrefix + PROFILES, id)|][..|userPrefix|] == userPrefix;
  }
}
