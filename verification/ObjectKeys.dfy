/** Object keys of an S3-like store, their listing order and paged listing. */
module ObjectKeys {
  import opened Common

  type Key = string

  /** An object as far as the service reads it: its LastModified stamp and its ETag. */
  datatype Obj = Obj(stamp: nat, etag: nat)

  type Store = map<Key, Obj>

  /** Lexicographic order on keys, the order in which a LIST returns them. */
  predicate Le(a: Key, b: Key) {
    a == "" || (b != "" && (a[0] < b[0] || (a[0] == b[0] && Le(a[1..], b[1..]))))
  }

  predicate Lt(a: Key, b: Key) {
    Le(a, b) && a != b
  }

  /** The keys agree before `i` and differ there. */
  predicate DifferAt(a: Key, b: Key, i: nat) {
    i < |a| && i < |b| && a[..i] == b[..i] && a[i] != b[i]
  }

  /** A key comes before its extensions, and else the first different character decides. */
  lemma {:induction false} LeIff(a: Key, b: Key)
    ensures Le(a, b) <==> a <= b || exists i: nat :: DifferAt(a, b, i) && a[i] < b[i]
  {
    if a != "" && b != "" {
      if a[0] == b[0] {
        LeIff(a[1..], b[1..]);
        PrefixStep(a, b);
        DifferLater(a, b);
      } else {
        assert DifferAt(a, b, 0);
        DifferOnce(a, b);
      }
    }
  }

  lemma PrefixStep(a: Key, b: Key)
    requires a != "" && b != "" && a[0] == b[0]
    ensures a[1..] <= b[1..] <==> a <= b
  {
    if a[1..] <= b[1..] {
      assert b == [b[0]] + b[1..];
      assert a == [a[0]] + a[1..];
    }
  }

  lemma DifferLater(a: Key, b: Key)
    requires a != "" && b != "" && a[0] == b[0]
    ensures (exists i: nat :: DifferAt(a[1..], b[1..], i) && a[1..][i] < b[1..][i])
       <==> exists i: nat :: DifferAt(a, b, i) && a[i] < b[i]
  {
    var x, y := a[1..], b[1..];
    if i: nat :| DifferAt(x, y, i) && x[i] < y[i] {
      assert a[..i + 1] == [a[0]] + x[..i] && b[..i + 1] == [b[0]] + y[..i];
      assert DifferAt(a, b, i + 1);
    }
    if i: nat :| DifferAt(a, b, i) && a[i] < b[i] {
      assert i > 0 && x[..i - 1] == a[..i][1..] && y[..i - 1] == b[..i][1..];
      assert DifferAt(x, y, i - 1);
    }
  }

  lemma DifferOnce(a: Key, b: Key)
    requires a != "" && b != "" && a[0] != b[0]
    ensures forall i: nat :: DifferAt(a, b, i) ==> i == 0
  {
    forall i: nat | 0 < i < |a| && i < |b| ensures a[..i] != b[..i] {
      assert a[..i][0] == a[0] && b[..i][0] == b[0];
    }
  }

  lemma LeTotal(a: Key, b: Key)
    ensures Le(a, b) || Le(b, a)
  {
    if a != "" && b != "" { LeTotal(a[1..], b[1..]); }
  }

  lemma LeAntisym(a: Key, b: Key)
    requires Le(a, b) && Le(b, a)
    ensures a == b
  {
    if a != "" && b != "" {
      LeAntisym(a[1..], b[1..]);
      assert a == [a[0]] + a[1..] && b == [b[0]] + b[1..];
    }
  }

  lemma LeTrans(a: Key, b: Key, c: Key)
    requires Le(a, b) && Le(b, c)
    ensures Le(a, c)
  {
    if a != "" && a[0] == b[0] == c[0] { LeTrans(a[1..], b[1..], c[1..]); }
  }

  lemma LtTrans(a: Key, b: Key, c: Key)
    requires Le(a, b) && Le(b, c) && (a != b || b != c)
    ensures Lt(a, c)
  {
    LeTrans(a, b, c);
    if a == c { LeAntisym(a, b); }
  }

  ghost predicate Sorted(s: seq<Key>) {
    forall i, j :: 0 <= i < j < |s| ==> Lt(s[i], s[j])
  }

  lemma LeastExists(s: set<Key>) returns (m: Key)
    requires s != {}
    ensures m in s && forall k :: k in s ==> Le(m, k)
  {
    var x :| x in s;
    if s == {x} {
      LeTotal(x, x);
      return x;
    }
    var y := LeastExists(s - {x});
    LeTotal(x, y);
    LeTotal(x, x);
    m := if Le(x, y) then x else y;
    forall k | k in s ensures Le(m, k) {
      if k != x { LeTrans(m, y, k); }
    }
  }

  predicate IsLeast(s: set<Key>, m: Key) {
    m in s && forall k :: k in s ==> Le(m, k)
  }

  lemma OneLeast(s: set<Key>)
    requires s != {}
    ensures exists m :: m in s && IsLeast(s, m)
    ensures forall m, n :: IsLeast(s, m) && IsLeast(s, n) ==> m == n
  {
    hide Le;
    var m := LeastExists(s);
    assert IsLeast(s, m);
    forall a, b | IsLeast(s, a) && IsLeast(s, b) ensures a == b { LeAntisym(a, b); }
  }

  /** The least key of a non-empty set. */
  function Least(s: set<Key>): (m: Key)
    requires s != {}
    ensures m in s && forall k :: k in s ==> Le(m, k)
  {
    hide Le;
    OneLeast(s);
    var m :| m in s && IsLeast(s, m);
    m
  }

  /** The keys of a set in listing order. */
  function SortedKeys(s: set<Key>): (r: seq<Key>)
    ensures Sorted(r) && NoDup(r)
    ensures forall k :: k in r <==> k in s
    ensures |r| == |s|
  {
    if s == {} then [] else [Least(s)] + SortedKeys(s - {Least(s)})
  }

  lemma {:induction false} SortedUnique(a: seq<Key>, b: seq<Key>)
    requires Sorted(a) && Sorted(b)
    requires forall k :: k in a <==> k in b
    ensures a == b
  {
    assert b == [] || b[0] in b;
    if a != [] {
      assert a[0] in b && b != [];
      assert b[0] in a;
      assert Le(a[0], b[0]) && Le(b[0], a[0]) by {
        LeTotal(a[0], a[0]);
        var i :| 0 <= i < |b| && b[i] == a[0];
        var j :| 0 <= j < |a| && a[j] == b[0];
      }
      LeAntisym(a[0], b[0]);
      forall k ensures k in a[1..] <==> k in b[1..] {
        assert k in a[1..] <==> k in a && k != a[0] by {
          if k in a[1..] { var i :| 0 <= i < |a[1..]| && a[1..][i] == k; assert Lt(a[0], a[i + 1]); }
          if k in a && k != a[0] { var i :| 0 <= i < |a| && a[i] == k; assert a[1..][i - 1] == k; }
        }
        assert k in b[1..] <==> k in b && k != b[0] by {
          if k in b[1..] { var i :| 0 <= i < |b[1..]| && b[1..][i] == k; assert Lt(b[0], b[i + 1]); }
          if k in b && k != b[0] { var i :| 0 <= i < |b| && b[i] == k; assert b[1..][i - 1] == k; }
        }
      }
      SortedUnique(a[1..], b[1..]);
      assert a == [a[0]] + a[1..] && b == [b[0]] + b[1..];
    }
  }

  // ----------------------------------------------------------- paged listing

  /** A continuation token means "start after this key"; `None` starts from the beginning. */
  type Token = Option<Key>

  predicate Past(token: Token, k: Key) {
    token.None? || Lt(token.value, k)
  }

  /** The keys under `prefix` that a listing still has to return. */
  function Remaining(store: Store, prefix: Key, token: Token): set<Key> {
    set k | k in store && prefix <= k && Past(token, k)
  }

  function Listing(store: Store, prefix: Key, token: Token): (r: seq<Key>)
    ensures Sorted(r) && NoDup(r)
    ensures forall k :: k in r <==> k in store && prefix <= k && Past(token, k)
  {
    SortedKeys(Remaining(store, prefix, token))
  }

  /** One LIST response: at most `max` keys and the token for the next page. */
  function PageKeys(store: Store, prefix: Key, token: Token, max: nat): (r: seq<Key>)
    ensures forall k :: k in r ==> k in store && prefix <= k && Past(token, k)
    ensures |r| <= max
  {
    var all := Listing(store, prefix, token);
    assert |all| > max ==> forall k :: k in all[..max] ==> k in all;
    if |all| <= max then all else all[..max]
  }

  function NextToken(store: Store, prefix: Key, token: Token, max: nat): (r: Token)
    requires 1 <= max
    ensures r.Some? ==> r.value in store && prefix <= r.value && Past(token, r.value)
  {
    var all := Listing(store, prefix, token);
    assert |all| > max ==> all[max - 1] in all;
    if |all| <= max then None else Some(all[max - 1])
  }

  /** A page holds exactly the remaining keys up to its token; the rest is what the token leaves. */
  lemma PageCovers(store: Store, prefix: Key, token: Token, max: nat, k: Key)
    requires 1 <= max
    requires k in store && prefix <= k && Past(token, k)
    ensures var next := NextToken(store, prefix, token, max);
            k in PageKeys(store, prefix, token, max) <==> next.None? || Le(k, next.value)
    ensures var next := NextToken(store, prefix, token, max);
            k in PageKeys(store, prefix, token, max) <==> next.None? || !Past(next, k)
  {
    hide Le, Lt, SortedKeys;
    var all := Listing(store, prefix, token);
    if |all| > max {
      LastOfPage(all, max, k);
      NotPast(k, all[max - 1]);
    }
  }

  lemma NotPast(k: Key, last: Key)
    ensures Le(k, last) <==> !Past(Some(last), k)
  {
    hide Le;
    LeTotal(k, last);
    if Le(k, last) && Le(last, k) { LeAntisym(k, last); }
  }

  /** The first `n` of sorted keys are those up to the last of them. */
  lemma LastOfPage(all: seq<Key>, n: nat, k: Key)
    requires Sorted(all) && 0 < n <= |all| && k in all
    ensures k in all[..n] <==> Le(k, all[n - 1])
  {
    hide Le;
    var i :| 0 <= i < |all| && all[i] == k;
    LeTotal(k, k);
    if i < n {
      assert all[..n][i] == k;
    } else {
      assert Lt(all[n - 1], all[i]);
      if Le(k, all[n - 1]) { LeAntisym(k, all[n - 1]); }
      forall j | 0 <= j < n ensures all[..n][j] != k { assert Lt(all[j], all[i]); }
    }
  }

  /** A page with a successor is full. */
  lemma PageNotEmpty(store: Store, prefix: Key, token: Token, max: nat)
    requires 1 <= max
    ensures NextToken(store, prefix, token, max).Some? ==> |PageKeys(store, prefix, token, max)| == max
  {
  }

  lemma SortedSuffix(all: seq<Key>, n: nat, k: Key)
    requires Sorted(all) && 0 < n <= |all|
    ensures k in all[n..] <==> k in all && Lt(all[n - 1], k)
  {
    if k in all[n..] {
      var i :| n <= i < |all| && all[i] == k;
    }
    if k in all && Lt(all[n - 1], k) {
      var i :| 0 <= i < |all| && all[i] == k;
      if i < n - 1 {
        assert Lt(all[i], all[n - 1]);
        LeAntisym(k, all[n - 1]);
      }
      assert all[n..][i - n] == k;
    }
  }

  lemma ListingAfter(store: Store, prefix: Key, token: Token, last: Key, k: Key)
    requires Past(token, last)
    ensures k in Listing(store, prefix, Some(last)) <==> k in Listing(store, prefix, token) && Lt(last, k)
  {
    if token.Some? && Lt(last, k) { LtTrans(token.value, last, k); }
  }

  /** Following the token continues the listing where the page stopped. */
  lemma ListingSplits(store: Store, prefix: Key, token: Token, max: nat)
    requires 1 <= max
    ensures var next := NextToken(store, prefix, token, max);
            var page := PageKeys(store, prefix, token, max);
            Listing(store, prefix, token) == page + (if next.None? then [] else Listing(store, prefix, next))
  {
    hide Le, Lt, Past, Remaining, SortedKeys;
    var all := Listing(store, prefix, token);
    if |all| > max {
      var last := all[max - 1];
      var rest := Listing(store, prefix, Some(last));
      assert last in all;
      forall k ensures k in all[max..] <==> k in rest {
        SortedSuffix(all, max, k);
        ListingAfter(store, prefix, token, last, k);
      }
      SortedUnique(all[max..], rest);
      assert all == all[..max] + all[max..];
    }
  }
}
