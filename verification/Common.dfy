/** Small types and sequence facts shared by the models. */
module Common {

  datatype Option<+T> = None | Some(value: T)

  ghost predicate NoDup<T>(s: seq<T>) {
    forall i, j :: 0 <= i < j < |s| ==> s[i] != s[j]
  }

  function Elements<T>(s: seq<T>): set<T> {
    set x | x in s
  }

  lemma AppendAssoc<T>(a: seq<T>, b: seq<T>, c: seq<T>)
    ensures (a + b) + c == a + (b + c)
  {
  }

  lemma NoDupStep<T>(s: seq<T>, x: T)
    ensures NoDup(s + [x]) <==> NoDup(s) && x !in s
  {
    var t := s + [x];
    assert forall i :: 0 <= i < |s| ==> t[i] == s[i];
    if x in s {
      var i :| 0 <= i < |s| && s[i] == x;
      assert t[i] == t[|s|];
    }
  }

  lemma NoDupConcat<T>(a: seq<T>, b: seq<T>)
    requires NoDup(b) && forall i :: 0 <= i < |a| ==> a[i] !in b
    ensures NoDup(a + b) <==> NoDup(a)
  {
    var t := a + b;
    assert forall i :: 0 <= i < |a| ==> t[i] == a[i] && t[i] in a;
    assert forall i :: |a| <= i < |t| ==> t[i] == b[i - |a|] && t[i] in b;
  }

  lemma NoDupTail<T>(s: seq<T>)
    requires NoDup(s) && s != []
    ensures NoDup(s[1..]) && s[0] !in s[1..]
  {
    assert forall i :: 0 <= i < |s| - 1 ==> s[1..][i] == s[i + 1];
  }

  lemma SubsetCard<T>(a: set<T>, b: set<T>)
    requires a <= b
    ensures |a| <= |b|
  {
    assert b == a + (b - a);
  }

  lemma NoDupCard<T>(s: seq<T>)
    requires NoDup(s)
    ensures |Elements(s)| == |s|
  {
    if s != [] {
      NoDupCard(s[..|s| - 1]);
      assert s == s[..|s| - 1] + [s[|s| - 1]];
      assert Elements(s) == Elements(s[..|s| - 1]) + {s[|s| - 1]};
    } else {
      assert Elements(s) == {};
    }
  }
}

/** JavaScript's `Map`: keys are iterated in the order of their first insertion. */
module OrderedMaps {
  import opened Common

  datatype OMap<K(==), V> = OMap(keys: seq<K>, vals: map<K, V>) {

    ghost predicate Valid() {
      && NoDup(keys)
      && Elements(keys) == vals.Keys
    }

    function Set(k: K, v: V): (r: OMap<K, V>)
      ensures Valid() ==> r.Valid()
      ensures r.vals == vals[k := v]
    {
      assert Elements(keys + [k]) == Elements(keys) + {k};
      OMap(if k in vals then keys else keys + [k], vals[k := v])
    }
  }

  function Empty<K(==), V>(): (r: OMap<K, V>)
    ensures r.Valid()
  {
    OMap([], map[])
  }
}

/** The string operations of JavaScript that the models share. */
module JsText {
  /** White space and line terminators, as `trim` understands them. */
  predicate IsSpace(c: char) {
    || c == ' ' || '\t' <= c <= '\r' || c == '\U{A0}' || c == '\U{FEFF}'
    || c == '\U{1680}' || '\U{2000}' <= c <= '\U{200A}' || c == '\U{2028}' || c == '\U{2029}'
    || c == '\U{202F}' || c == '\U{205F}' || c == '\U{3000}'
  }

  function TrimLeft(s: string): string {
    if s != "" && IsSpace(s[0]) then TrimLeft(s[1..]) else s
  }

  function TrimRight(s: string): string {
    if s != "" && IsSpace(s[|s| - 1]) then TrimRight(s[..|s| - 1]) else s
  }

  function Trim(s: string): string {
    TrimRight(TrimLeft(s))
  }

  predicate AllSpace(s: string) {
    forall c :: c in s ==> IsSpace(c)
  }

  /** There is only one way to take off the white space. */
  lemma TrimOf(before: string, t: string, after: string)
    requires AllSpace(before) && AllSpace(after)
    requires t != "" ==> !IsSpace(t[0]) && !IsSpace(t[|t| - 1])
    ensures Trim(before + t + after) == t
  {
    hide IsSpace;
    assert before + t + after == before + (t + after);
    TrimLeftOf(before, t + after);
    if t == "" {
      assert t + after == after;
      assert after + "" == after;
      TrimLeftOf(after, "");
    } else {
      assert TrimLeft(t + after) == t + after;
      TrimRightOf(t, after);
    }
  }

  lemma {:induction false} TrimLeftOf(before: string, rest: string)
    requires AllSpace(before)
    ensures TrimLeft(before + rest) == TrimLeft(rest)
  {
    hide IsSpace;
    if before == "" {
      assert before + rest == rest;
    } else {
      assert before[0] in before && (before + rest)[1..] == before[1..] + rest;
      TrimLeftOf(before[1..], rest);
    }
  }

  lemma {:induction false} TrimRightOf(t: string, after: string)
    requires AllSpace(after) && (t != "" ==> !IsSpace(t[|t| - 1]))
    ensures TrimRight(t + after) == t
  {
    hide IsSpace;
    if after == "" {
      assert t + after == t;
    } else {
      var n := |after| - 1;
      assert after[n] in after && (t + after)[..|t + after| - 1] == t + after[..n];
      TrimRightOf(t, after[..n]);
    }
  }
}
