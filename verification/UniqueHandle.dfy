/** The search for a tenant handle that is not taken yet. */
module UniqueHandle {
  import opened Common

  const MAX_HANDLE := 100

  /** A natural number in decimal, as a template string writes it. */
  function Digits(n: nat): (s: string)
    ensures |s| >= 1
  {
    if n < 10 then [('0' as int + n) as char] else Digits(n / 10) + [('0' as int + n % 10) as char]
  }

  /** `slice(0, 100)`. */
  function Cut(s: string): string {
    if |s| <= MAX_HANDLE then s else s[..MAX_HANDLE]
  }

  /** The handle probed after `suffix` failures. */
  function Candidate(base: string, suffix: nat): string {
    if suffix == 0 then base else Cut(base + "-" + Digits(suffix))
  }

  /** The candidate is not cut. */
  predicate Fits(base: string, suffix: nat) {
    |base| + 1 + |Digits(suffix)| <= MAX_HANDLE
  }

  // ------------------------------------------------------------ candidates

  lemma {:induction false} DigitsInjective(a: nat, b: nat)
    requires Digits(a) == Digits(b)
    ensures a == b
  {
    var x, y := Digits(a), Digits(b);
    if a >= 10 && b >= 10 {
      assert x[..|x| - 1] == Digits(a / 10) && y[..|y| - 1] == Digits(b / 10);
      DigitsInjective(a / 10, b / 10);
      assert x[|x| - 1] == ('0' as int + a % 10) as char && y[|y| - 1] == ('0' as int + b % 10) as char;
    }
  }

  lemma {:induction false} DigitsGrow(a: nat, b: nat)
    requires a <= b
    ensures |Digits(a)| <= |Digits(b)|
  {
    if a >= 10 { DigitsGrow(a / 10, b / 10); }
  }

  /** Candidates that fit are pairwise different. */
  lemma CandidatesDiffer(base: string, i: nat, j: nat)
    requires i < j && Fits(base, j)
    ensures Candidate(base, i) != Candidate(base, j)
  {
    hide Digits;
    DigitsGrow(i, j);
    var right := base + "-" + Digits(j);
    if i == 0 {
      assert |right| > |base|;
    } else if Candidate(base, i) == Candidate(base, j) {
      var left := base + "-" + Digits(i);
      assert left[|base| + 1..] == Digits(i) && right[|base| + 1..] == Digits(j);
      DigitsInjective(i, j);
      assert false;
    }
  }

  /** A cut candidate repeats a shorter number's candidate. */
  lemma CutRepeats(base: string, k: nat)
    requires k >= 10 && !Fits(base, k)
    ensures Candidate(base, k) == Candidate(base, k / 10)
  {
    var shorter := base + "-" + Digits(k / 10);
    var longer := base + "-" + Digits(k);
    assert longer == shorter + [('0' as int + k % 10) as char];
    assert |shorter| >= MAX_HANDLE;
    assert longer[..MAX_HANDLE] == shorter[..MAX_HANDLE];
  }

  /** Every candidate is the base, one with a one-digit suffix, or one that fits. */
  lemma {:induction false} CandidatesAreFew(base: string, k: nat) returns (j: nat)
    ensures j <= k && Candidate(base, j) == Candidate(base, k)
    ensures j < 10 || Fits(base, j)
  {
    hide Digits, Candidate, Fits;
    j := k;
    if k >= 10 && !Fits(base, k) {
      CutRepeats(base, k);
      j := CandidatesAreFew(base, k / 10);
    }
  }

  /** Some probe finds a free handle; the source's loop ends exactly then. */
  ghost predicate SomeFree(taken: set<string>, base: string) {
    exists k: nat :: Candidate(base, k) !in taken
  }

  lemma BaseFirst(base: string)
    ensures Candidate(base, 0) == base
  {
  }

  lemma SuffixNext(base: string, suffix: nat)
    requires suffix > 0
    ensures Candidate(base, suffix) == Cut(base + "-" + Digits(suffix))
  {
  }

  // ------------------------------------------------------------ what a candidate reads

  /** A string of decimal digits, read as a number. */
  function Value(s: string): nat {
    if s == "" then 0
    else 10 * Value(s[..|s| - 1]) + if '0' <= s[|s| - 1] <= '9' then s[|s| - 1] as int - '0' as int else 0
  }

  predicate Decimal(s: string) {
    && s != "" && (forall c :: c in s ==> '0' <= c <= '9')
    && (|s| > 1 ==> s[0] != '0')
  }

  lemma {:induction false} DigitsValue(n: nat)
    ensures Decimal(Digits(n)) && Value(Digits(n)) == n && (n > 0 ==> Digits(n)[0] != '0')
  {
    var s := Digits(n);
    if n < 10 {
      assert s[..0] == "";
    } else {
      DigitsValue(n / 10);
      assert s[..|s| - 1] == Digits(n / 10);
    }
  }

  /**
   * The probe after `suffix` failures is the base, a hyphen and that number in decimal, as far as 100 characters go.
   */
  lemma CandidateReads(base: string, suffix: nat) returns (number: string)
    requires suffix > 0
    ensures Decimal(number) && Value(number) == suffix
    ensures Candidate(base, suffix) <= base + "-" + number
    ensures |Candidate(base, suffix)| == if Fits(base, suffix) then |base| + 1 + |number| else MAX_HANDLE
  {
    number := Digits(suffix);
    DigitsValue(suffix);
  }

  // ------------------------------------------------------------ when it ends

  lemma {:induction false} CandidateSet(base: string, n: nat) returns (cs: set<string>)
    requires Fits(base, n)
    ensures |cs| == n + 1
    ensures forall c :: c in cs <==> exists k: nat :: k <= n && Candidate(base, k) == c
  {
    hide Candidate, Fits, Digits;
    if n == 0 {
      cs := {Candidate(base, 0)};
    } else {
      FitsDown(base, n - 1, n);
      var fewer := CandidateSet(base, n - 1);
      forall k: nat | k < n ensures Candidate(base, k) != Candidate(base, n) {
        CandidatesDiffer(base, k, n);
      }
      cs := fewer + {Candidate(base, n)};
    }
  }

  lemma FitsDown(base: string, i: nat, j: nat)
    requires i <= j && Fits(base, j)
    ensures Fits(base, i)
  {
    hide Digits;
    DigitsGrow(i, j);
  }

  /** With room for the digits of `|taken|`, one of the first `|taken| + 1` candidates is free. */
  lemma FreeWithinTaken(taken: set<string>, base: string) returns (k: nat)
    requires Fits(base, |taken|)
    ensures k <= |taken| && Candidate(base, k) !in taken
  {
    hide Candidate, Fits;
    var cs := CandidateSet(base, |taken|);
    if cs <= taken {
      SubsetCard(cs, taken);
      assert false;
    }
    var c :| c in cs && c !in taken;
    k :| k <= |taken| && Candidate(base, k) == c;
  }

  /**
   * A base that leaves room for the digits of `|taken|`: at most `|taken| + 1` probes, and a handle of legal length.
   */
  lemma ShortBaseEndsSoon(taken: set<string>, base: string, probes: nat)
    requires Fits(base, |taken|)
    requires probes >= 1 && forall k: nat :: k < probes - 1 ==> Candidate(base, k) in taken
    ensures SomeFree(taken, base)
    ensures probes <= |taken| + 1 && |Candidate(base, probes - 1)| <= MAX_HANDLE
  {
    hide Candidate, Fits;
    var k := FreeWithinTaken(taken, base);
    assert probes - 1 <= k;
    CandidateShort(taken, base, probes - 1);
  }

  lemma CandidateShort(taken: set<string>, base: string, k: nat)
    requires Fits(base, |taken|)
    ensures |Candidate(base, k)| <= MAX_HANDLE
  {
  }

  /** A base of any length: the search ends exactly when the base, a one-digit candidate or one that fits is free. */
  lemma EndsIff(taken: set<string>, base: string)
    ensures SomeFree(taken, base) <==> exists k: nat :: (k < 10 || Fits(base, k)) && Candidate(base, k) !in taken
  {
    hide Candidate, Fits;
    if SomeFree(taken, base) {
      var k: nat :| Candidate(base, k) !in taken;
      var j := CandidatesAreFew(base, k);
      assert Candidate(base, j) !in taken;
    }
  }

  /** A base of 100 characters has itself as its only candidate: once it is taken, the search never ends. */
  lemma LongBaseNeverEnds(base: string, taken: set<string>)
    requires |base| == MAX_HANDLE
    ensures SomeFree(taken, base) <==> base !in taken
  {
    hide Digits;
    forall k: nat ensures Candidate(base, k) == base {
      if k > 0 { assert (base + "-" + Digits(k))[..MAX_HANDLE] == base; }
    }
    BaseFirst(base);
  }

  // ------------------------------------------------------------ the search

  /** The search stops at the first candidate that is not taken. */
  method EnsureUniqueHandle(taken: set<string>, base: string) returns (handle: string, ghost probes: nat)
    requires SomeFree(taken, base)
    ensures handle !in taken
    ensures probes >= 1 && handle == Candidate(base, probes - 1)
    ensures forall k: nat :: k < probes - 1 ==> Candidate(base, k) in taken
    ensures Fits(base, |taken|) ==> probes <= |taken| + 1 && |handle| <= MAX_HANDLE
  {
    hide Candidate, Digits, Cut, Fits;
    ghost var free: nat :| Candidate(base, free) !in taken;
    handle := base;
    var suffix := 0;
    assert handle == Candidate(base, 0) by { BaseFirst(base); }
    while handle in taken
      invariant 0 <= suffix <= free
      invariant handle == Candidate(base, suffix)
      invariant forall k: nat :: k < suffix ==> Candidate(base, k) in taken
      decreases free - suffix
    {
      suffix := suffix + 1;
      handle := Cut(base + "-" + Digits(suffix));
      SuffixNext(base, suffix);
    }
    probes := suffix + 1;
    if Fits(base, |taken|) { ShortBaseEndsSoon(taken, base, probes); }
  }
}
