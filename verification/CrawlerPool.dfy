/**
 * The crawler's workers. A worker runs without interruption from one await to the next; the steps
 * below are those stretches, and workers take them in any order.
 */
module CrawlerPool {
  import opened Common

  type Url = string

  /** `pending` holds the normalised URLs still to crawl; a limit of 0 means none. */
  datatype Config = Config(pending: seq<Url>, concurrency: nat, maxArticles: nat, maxAttempts: nat, retries: nat) {
    /** `Math.min(concurrency, Math.max(1, pending.length))` */
    function Workers(): nat {
      var wanted := if |pending| == 0 then 1 else |pending|;
      if concurrency <= wanted then concurrency else wanted
    }
  }

  /** What a page load and extraction came to. */
  datatype Fetched = Throws | NotArticle | Article(canonical: Url)

  datatype Worker =
    | Ready
    | Fetching(at: nat, attempt: nat)                    // loading and extracting pending[at]
    | Skipping(at: nat, attempt: nat)                    // counted as skipped, its record is being appended
    | Saving(at: nat, attempt: nat, canonical: Url)      // HTML and record are being written
    | Reporting(at: nat)                                 // counted as an error, its record is being appended
    | Stopped(crashed: bool)

  datatype Saved = Saved(at: nat, canonical: Url)

  /**
   * `handed` lists the indices given out, `saved` the articles written, `claims` which URL first
   * took a canonical address other than its own, `recounted` the failed appends of skip records.
   */
  datatype State = State(
    workers: seq<Worker>, cursor: nat, attempted: nat, articles: nat, skipped: nat, errors: nat,
    canonicalSeen: set<Url>, handed: seq<nat>, saved: seq<Saved>, claims: map<Url, nat>, recounted: nat)

  datatype Step =
    | Take(w: nat)
    | Fetch(w: nat, page: Fetched)
    | SaveEnds(w: nat, ok: bool)
    | SkipEnds(w: nat, ok: bool)
    | ReportEnds(w: nat, ok: bool)

  function InitState(c: Config): State {
    State(seq(c.Workers(), _ => Ready), 0, 0, 0, 0, 0, {}, [], [], map[], 0)
  }

  predicate Enabled(c: Config, s: State, step: Step) {
    && step.w < |s.workers|
    && match step
       case Take(w) => s.workers[w].Ready?
       case Fetch(w, _) => s.workers[w].Fetching?
       case SaveEnds(w, _) => s.workers[w].Saving?
       case SkipEnds(w, _) => s.workers[w].Skipping?
       case ReportEnds(w, _) => s.workers[w].Reporting?
  }

  /** `nextUrl` declines without touching the cursor when a limit is reached. */
  predicate Capped(c: Config, s: State) {
    || (c.maxArticles > 0 && s.articles >= c.maxArticles)
    || (c.maxAttempts > 0 && s.attempted >= c.maxAttempts)
  }

  function DoTake(c: Config, s: State, w: nat): State
    requires w < |s.workers|
  {
    if Capped(c, s) then s.(workers := s.workers[w := Stopped(false)])
    else if s.cursor >= |c.pending| then s.(workers := s.workers[w := Stopped(false)], cursor := s.cursor + 1)
    else s.(workers := s.workers[w := Fetching(s.cursor, 1)], cursor := s.cursor + 1, attempted := s.attempted + 1,
            handed := s.handed + [s.cursor])
  }

  /** The catch block: try again while attempts remain, else count an error. */
  function Caught(c: Config, s: State, w: nat, at: nat, attempt: nat): State
    requires w < |s.workers|
  {
    if attempt <= c.retries then s.(workers := s.workers[w := Fetching(at, attempt + 1)])
    else s.(workers := s.workers[w := Reporting(at)], errors := s.errors + 1)
  }

  function UrlAt(c: Config, at: nat): Url {
    if at < |c.pending| then c.pending[at] else ""
  }

  function DoFetch(c: Config, s: State, w: nat, page: Fetched): State
    requires w < |s.workers| && s.workers[w].Fetching?
  {
    var Fetching(at, attempt) := s.workers[w];
    match page
    case Throws => Caught(c, s, w, at, attempt)
    case NotArticle => s.(workers := s.workers[w := Skipping(at, attempt)], skipped := s.skipped + 1)
    case Article(canonical) =>
      if canonical in s.canonicalSeen && canonical != UrlAt(c, at) then
        s.(workers := s.workers[w := Skipping(at, attempt)], skipped := s.skipped + 1)
      else
        s.(workers := s.workers[w := Saving(at, attempt, canonical)],
           canonicalSeen := s.canonicalSeen + {canonical},
           claims := if canonical != UrlAt(c, at) then s.claims[canonical := at] else s.claims)
  }

  function Do(c: Config, s: State, step: Step): State
    requires Enabled(c, s, step)
  {
    var w := step.w;
    match step
    case Take(_) => DoTake(c, s, w)
    case Fetch(_, page) => DoFetch(c, s, w, page)
    case SaveEnds(_, ok) =>
      var Saving(at, attempt, canonical) := s.workers[w];
      if ok then s.(workers := s.workers[w := Ready], articles := s.articles + 1,
                    saved := s.saved + [Saved(at, canonical)])
      else Caught(c, s, w, at, attempt)
    case SkipEnds(_, ok) =>
      var Skipping(at, attempt) := s.workers[w];
      if ok then s.(workers := s.workers[w := Ready])
      else Caught(c, s.(recounted := s.recounted + 1), w, at, attempt)
    case ReportEnds(_, ok) => s.(workers := s.workers[w := if ok then Ready else Stopped(true)])
  }

  ghost predicate Execution(c: Config, states: seq<State>, steps: seq<Step>) {
    && |states| == |steps| + 1
    && states[0] == InitState(c)
    && forall i :: 0 <= i < |steps| ==>
         Enabled(c, states[i], steps[i]) && states[i + 1] == Do(c, states[i], steps[i])
  }

  // ------------------------------------------------------------ counting workers

  /** A URL that is handed out and in no counter but `attempted`. */
  predicate InFlight(w: Worker) {
    w.Fetching? || w.Saving?
  }

  /** A worker that may still produce an article. */
  predicate MayProduce(w: Worker) {
    InFlight(w) || w.Skipping?
  }

  function Count(ws: seq<Worker>, p: Worker -> bool): nat {
    if ws == [] then 0 else Count(ws[..|ws| - 1], p) + if p(ws[|ws| - 1]) then 1 else 0
  }

  lemma {:induction false} CountUpdate(ws: seq<Worker>, p: Worker -> bool, i: nat, x: Worker)
    requires i < |ws|
    ensures Count(ws[i := x], p) + (if p(ws[i]) then 1 else 0) == Count(ws, p) + (if p(x) then 1 else 0)
  {
    var n := |ws| - 1;
    if i == n {
      assert ws[i := x][..n] == ws[..n];
    } else {
      assert ws[i := x][..n] == ws[..n][i := x];
      CountUpdate(ws[..n], p, i, x);
    }
  }

  lemma {:induction false} CountBound(ws: seq<Worker>, p: Worker -> bool)
    ensures Count(ws, p) <= |ws|
    ensures (forall i :: 0 <= i < |ws| ==> !p(ws[i])) ==> Count(ws, p) == 0
  {
    if ws != [] { CountBound(ws[..|ws| - 1], p); }
  }

  // ------------------------------------------------------------ the invariants

  function Flying(s: State): nat { Count(s.workers, InFlight) }

  function Producing(s: State): nat { Count(s.workers, MayProduce) }

  /** The counters add up, and no limit is passed by more than the workers already under way. */
  ghost predicate CountInv(c: Config, s: State) {
    Balanced(c, s) && StopsHold(c, s)
  }

  /** The counters against each other and against the limits. */
  ghost predicate Balanced(c: Config, s: State) {
    && |s.workers| == c.Workers()
    && s.attempted + s.recounted == s.articles + s.skipped + s.errors + Flying(s)
    && (c.maxArticles > 0 ==> s.articles + Producing(s) <= c.maxArticles + c.Workers() - 1)
    && (c.maxAttempts > 0 ==> s.attempted <= c.maxAttempts)
  }

  ghost predicate StopsHold(c: Config, s: State) {
    forall w :: 0 <= w < |s.workers| && s.workers[w] == Stopped(false) ==> Capped(c, s) || s.attempted == |c.pending|
  }

  /** The indices are handed out in order, without gap or repetition. */
  ghost predicate HandInv(c: Config, s: State) {
    && s.attempted == |s.handed| == (if s.cursor <= |c.pending| then s.cursor else |c.pending|)
    && (forall i :: 0 <= i < |s.handed| ==> s.handed[i] == i)
  }

  predicate Busy(w: Worker) {
    w.Fetching? || w.Saving? || w.Skipping? || w.Reporting?
  }

  /** Each index is worked on by one worker at most, and by none once it is saved. */
  ghost predicate OwnerInv(c: Config, s: State) {
    && |s.handed| <= |c.pending|
    && (forall w :: 0 <= w < |s.workers| && Busy(s.workers[w]) ==> s.workers[w].at < |s.handed|)
    && (forall v, w :: 0 <= v < w < |s.workers| && Busy(s.workers[v]) && Busy(s.workers[w])
           ==> s.workers[v].at != s.workers[w].at)
    && (forall w, i :: 0 <= w < |s.workers| && Busy(s.workers[w]) && 0 <= i < |s.saved|
           ==> s.saved[i].at != s.workers[w].at)
    && (forall i :: 0 <= i < |s.saved| ==> s.saved[i].at < |s.handed|)
    && (forall i, j :: 0 <= i < j < |s.saved| ==> s.saved[i].at != s.saved[j].at)
  }

  /** An article saved under another address than its own claimed that address first. */
  ghost predicate ClaimInv(c: Config, s: State) {
    && (forall u :: u in s.claims ==> u in s.canonicalSeen)
    && (forall w :: 0 <= w < |s.workers| && s.workers[w].Saving? ==>
          && s.workers[w].canonical in s.canonicalSeen
          && (s.workers[w].canonical != UrlAt(c, s.workers[w].at) ==>
                s.workers[w].canonical in s.claims && s.claims[s.workers[w].canonical] == s.workers[w].at))
    && (forall i :: 0 <= i < |s.saved| && s.saved[i].canonical != UrlAt(c, s.saved[i].at) ==>
          s.saved[i].canonical in s.claims && s.claims[s.saved[i].canonical] == s.saved[i].at)
  }

  ghost predicate Inv(c: Config, s: State) {
    CountInv(c, s) && HandInv(c, s) && OwnerInv(c, s) && ClaimInv(c, s)
  }

  lemma StepKeepsCount(c: Config, s: State, step: Step)
    requires Enabled(c, s, step) && CountInv(c, s) && HandInv(c, s)
    ensures CountInv(c, Do(c, s, step))
  {
    hide Do, Balanced, StopsHold, HandInv;
    StepKeepsBalance(c, s, step);
    StepKeepsStops(c, s, step);
  }

  /** A step changes one worker, and with it the two counts of workers. */
  lemma StepCounts(c: Config, s: State, step: Step)
    requires Enabled(c, s, step)
    ensures var s' := Do(c, s, step);
            && |s'.workers| == |s.workers| && Producing(s') <= |s'.workers|
            && Flying(s') + (if InFlight(s.workers[step.w]) then 1 else 0)
                 == Flying(s) + (if InFlight(s'.workers[step.w]) then 1 else 0)
            && Producing(s') + (if MayProduce(s.workers[step.w]) then 1 else 0)
                 == Producing(s) + (if MayProduce(s'.workers[step.w]) then 1 else 0)
  {
    hide Count;
    var s' := Do(c, s, step);
    assert s'.workers == s.workers[step.w := s'.workers[step.w]];
    CountUpdate(s.workers, InFlight, step.w, s'.workers[step.w]);
    CountUpdate(s.workers, MayProduce, step.w, s'.workers[step.w]);
    CountBound(s'.workers, MayProduce);
  }

  lemma StepKeepsBalance(c: Config, s: State, step: Step)
    requires Enabled(c, s, step) && Balanced(c, s) && HandInv(c, s)
    ensures Balanced(c, Do(c, s, step))
  {
    hide Count, Flying, Producing;
    StepCounts(c, s, step);
  }

  lemma StepKeepsStops(c: Config, s: State, step: Step)
    requires Enabled(c, s, step) && StopsHold(c, s) && HandInv(c, s)
    ensures StopsHold(c, Do(c, s, step))
  {
    hide Count;
  }

  lemma StepKeepsHand(c: Config, s: State, step: Step)
    requires Enabled(c, s, step) && HandInv(c, s)
    ensures HandInv(c, Do(c, s, step))
  {
  }

  /** A worker that stays on its URL, or leaves it, disturbs no other. */
  lemma OwnerStays(c: Config, s: State, s': State, w: nat, x: Worker)
    requires OwnerInv(c, s) && w < |s.workers| && s'.workers == s.workers[w := x]
    requires s'.handed == s.handed && s'.saved == s.saved
    requires Busy(x) ==> Busy(s.workers[w]) && x.at == s.workers[w].at
    ensures OwnerInv(c, s')
  {
  }

  lemma OwnerTakes(c: Config, s: State, s': State, w: nat)
    requires OwnerInv(c, s) && w < |s.workers| && |s.handed| < |c.pending|
    requires s'.workers == s.workers[w := Fetching(|s.handed|, 1)]
    requires s'.handed == s.handed + [|s.handed|] && s'.saved == s.saved
    ensures OwnerInv(c, s')
  {
  }

  lemma OwnerSaves(c: Config, s: State, s': State, w: nat, canonical: Url)
    requires OwnerInv(c, s) && w < |s.workers| && Busy(s.workers[w])
    requires s'.workers == s.workers[w := Ready]
    requires s'.handed == s.handed && s'.saved == s.saved + [Saved(s.workers[w].at, canonical)]
    ensures OwnerInv(c, s')
  {
  }

  lemma StepKeepsOwner(c: Config, s: State, step: Step)
    requires Enabled(c, s, step) && HandInv(c, s) && OwnerInv(c, s)
    ensures OwnerInv(c, Do(c, s, step))
  {
    hide OwnerInv, Capped;
    var s' := Do(c, s, step);
    if step.Take? && s'.workers[step.w].Fetching? {
      OwnerTakes(c, s, s', step.w);
    } else if step.SaveEnds? && step.ok {
      OwnerSaves(c, s, s', step.w, s.workers[step.w].canonical);
    } else {
      OwnerStays(c, s, s', step.w, s'.workers[step.w]);
    }
  }

  /** A claim made now is new: an address other than the URL's own is taken only once. */
  lemma StepKeepsClaims(c: Config, s: State, step: Step)
    requires Enabled(c, s, step) && OwnerInv(c, s) && ClaimInv(c, s)
    ensures ClaimInv(c, Do(c, s, step))
  {
    hide OwnerInv, Capped;
    var s' := Do(c, s, step);
    if step.SaveEnds? && step.ok {
      assert s'.saved == s.saved + [Saved(s.workers[step.w].at, s.workers[step.w].canonical)];
      assert forall v :: 0 <= v < |s'.workers| && s'.workers[v].Saving? ==> s'.workers[v] == s.workers[v];
    } else {
      ClaimStays(c, s, s', step.w);
    }
  }

  lemma ClaimStays(c: Config, s: State, s': State, w: nat)
    requires ClaimInv(c, s) && w < |s.workers| == |s'.workers| && s'.saved == s.saved
    requires forall v :: 0 <= v < |s.workers| && v != w ==> s'.workers[v] == s.workers[v]
    requires s.canonicalSeen <= s'.canonicalSeen
    requires forall u :: u in s.claims ==> u in s'.claims && s'.claims[u] == s.claims[u]
    requires forall u :: u in s'.claims && u !in s.claims ==> u in s'.canonicalSeen
    requires s'.workers[w].Saving? ==>
               && s'.workers[w].canonical in s'.canonicalSeen
               && (s'.workers[w].canonical != UrlAt(c, s'.workers[w].at) ==>
                     s'.workers[w].canonical in s'.claims && s'.claims[s'.workers[w].canonical] == s'.workers[w].at)
    ensures ClaimInv(c, s')
  {
  }

  lemma StepKeepsInv(c: Config, s: State, step: Step)
    requires Enabled(c, s, step) && Inv(c, s)
    ensures Inv(c, Do(c, s, step))
  {
    hide Do, CountInv, HandInv, OwnerInv, ClaimInv;
    StepKeepsCount(c, s, step);
    StepKeepsHand(c, s, step);
    StepKeepsOwner(c, s, step);
    StepKeepsClaims(c, s, step);
  }

  lemma {:induction false} RunKeepsInv(c: Config, states: seq<State>, steps: seq<Step>, n: nat)
    requires c.concurrency >= 1 && Execution(c, states, steps) && n < |states|
    ensures Inv(c, states[n])
  {
    hide Do, Inv;
    if n == 0 {
      InitInv(c);
    } else {
      RunKeepsInv(c, states, steps, n - 1);
      StepKeepsInv(c, states[n - 1], steps[n - 1]);
    }
  }

  lemma InitInv(c: Config)
    requires c.concurrency >= 1
    ensures Inv(c, InitState(c))
  {
    CountBound(InitState(c).workers, InFlight);
    CountBound(InitState(c).workers, MayProduce);
  }

  // ------------------------------------------------------------ what every run keeps

  function FailedSkips(steps: seq<Step>): nat {
    if steps == [] then 0 else
      FailedSkips(steps[..|steps| - 1]) + if steps[|steps| - 1].SkipEnds? && !steps[|steps| - 1].ok then 1 else 0
  }

  lemma {:induction false} RecountedIsFailedSkips(c: Config, states: seq<State>, steps: seq<Step>, n: nat)
    requires Execution(c, states, steps) && n <= |steps|
    ensures states[n].recounted == FailedSkips(steps[..n])
  {
    if n > 0 {
      RecountedIsFailedSkips(c, states, steps, n - 1);
      assert steps[..n][..n - 1] == steps[..n - 1];
    }
  }

  /**
   * Every URL handed out is in exactly one counter or still in flight, except that a failed append of a skip record
   * counts its URL once more.
   */
  lemma CountersAddUp(c: Config, states: seq<State>, steps: seq<Step>, n: nat)
    requires c.concurrency >= 1 && Execution(c, states, steps) && n <= |steps| < |states|
    ensures var s := states[n];
            && s.attempted + FailedSkips(steps[..n]) == s.articles + s.skipped + s.errors + Flying(s)
            && (s.attempted == s.articles + s.skipped + s.errors + Flying(s) <==> FailedSkips(steps[..n]) == 0)
  {
    hide Execution, Do, Flying;
    RunKeepsInv(c, states, steps, n);
    RecountedIsFailedSkips(c, states, steps, n);
  }

  /** A crawl of one page, no article, whose skip record cannot be appended: one attempt ends up in two counters. */
  lemma FailedSkipCountsTwice(url: Url) returns (states: seq<State>, steps: seq<Step>)
    ensures Execution(Config([url], 1, 0, 0, 0), states, steps)
    ensures var s := states[|steps|];
            && s.workers == [Stopped(false)] && s.attempted == 1
            && s.articles == 0 && s.skipped == 1 && s.errors == 1
  {
    var c := Config([url], 1, 0, 0, 0);
    var s0 := InitState(c);
    steps := [Take(0), Fetch(0, NotArticle), SkipEnds(0, false), ReportEnds(0, true), Take(0)];
    assert s0.workers == [Ready];
    var s1 := s0.(workers := [Fetching(0, 1)], cursor := 1, attempted := 1, handed := [0]);
    var s2 := s1.(workers := [Skipping(0, 1)], skipped := 1);
    var s3 := s2.(workers := [Reporting(0)], errors := 1, recounted := 1);
    var s4 := s3.(workers := [Ready]);
    var s5 := s4.(workers := [Stopped(false)], cursor := 2);
    states := [s0, s1, s2, s3, s4, s5];
  }

  /** The URLs are handed out in list order, each index at most once. */
  lemma HandedOnce(c: Config, states: seq<State>, steps: seq<Step>, n: nat)
    requires c.concurrency >= 1 && Execution(c, states, steps) && n < |states|
    ensures var s := states[n];
            && |s.handed| == s.attempted <= |c.pending|
            && NoDup(s.handed) && forall i :: 0 <= i < |s.handed| ==> s.handed[i] == i
  {
    hide Execution, Do;
    RunKeepsInv(c, states, steps, n);
  }

  /** The limits: attempts exactly, articles up to the workers already under way. */
  lemma LimitsHold(c: Config, states: seq<State>, steps: seq<Step>, n: nat)
    requires c.concurrency >= 1 && Execution(c, states, steps) && n < |states|
    ensures c.maxAttempts > 0 ==> states[n].attempted <= c.maxAttempts
    ensures c.maxArticles > 0 ==> states[n].articles <= c.maxArticles + c.Workers() - 1
  {
    hide Execution, Do;
    RunKeepsInv(c, states, steps, n);
  }

  /** When every worker has stopped by itself, a limit was reached or every URL was handed out and settled. */
  lemma FinishedCrawl(c: Config, states: seq<State>, steps: seq<Step>, n: nat)
    requires c.concurrency >= 1 && Execution(c, states, steps) && n <= |steps| < |states|
    requires forall w :: 0 <= w < |states[n].workers| ==> states[n].workers[w] == Stopped(false)
    ensures var s := states[n];
            && s.attempted + FailedSkips(steps[..n]) == s.articles + s.skipped + s.errors
            && ((c.maxArticles > 0 && s.articles >= c.maxArticles)
                || (c.maxAttempts > 0 && s.attempted == c.maxAttempts)
                || s.attempted == |c.pending|)
  {
    hide Execution, Do;
    RunKeepsInv(c, states, steps, n);
    RecountedIsFailedSkips(c, states, steps, n);
    CountBound(states[n].workers, InFlight);
    assert states[n].workers[0] == Stopped(false);
  }

  /** Of two articles saved under one address, at least one is that address itself. */
  lemma OneAliasPerCanonical(c: Config, states: seq<State>, steps: seq<Step>, n: nat, i: nat, j: nat)
    requires c.concurrency >= 1 && Execution(c, states, steps) && n < |states|
    requires i < j < |states[n].saved| && states[n].saved[i].canonical == states[n].saved[j].canonical
    ensures states[n].saved[i].at != states[n].saved[j].at
    ensures states[n].saved[i].at < |c.pending| && states[n].saved[j].at < |c.pending|
    ensures || c.pending[states[n].saved[i].at] == states[n].saved[i].canonical
            || c.pending[states[n].saved[j].at] == states[n].saved[j].canonical
  {
    hide Execution, Do, CountInv;
    RunKeepsInv(c, states, steps, n);
  }

  /** With distinct URLs, at most two articles are saved under one address. */
  lemma AtMostTwoPerCanonical(c: Config, states: seq<State>, steps: seq<Step>, n: nat, i: nat, j: nat, k: nat)
    requires c.concurrency >= 1 && NoDup(c.pending) && Execution(c, states, steps) && n < |states|
    requires i < j < k < |states[n].saved|
    ensures !(states[n].saved[i].canonical == states[n].saved[j].canonical == states[n].saved[k].canonical)
  {
    hide Execution, Do;
    var saved := states[n].saved;
    if saved[i].canonical == saved[j].canonical == saved[k].canonical {
      OneAliasPerCanonical(c, states, steps, n, i, j);
      OneAliasPerCanonical(c, states, steps, n, j, k);
      OneAliasPerCanonical(c, states, steps, n, i, k);
    }
  }

  /**
   * A save that fails is retried, but the address was already recorded as seen: the retry is
   * skipped as a duplicate of itself exactly when the address is not the URL's own.
   */
  lemma RetryAfterFailedSave(c: Config, states: seq<State>, steps: seq<Step>, n: nat, w: nat)
    returns (failed: State, retried: State)
    requires c.concurrency >= 1 && Execution(c, states, steps) && n < |states|
    requires w < |states[n].workers| && states[n].workers[w].Saving? && states[n].workers[w].attempt <= c.retries
    ensures failed == Do(c, states[n], SaveEnds(w, false))
    ensures Enabled(c, failed, Fetch(w, Article(states[n].workers[w].canonical)))
    ensures retried == Do(c, failed, Fetch(w, Article(states[n].workers[w].canonical)))
    ensures retried.workers[w].Skipping? <==> states[n].workers[w].canonical != UrlAt(c, states[n].workers[w].at)
  {
    hide Execution, CountInv, OwnerInv;
    RunKeepsInv(c, states, steps, n);
    failed := Do(c, states[n], SaveEnds(w, false));
    retried := Do(c, failed, Fetch(w, Article(states[n].workers[w].canonical)));
  }

  // ------------------------------------------------------------ duplicates

  /** The step turns a loaded page with this canonical address into an article to be saved. */
  predicate Accepts(s: State, step: Step, s': State, canonical: Url) {
    && step.Fetch? && step.page == Article(canonical) && step.w < |s'.workers| && s'.workers[step.w].Saving?
  }

  /** Some step before state `n` accepted the address. */
  predicate Accepted(states: seq<State>, steps: seq<Step>, n: nat, canonical: Url)
    requires n <= |steps| < |states|
  {
    exists i :: 0 <= i < n && Accepts(states[i], steps[i], states[i + 1], canonical)
  }

  lemma {:induction false} SeenIsAccepted(c: Config, states: seq<State>, steps: seq<Step>, n: nat, canonical: Url)
    requires Execution(c, states, steps) && n <= |steps|
    ensures canonical in states[n].canonicalSeen <==> Accepted(states, steps, n, canonical)
  {
    if n > 0 {
      SeenIsAccepted(c, states, steps, n - 1, canonical);
      SeenStep(c, states[n - 1], steps[n - 1], canonical);
      AcceptedStep(states, steps, n, canonical);
    }
  }

  lemma SeenStep(c: Config, s: State, step: Step, canonical: Url)
    requires Enabled(c, s, step)
    ensures canonical in Do(c, s, step).canonicalSeen <==>
              canonical in s.canonicalSeen || Accepts(s, step, Do(c, s, step), canonical)
  {
    hide Capped;
  }

  lemma AcceptedStep(states: seq<State>, steps: seq<Step>, n: nat, canonical: Url)
    requires 0 < n <= |steps| < |states|
    ensures Accepted(states, steps, n, canonical) <==>
              || Accepted(states, steps, n - 1, canonical)
              || Accepts(states[n - 1], steps[n - 1], states[n], canonical)
  {
    hide Accepts;
  }

  /**
   * A loaded article is skipped exactly when its address is not the page's own and an article of that address,
   * whichever worker had it, was accepted before; any other is saved.
   */
  lemma DuplicateIff(c: Config, states: seq<State>, steps: seq<Step>, n: nat, w: nat, canonical: Url)
    requires Execution(c, states, steps) && n < |steps| && steps[n] == Fetch(w, Article(canonical))
    ensures var before, after := states[n].workers[w], states[n + 1].workers[w];
            && (after.Skipping? <==>
                  canonical != UrlAt(c, before.at) && Accepted(states, steps, n, canonical))
            && (!after.Skipping? ==> after == Saving(before.at, before.attempt, canonical))
            && (after.Skipping? ==> states[n + 1].skipped == states[n].skipped + 1)
  {
    hide Accepted;
    SeenIsAccepted(c, states, steps, n, canonical);
  }

  // ------------------------------------------------------------ attempts

  /** A worker that is somewhere in an attempt at its URL. */
  predicate InAttempt(w: Worker) {
    w.Fetching? || w.Saving? || w.Skipping?
  }

  /** The step loads the page of index `at` once more. */
  predicate Loads(s: State, step: Step, at: nat) {
    step.Fetch? && step.w < |s.workers| && s.workers[step.w].Fetching? && s.workers[step.w].at == at
  }

  /** The step throws inside the attempt at index `at`: the page, its save or its skip record. */
  predicate ThrowsAt(s: State, step: Step, at: nat) {
    && step.w < |s.workers| && InAttempt(s.workers[step.w]) && s.workers[step.w].at == at
    && ((step.Fetch? && step.page.Throws?) || (step.SaveEnds? && !step.ok) || (step.SkipEnds? && !step.ok))
  }

  /** The step makes a worker report index `at` as an error. */
  predicate GivesUp(s: State, s': State, at: nat) {
    exists w :: 0 <= w < |s.workers| == |s'.workers| && s'.workers[w] == Reporting(at) && s.workers[w] != Reporting(at)
  }

  function LoadCount(states: seq<State>, steps: seq<Step>, n: nat, at: nat): nat
    requires n <= |steps| < |states|
  {
    if n == 0 then 0 else
      LoadCount(states, steps, n - 1, at) + if Loads(states[n - 1], steps[n - 1], at) then 1 else 0
  }

  function ThrowCount(states: seq<State>, steps: seq<Step>, n: nat, at: nat): nat
    requires n <= |steps| < |states|
  {
    if n == 0 then 0 else
      ThrowCount(states, steps, n - 1, at) + if ThrowsAt(states[n - 1], steps[n - 1], at) then 1 else 0
  }

  /** Up to state `n` index `at` was reported as an error. */
  predicate GivenUp(states: seq<State>, n: nat, at: nat)
    requires n < |states|
  {
    exists i :: 0 <= i < n && GivesUp(states[i], states[i + 1], at)
  }

  /** What the counts of an index say about the worker that has it. */
  ghost predicate Tallied(c: Config, s: State, at: nat, loads: nat, throws: nat, given: bool) {
    && loads <= c.retries + 1 && throws <= loads
    && (at >= |s.handed| ==> loads == 0)
    && (given <==> throws == c.retries + 1)
    && forall w :: 0 <= w < |s.workers| && Busy(s.workers[w]) && s.workers[w].at == at ==>
         TalliedBy(c, s.workers[w], loads, throws)
  }

  predicate TalliedBy(c: Config, w: Worker, loads: nat, throws: nat) {
    match w
    case Fetching(_, attempt) => attempt == throws + 1 == loads + 1 && attempt <= c.retries + 1
    case Saving(_, attempt, _) => attempt == throws + 1 == loads
    case Skipping(_, attempt) => attempt == throws + 1 == loads
    case Reporting(_) => throws == c.retries + 1
    case _ => true
  }

  /** The worker that takes the step. */
  lemma ActorTallies(c: Config, s: State, step: Step, at: nat, loads: nat, throws: nat, given: bool)
    requires Enabled(c, s, step) && HandInv(c, s) && Tallied(c, s, at, loads, throws, given)
    requires Busy(s.workers[step.w]) ==> s.workers[step.w].at < |s.handed|
    ensures var s', w := Do(c, s, step), step.w;
            var loads' := loads + if Loads(s, step, at) then 1 else 0;
            var throws' := throws + if ThrowsAt(s, step, at) then 1 else 0;
            && |s'.workers| == |s.workers| && |s.handed| <= |s'.handed|
            && (Busy(s'.workers[w]) && s'.workers[w].at == at ==> TalliedBy(c, s'.workers[w], loads', throws'))
            && loads' <= c.retries + 1 && throws' <= loads' && (at >= |s'.handed| ==> loads' == 0)
            && (throws' == c.retries + 1 <==>
                  given || (s'.workers[w] == Reporting(at) && s.workers[w] != Reporting(at)))
  {
    hide Capped;
  }

  /** Another worker that has the index is not disturbed: the step is not about this index. */
  lemma OthersTally(c: Config, s: State, step: Step, at: nat, v: nat)
    requires Enabled(c, s, step) && OwnerInv(c, s) && v < |s.workers| && v != step.w
    requires Busy(s.workers[v]) && s.workers[v].at == at
    ensures !Loads(s, step, at) && !ThrowsAt(s, step, at)
  {
  }

  lemma StepTallies(c: Config, s: State, step: Step, at: nat, loads: nat, throws: nat, given: bool)
    requires Enabled(c, s, step) && HandInv(c, s) && OwnerInv(c, s) && Tallied(c, s, at, loads, throws, given)
    ensures var s' := Do(c, s, step);
            Tallied(c, s', at, loads + (if Loads(s, step, at) then 1 else 0),
                    throws + (if ThrowsAt(s, step, at) then 1 else 0), given || GivesUp(s, s', at))
  {
    hide Do, Enabled, HandInv, OwnerInv, TalliedBy, Loads, ThrowsAt, GivesUp;
    var s', w := Do(c, s, step), step.w;
    OneWorkerSteps(c, s, step);
    HandedBefore(c, s, w);
    ActorTallies(c, s, step, at, loads, throws, given);
    GivesUpIff(s, s', w, at);
    forall v | 0 <= v < |s'.workers| && v != w && Busy(s'.workers[v]) && s'.workers[v].at == at
      ensures !Loads(s, step, at) && !ThrowsAt(s, step, at)
    {
      OthersTally(c, s, step, at, v);
    }
  }

  lemma HandedBefore(c: Config, s: State, w: nat)
    requires OwnerInv(c, s) && w < |s.workers|
    ensures Busy(s.workers[w]) ==> s.workers[w].at < |s.handed|
  {
  }

  lemma OneWorkerSteps(c: Config, s: State, step: Step)
    requires Enabled(c, s, step)
    ensures |Do(c, s, step).workers| == |s.workers| && step.w < |s.workers|
    ensures forall v :: 0 <= v < |s.workers| && v != step.w ==> Do(c, s, step).workers[v] == s.workers[v]
  {
    hide Capped;
  }

  lemma GivesUpIff(s: State, s': State, w: nat, at: nat)
    requires w < |s.workers| == |s'.workers|
    requires forall v :: 0 <= v < |s.workers| && v != w ==> s'.workers[v] == s.workers[v]
    ensures GivesUp(s, s', at) <==> s'.workers[w] == Reporting(at) && s.workers[w] != Reporting(at)
  {
  }

  lemma GivenUpStep(states: seq<State>, n: nat, at: nat)
    requires n + 1 < |states|
    ensures GivenUp(states, n + 1, at) <==> GivenUp(states, n, at) || GivesUp(states[n], states[n + 1], at)
  {
    hide GivesUp;
  }

  /**
   * Over every interleaving: the attempt a worker is at is one more than the throws its index has had, no index
   * is loaded more than `retries + 1` times, and an index is given up exactly when all its attempts threw.
   */
  lemma {:induction false} AttemptsCount(c: Config, states: seq<State>, steps: seq<Step>, n: nat, at: nat)
    requires c.concurrency >= 1 && Execution(c, states, steps) && n <= |steps|
    ensures var s, loads, throws := states[n], LoadCount(states, steps, n, at), ThrowCount(states, steps, n, at);
            && loads <= c.retries + 1
            && (GivenUp(states, n, at) <==> throws == c.retries + 1)
            && (forall w :: 0 <= w < |s.workers| && InAttempt(s.workers[w]) && s.workers[w].at == at ==>
                  s.workers[w].attempt == throws + 1)
            && Tallied(c, s, at, loads, throws, GivenUp(states, n, at))
  {
    hide Do, OwnerInv, HandInv, CountInv, ClaimInv, GivenUp, Loads, ThrowsAt;
    if n == 0 {
      hide *;
      NothingTallied(c, states, at);
      CountsNothing(states, steps, at);
      TallyMeans(c, states[0], at, 0, 0, GivenUp(states, 0, at));
    } else {
      AttemptsCount(c, states, steps, n - 1, at);
      RunKeepsInv(c, states, steps, n - 1);
      GivenUpStep(states, n - 1, at);
      hide Tallied;
      StepTallies(c, states[n - 1], steps[n - 1], at, LoadCount(states, steps, n - 1, at),
                  ThrowCount(states, steps, n - 1, at), GivenUp(states, n - 1, at));
      TallyMeans(c, states[n], at, LoadCount(states, steps, n, at), ThrowCount(states, steps, n, at),
                 GivenUp(states, n, at));
    }
  }

  lemma TallyMeans(c: Config, s: State, at: nat, loads: nat, throws: nat, given: bool)
    requires Tallied(c, s, at, loads, throws, given)
    ensures loads <= c.retries + 1 && (given <==> throws == c.retries + 1)
    ensures forall w :: 0 <= w < |s.workers| && InAttempt(s.workers[w]) && s.workers[w].at == at ==>
              s.workers[w].attempt == throws + 1
  {
  }

  lemma CountsNothing(states: seq<State>, steps: seq<Step>, at: nat)
    requires |steps| < |states|
    ensures LoadCount(states, steps, 0, at) == 0 && ThrowCount(states, steps, 0, at) == 0
  {
  }

  lemma NothingTallied(c: Config, states: seq<State>, at: nat)
    requires |states| > 0 && states[0] == InitState(c)
    ensures Tallied(c, states[0], at, 0, 0, GivenUp(states, 0, at))
  {
  }

  /** A worker is stopped by a failure exactly when its error record could not be appended. */
  lemma {:induction false} CrashedIff(c: Config, states: seq<State>, steps: seq<Step>, n: nat, w: nat)
    requires Execution(c, states, steps) && n <= |steps| && w < |states[n].workers|
    ensures states[n].workers[w] == Stopped(true) <==> exists i :: 0 <= i < n && steps[i] == ReportEnds(w, false)
  {
    hide Do, Enabled;
    if n > 0 {
      var s, step := states[n - 1], steps[n - 1];
      OneWorkerSteps(c, s, step);
      CrashedIff(c, states, steps, n - 1, w);
      CrashStep(c, s, step, w);
    } else {
      NobodyCrashed(c, w);
    }
  }

  lemma NobodyCrashed(c: Config, w: nat)
    requires w < |InitState(c).workers|
    ensures InitState(c).workers[w] == Ready
  {
  }

  lemma CrashStep(c: Config, s: State, step: Step, w: nat)
    requires Enabled(c, s, step) && w < |s.workers|
    ensures |Do(c, s, step).workers| == |s.workers|
    ensures Do(c, s, step).workers[w] == Stopped(true) <==>
              s.workers[w] == Stopped(true) || step == ReportEnds(w, false)
  {
    hide Capped;
  }

  // ------------------------------------------------------------ every crawl ends

  /** How many more steps a worker can take before it is ready again, and one to stop. */
  function Ahead(c: Config, w: Worker): nat {
    match w
    case Ready => 1
    case Fetching(_, attempt) => if attempt <= c.retries then 2 * (c.retries + 1 - attempt) + 4 else 4
    case Saving(_, attempt, _) => if attempt <= c.retries then 2 * (c.retries + 1 - attempt) + 3 else 3
    case Skipping(_, attempt) => if attempt <= c.retries then 2 * (c.retries + 1 - attempt) + 3 else 3
    case Reporting(_) => 2
    case Stopped(_) => 0
  }

  function AheadOf(c: Config, ws: seq<Worker>): nat {
    if ws == [] then 0 else AheadOf(c, ws[..|ws| - 1]) + Ahead(c, ws[|ws| - 1])
  }

  lemma {:induction false} AheadUpdate(c: Config, ws: seq<Worker>, i: nat, x: Worker)
    requires i < |ws|
    ensures AheadOf(c, ws[i := x]) + Ahead(c, ws[i]) == AheadOf(c, ws) + Ahead(c, x)
  {
    hide Ahead;
    var n := |ws| - 1;
    if i == n {
      assert ws[i := x][..n] == ws[..n];
    } else {
      assert ws[i := x][..n] == ws[..n][i := x];
      AheadUpdate(c, ws[..n], i, x);
    }
  }

  /** The steps an untouched URL costs: every attempt loads and saves, the last one is reported. */
  function PerUrl(c: Config): nat {
    2 * c.retries + 4
  }

  function StepsLeft(c: Config, s: State): nat {
    (if |s.handed| <= |c.pending| then |c.pending| - |s.handed| else 0) * PerUrl(c) + AheadOf(c, s.workers)
  }

  lemma StepsShrink(c: Config, s: State, step: Step)
    requires Enabled(c, s, step) && HandInv(c, s)
    ensures StepsLeft(c, Do(c, s, step)) < StepsLeft(c, s)
  {
    hide AheadOf, Capped, Count;
    var s', w := Do(c, s, step), step.w;
    assert s'.workers == s.workers[w := s'.workers[w]];
    AheadUpdate(c, s.workers, w, s'.workers[w]);
    if |s'.handed| != |s.handed| { OneLess(|c.pending| - |s.handed|, PerUrl(c)); }
  }

  lemma OneLess(n: int, m: int)
    ensures (n - 1) * m == n * m - m
  {
  }

  /** However the workers interleave, a crawl has at most `2 * retries + 4` steps a URL, and one a worker to stop. */
  lemma {:induction false} CrawlEnds(c: Config, states: seq<State>, steps: seq<Step>, n: nat)
    requires c.concurrency >= 1 && Execution(c, states, steps) && n <= |steps|
    ensures n + StepsLeft(c, states[n]) <= |c.pending| * PerUrl(c) + c.Workers()
    ensures n <= |c.pending| * (2 * c.retries + 4) + |states[n].workers|
    ensures var wanted := if |c.pending| == 0 then 1 else |c.pending|;
            |states[n].workers| == if c.concurrency <= wanted then c.concurrency else wanted
  {
    hide Do, OwnerInv, StopsHold, ClaimInv, StepsLeft, PerUrl;
    RunKeepsInv(c, states, steps, n);
    hide CountInv;
    if n == 0 {
      FreshStart(c);
    } else {
      CrawlEnds(c, states, steps, n - 1);
      RunKeepsInv(c, states, steps, n - 1);
      StepsShrink(c, states[n - 1], steps[n - 1]);
    }
    PerUrlIs(c);
  }

  lemma PerUrlIs(c: Config)
    ensures PerUrl(c) == 2 * c.retries + 4
  {
  }

  lemma FreshStart(c: Config)
    ensures StepsLeft(c, InitState(c)) == |c.pending| * PerUrl(c) + c.Workers()
  {
    hide PerUrl;
    AllReady(c, InitState(c).workers);
  }

  lemma {:induction false} AllReady(c: Config, ws: seq<Worker>)
    requires forall i :: 0 <= i < |ws| ==> ws[i] == Ready
    ensures AheadOf(c, ws) == |ws|
  {
    if ws != [] { AllReady(c, ws[..|ws| - 1]); }
  }

  // ------------------------------------------------------------ the shared state of a crawl

  class Crawl {
    const config: Config
    var workers: seq<Worker>
    var cursor: nat
    var attempted: nat
    var articles: nat
    var skipped: nat
    var errors: nat
    var canonicalSeen: set<Url>
    ghost var handed: seq<nat>
    ghost var saved: seq<Saved>
    ghost var claims: map<Url, nat>
    ghost var recounted: nat

    ghost function Snapshot(): State
      reads this
    {
      State(workers, cursor, attempted, articles, skipped, errors, canonicalSeen, handed, saved, claims, recounted)
    }

    constructor (c: Config)
      ensures config == c && Snapshot() == InitState(c)
      ensures c.concurrency >= 1 ==> Inv(config, Snapshot())
    {
      config := c;
      workers := seq(c.Workers(), _ => Ready);
      cursor, attempted, articles, skipped, errors, canonicalSeen := 0, 0, 0, 0, 0, {};
      handed, saved, claims, recounted := [], [], map[], 0;
      new;
      if c.concurrency >= 1 { InitInv(c); }
    }

    /** `nextUrl`: the index handed out, if any. */
    method NextUrl() returns (at: Option<nat>)
      modifies this`cursor
      ensures at.Some? ==>
                && (config.maxArticles > 0 ==> articles < config.maxArticles)
                && (config.maxAttempts > 0 ==> attempted < config.maxAttempts)
                && at.value == old(cursor) < |config.pending| && cursor == old(cursor) + 1
      ensures at.None? ==>
                if (config.maxArticles > 0 && articles >= config.maxArticles)
                   || (config.maxAttempts > 0 && attempted >= config.maxAttempts) then cursor == old(cursor)
                else old(cursor) >= |config.pending| && cursor == old(cursor) + 1
    {
      if config.maxArticles > 0 && articles >= config.maxArticles { return None; }
      if config.maxAttempts > 0 && attempted >= config.maxAttempts { return None; }
      at := if cursor < |config.pending| then Some(cursor) else None;
      cursor := cursor + 1;
    }

    method Take(w: nat)
      requires Inv(config, Snapshot()) && Enabled(config, Snapshot(), Step.Take(w))
      modifies this
      ensures Snapshot() == Do(config, old(Snapshot()), Step.Take(w)) && Inv(config, Snapshot())
    {
      hide Inv;
      StepKeepsInv(config, Snapshot(), Step.Take(w));
      var at := NextUrl();
      if at.None? {
        workers := workers[w := Stopped(false)];
      } else {
        attempted := attempted + 1;
        handed := handed + [at.value];
        workers := workers[w := Fetching(at.value, 1)];
      }
    }

    method Catch(w: nat, at: nat, attempt: nat)
      requires w < |workers|
      modifies this`workers, this`errors
      ensures Snapshot() == Caught(config, old(Snapshot()), w, at, attempt)
    {
      if attempt <= config.retries {
        workers := workers[w := Fetching(at, attempt + 1)];
      } else {
        errors := errors + 1;
        workers := workers[w := Reporting(at)];
      }
    }

    method Fetched(w: nat, page: Fetched)
      requires Inv(config, Snapshot()) && Enabled(config, Snapshot(), Fetch(w, page))
      modifies this
      ensures Snapshot() == Do(config, old(Snapshot()), Fetch(w, page)) && Inv(config, Snapshot())
    {
      hide Inv;
      StepKeepsInv(config, Snapshot(), Fetch(w, page));
      var at, attempt := workers[w].at, workers[w].attempt;
      match page
      case Throws => Catch(w, at, attempt);
      case NotArticle =>
        skipped := skipped + 1;
        workers := workers[w := Skipping(at, attempt)];
      case Article(canonical) =>
        if canonical in canonicalSeen && canonical != UrlAt(config, at) {
          skipped := skipped + 1;
          workers := workers[w := Skipping(at, attempt)];
        } else {
          canonicalSeen := canonicalSeen + {canonical};
          if canonical != UrlAt(config, at) { claims := claims[canonical := at]; }
          workers := workers[w := Saving(at, attempt, canonical)];
        }
    }

    method SaveEnded(w: nat, ok: bool)
      requires Inv(config, Snapshot()) && Enabled(config, Snapshot(), SaveEnds(w, ok))
      modifies this
      ensures Snapshot() == Do(config, old(Snapshot()), SaveEnds(w, ok)) && Inv(config, Snapshot())
    {
      hide Inv;
      StepKeepsInv(config, Snapshot(), SaveEnds(w, ok));
      var at, attempt, canonical := workers[w].at, workers[w].attempt, workers[w].canonical;
      if ok {
        articles := articles + 1;
        saved := saved + [Saved(at, canonical)];
        workers := workers[w := Ready];
      } else {
        Catch(w, at, attempt);
      }
    }

    method SkipEnded(w: nat, ok: bool)
      requires Inv(config, Snapshot()) && Enabled(config, Snapshot(), SkipEnds(w, ok))
      modifies this
      ensures Snapshot() == Do(config, old(Snapshot()), SkipEnds(w, ok)) && Inv(config, Snapshot())
    {
      hide Inv;
      StepKeepsInv(config, Snapshot(), SkipEnds(w, ok));
      var at, attempt := workers[w].at, workers[w].attempt;
      if ok {
        workers := workers[w := Ready];
      } else {
        recounted := recounted + 1;
        Catch(w, at, attempt);
      }
    }

    method ReportEnded(w: nat, ok: bool)
      requires Inv(config, Snapshot()) && Enabled(config, Snapshot(), ReportEnds(w, ok))
      modifies this
      ensures Snapshot() == Do(config, old(Snapshot()), ReportEnds(w, ok)) && Inv(config, Snapshot())
    {
      hide Inv;
      StepKeepsInv(config, Snapshot(), ReportEnds(w, ok));
      workers := workers[w := if ok then Ready else Stopped(true)];
    }
  }
}
