/** Which links found on the archive pages are articles, and which are site-wide links. */
module ArchiveFilter {
  import opened Common

  /** The addresses of one archive page's article candidates, in page order, repeats included. */
  type Page = seq<string>

  // ------------------------------------------------------------ the reference

  /** The members of `s`, each once, in the order they were first seen. */
  function Distinct(s: seq<string>): seq<string> {
    if s == [] then [] else
      var before := Distinct(s[..|s| - 1]);
      if s[|s| - 1] in before then before else before + [s[|s| - 1]]
  }

  function Flat(pages: seq<Page>): seq<string> {
    if pages == [] then [] else Flat(pages[..|pages| - 1]) + pages[|pages| - 1]
  }

  /** On how many pages an address occurs. */
  function PagesWith(pages: seq<Page>, url: string): nat {
    if pages == [] then 0 else
      PagesWith(pages[..|pages| - 1], url) + if url in pages[|pages| - 1] then 1 else 0
  }

  /** The part of `urls` that is on more than `threshold` pages, or on at most that many. */
  function Split(urls: seq<string>, pages: seq<Page>, threshold: nat, above: bool): seq<string> {
    if urls == [] then [] else
      var u := urls[|urls| - 1];
      Split(urls[..|urls| - 1], pages, threshold, above)
      + if (PagesWith(pages, u) > threshold) == above then [u] else []
  }

  function Sum(pages: seq<Page>): nat {
    if pages == [] then 0 else Sum(pages[..|pages| - 1]) + |Distinct(pages[|pages| - 1])|
  }

  // ------------------------------------------------------------ the loops

  lemma DistinctStep(s: seq<string>, u: string)
    ensures Distinct(s + [u]) == if u in Distinct(s) then Distinct(s) else Distinct(s) + [u]
  {
    assert (s + [u])[..|s|] == s;
  }

  lemma ScanStep(before: seq<string>, page: seq<string>, i: nat)
    requires i < |page|
    ensures Distinct(before + page[..i + 1]) ==
            if page[i] in Distinct(before + page[..i]) then Distinct(before + page[..i])
            else Distinct(before + page[..i]) + [page[i]]
    ensures Distinct(page[..i + 1]) == if page[i] in Distinct(page[..i]) then Distinct(page[..i])
                                       else Distinct(page[..i]) + [page[i]]
  {
    hide Distinct;
    DistinctStep(before + page[..i], page[i]);
    DistinctStep(page[..i], page[i]);
    assert before + page[..i] + [page[i]] == before + page[..i + 1];
    assert page[..i] + [page[i]] == page[..i + 1];
  }

  /** The candidates of one page: new ones join `ordered`; the page's own set is returned. */
  method ScanPage(page: Page, ordered: seq<string>, ghost before: seq<string>)
    returns (grown: seq<string>, seenOnPage: seq<string>)
    requires ordered == Distinct(before)
    ensures grown == Distinct(before + page) && seenOnPage == Distinct(page)
  {
    hide Distinct;
    grown, seenOnPage := ordered, [];
    var i := 0;
    assert before + page[..0] == before;
    assert Distinct([]) == [] by { DistinctEmpty(); }
    while i < |page|
      invariant 0 <= i <= |page|
      invariant grown == Distinct(before + page[..i])
      invariant seenOnPage == Distinct(page[..i])
    {
      ScanStep(before, page, i);
      if page[i] !in grown { grown := grown + [page[i]]; }
      if page[i] !in seenOnPage { seenOnPage := seenOnPage + [page[i]]; }
      i := i + 1;
    }
    assert page[..i] == page;
  }

  ghost function PagesOf(pages: seq<Page>, url: string): set<nat> {
    set i: nat | i < |pages| && url in pages[i]
  }

  /** The count of an address is the number of pages it is on, however often it is there. */
  lemma {:induction false} PagesWithIs(pages: seq<Page>, url: string)
    ensures PagesWith(pages, url) == |PagesOf(pages, url)|
  {
    if pages == [] {
      assert PagesOf(pages, url) == {};
    } else {
      var n := |pages| - 1;
      PagesWithIs(pages[..n], url);
      assert PagesOf(pages, url) == PagesOf(pages[..n], url) + if url in pages[n] then {n} else {};
    }
  }

  lemma DistinctEmpty()
    ensures Distinct([]) == []
  {
  }

  /** `pageFrequency.get(url) ?? 0`. */
  function Count(pageFrequency: map<string, nat>, url: string): nat {
    if url in pageFrequency then pageFrequency[url] else 0
  }

  method CountPage(pageFrequency: map<string, nat>, seenOnPage: seq<string>) returns (counted: map<string, nat>)
    requires NoDup(seenOnPage)
    ensures forall u :: Count(counted, u) == Count(pageFrequency, u) + if u in seenOnPage then 1 else 0
  {
    counted := pageFrequency;
    var i := 0;
    while i < |seenOnPage|
      invariant 0 <= i <= |seenOnPage|
      invariant forall u :: Count(counted, u) == Count(pageFrequency, u) + if u in seenOnPage[..i] then 1 else 0
    {
      var url := seenOnPage[i];
      assert url !in seenOnPage[..i];
      assert seenOnPage[..i + 1] == seenOnPage[..i] + [url];
      counted := counted[url := Count(counted, url) + 1];
      i := i + 1;
    }
    assert seenOnPage[..i] == seenOnPage;
  }

  method CountCandidates(records: seq<Page>) returns (ordered: seq<string>, pageFrequency: map<string, nat>)
    ensures ordered == Distinct(Flat(records))
    ensures forall u :: Count(pageFrequency, u) == PagesWith(records, u)
  {
    hide Distinct, Count;
    ordered, pageFrequency := [], map[];
    var i := 0;
    Nothing(records);
    while i < |records|
      invariant 0 <= i <= |records|
      invariant ordered == Distinct(Flat(records[..i]))
      invariant forall u :: Count(pageFrequency, u) == PagesWith(records[..i], u)
    {
      var seenOnPage;
      ordered, seenOnPage := ScanPage(records[i], ordered, Flat(records[..i]));
      DistinctOnce(records[i]);
      pageFrequency := CountPage(pageFrequency, seenOnPage);
      assert records[..i + 1][..i] == records[..i];
      i := i + 1;
    }
    assert records[..i] == records;
  }

  lemma Nothing(records: seq<Page>)
    ensures Distinct(Flat(records[..0])) == []
    ensures forall u :: Count(map[], u) == PagesWith(records[..0], u)
  {
  }

  /** `threshold` stands for the larger of 3 and a twentieth of the number of pages. */
  method FilterArchiveCandidates(records: seq<Page>, threshold: nat)
    returns (urls: seq<string>, suppressedGlobalUrls: seq<string>)
    ensures suppressedGlobalUrls == Split(Distinct(Flat(records)), records, threshold, true)
    ensures urls == Split(Distinct(Flat(records)), records, threshold, false)
  {
    hide Distinct, PagesWith, Count;
    var ordered, pageFrequency := CountCandidates(records);
    suppressedGlobalUrls := [];
    var i := 0;
    while i < |ordered|
      invariant 0 <= i <= |ordered|
      invariant suppressedGlobalUrls == Split(ordered[..i], records, threshold, true)
    {
      assert ordered[..i + 1][..i] == ordered[..i];
      if Count(pageFrequency, ordered[i]) > threshold { suppressedGlobalUrls := suppressedGlobalUrls + [ordered[i]]; }
      i := i + 1;
    }
    assert ordered[..i] == ordered;
    urls := DropAll(ordered, suppressedGlobalUrls, records, threshold);
  }

  method DropAll(ordered: seq<string>, suppressed: seq<string>, ghost records: seq<Page>, ghost threshold: nat)
    returns (urls: seq<string>)
    requires suppressed == Split(ordered, records, threshold, true)
    ensures urls == Split(ordered, records, threshold, false)
  {
    hide PagesWith;
    urls := [];
    var i := 0;
    while i < |ordered|
      invariant 0 <= i <= |ordered|
      invariant urls == Split(ordered[..i], records, threshold, false)
    {
      assert ordered[..i + 1][..i] == ordered[..i];
      SplitHolds(ordered, records, threshold, true, ordered[i]);
      if ordered[i] !in suppressed { urls := urls + [ordered[i]]; }
      i := i + 1;
    }
    assert ordered[..i] == ordered;
  }

  // ------------------------------------------------------------ what the filter keeps

  lemma {:induction false} DistinctOnce(s: seq<string>)
    ensures NoDup(Distinct(s))
    ensures forall u :: u in Distinct(s) <==> u in s
  {
    if s != [] {
      var before := s[..|s| - 1];
      DistinctOnce(before);
      NoDupStep(Distinct(before), s[|s| - 1]);
      assert s == before + [s[|s| - 1]];
    }
  }

  lemma {:induction false} SplitHolds(urls: seq<string>, pages: seq<Page>, threshold: nat, above: bool, u: string)
    ensures u in Split(urls, pages, threshold, above) <==> u in urls && (PagesWith(pages, u) > threshold) == above
  {
    hide PagesWith;
    if urls != [] {
      SplitHolds(urls[..|urls| - 1], pages, threshold, above, u);
      assert urls == urls[..|urls| - 1] + [urls[|urls| - 1]];
    }
  }

  lemma {:induction false} SplitOnce(urls: seq<string>, pages: seq<Page>, threshold: nat, above: bool)
    requires NoDup(urls)
    ensures NoDup(Split(urls, pages, threshold, above))
  {
    hide PagesWith;
    if urls != [] {
      var u := urls[|urls| - 1];
      var before := urls[..|urls| - 1];
      assert urls == before + [u];
      NoDupStep(before, u);
      SplitOnce(before, pages, threshold, above);
      SplitHolds(before, pages, threshold, above, u);
      NoDupStep(Split(before, pages, threshold, above), u);
    }
  }

  lemma {:induction false} SplitAddsUp(urls: seq<string>, pages: seq<Page>, threshold: nat)
    ensures |Split(urls, pages, threshold, true)| + |Split(urls, pages, threshold, false)| == |urls|
  {
    hide PagesWith;
    if urls != [] { SplitAddsUp(urls[..|urls| - 1], pages, threshold); }
  }

  /** A distinct candidate is suppressed exactly when it is on more than `threshold` pages, and kept otherwise. */
  lemma KeptAndSuppressedPartition(pages: seq<Page>, threshold: nat, u: string)
    ensures var all := Distinct(Flat(pages));
            var kept := Split(all, pages, threshold, false);
            var suppressed := Split(all, pages, threshold, true);
            && NoDup(all) && NoDup(kept) && NoDup(suppressed)
            && |kept| + |suppressed| == |all|
            && (u in suppressed <==> (exists p :: p in pages && u in p) && PagesWith(pages, u) > threshold)
            && (u in kept <==> (exists p :: p in pages && u in p) && PagesWith(pages, u) <= threshold)
  {
    hide Distinct, PagesWith, Split, Flat;
    var all := Distinct(Flat(pages));
    DistinctOnce(Flat(pages));
    SplitOnce(all, pages, threshold, true);
    SplitOnce(all, pages, threshold, false);
    SplitAddsUp(all, pages, threshold);
    SplitHolds(all, pages, threshold, true, u);
    SplitHolds(all, pages, threshold, false, u);
    FlatHolds(pages, u);
  }

  lemma {:induction false} FlatHolds(pages: seq<Page>, u: string)
    ensures u in Flat(pages) <==> exists p :: p in pages && u in p
  {
    if pages != [] {
      FlatHolds(pages[..|pages| - 1], u);
      assert pages == pages[..|pages| - 1] + [pages[|pages| - 1]];
    }
  }

  /** Both lists keep the first-seen order: the result is a subsequence of the distinct candidates. */
  lemma {:induction false} SplitInOrder(urls: seq<string>, pages: seq<Page>, threshold: nat, above: bool, i: nat,
        j: nat)
    requires i < j < |Split(urls, pages, threshold, above)|
    ensures exists a, b ::
              0 <= a < b < |urls|
              && urls[a] == Split(urls, pages, threshold, above)[i]
              && urls[b] == Split(urls, pages, threshold, above)[j]
  {
    hide PagesWith;
    var n := |urls| - 1;
    var part := Split(urls, pages, threshold, above);
    var before := Split(urls[..n], pages, threshold, above);
    if j < |before| {
      SplitInOrder(urls[..n], pages, threshold, above, i, j);
      var a, b :| 0 <= a < b < n && urls[..n][a] == before[i] && urls[..n][b] == before[j];
      assert urls[a] == part[i] && urls[b] == part[j];
    } else {
      assert before[i] in before;
      SplitHolds(urls[..n], pages, threshold, above, before[i]);
      var a :| 0 <= a < n && urls[..n][a] == before[i];
      assert urls[a] == part[i] && urls[n] == part[j];
    }
  }

  /** First-seen order: an earlier candidate is one whose first sighting is earlier. */
  lemma {:induction false} DistinctIsFirstSeen(s: seq<string>, k: nat)
    requires k < |Distinct(s)|
    ensures exists at :: 0 <= at < |s| && s[at] == Distinct(s)[k] && Distinct(s[..at]) == Distinct(s)[..k]
  {
    var n := |s| - 1;
    var before := Distinct(s[..n]);
    if k < |before| {
      DistinctIsFirstSeen(s[..n], k);
      var at :| 0 <= at < n && s[..n][at] == before[k] && Distinct(s[..n][..at]) == before[..k];
      assert s[..n][..at] == s[..at];
      assert Distinct(s)[..k] == before[..k];
    } else {
      assert Distinct(s) == before + [s[n]];
      assert Distinct(s)[..k] == before;
    }
  }

  // ------------------------------------------------------------ how much can be suppressed

  lemma {:induction false} AtMostEveryPage(pages: seq<Page>, u: string)
    ensures PagesWith(pages, u) <= |pages|
  {
    if pages != [] { AtMostEveryPage(pages[..|pages| - 1], u); }
  }

  /** No address is on more pages than there are; with a threshold of at least 3, three pages suppress nothing. */
  lemma FewPagesSuppressNothing(pages: seq<Page>, threshold: nat)
    requires |pages| <= threshold
    ensures Split(Distinct(Flat(pages)), pages, threshold, true) == []
  {
    hide Distinct, PagesWith, Split, Flat;
    var suppressed := Split(Distinct(Flat(pages)), pages, threshold, true);
    if suppressed != [] {
      AtMostEveryPage(pages, suppressed[0]);
      SplitHolds(Distinct(Flat(pages)), pages, threshold, true, suppressed[0]);
      assert false;
    }
  }

  /** The sightings of the addresses `us`, counted address by address. */
  function Sightings(us: seq<string>, pages: seq<Page>): nat {
    if us == [] then 0 else Sightings(us[..|us| - 1], pages) + PagesWith(pages, us[|us| - 1])
  }

  /** Those of `us` that are on one page. */
  function OnPage(us: seq<string>, page: Page): nat {
    if us == [] then 0 else OnPage(us[..|us| - 1], page) + if us[|us| - 1] in page then 1 else 0
  }

  lemma {:induction false} SightingsStep(us: seq<string>, pages: seq<Page>)
    requires pages != []
    ensures Sightings(us, pages) == Sightings(us, pages[..|pages| - 1]) + OnPage(us, pages[|pages| - 1])
  {
    if us != [] { SightingsStep(us[..|us| - 1], pages); }
  }

  lemma {:induction false} NoSightings(us: seq<string>)
    ensures Sightings(us, []) == 0
  {
    if us != [] { NoSightings(us[..|us| - 1]); }
  }

  lemma {:induction false} OnPageIsASubset(us: seq<string>, page: Page) returns (here: set<string>)
    requires NoDup(us)
    ensures |here| == OnPage(us, page)
    ensures forall u :: u in here ==> u in us && u in page
  {
    here := {};
    if us != [] {
      var u := us[|us| - 1];
      var before := us[..|us| - 1];
      assert us == before + [u];
      NoDupStep(before, u);
      here := OnPageIsASubset(before, page);
      assert u !in here;
      here := if u in page then here + {u} else here;
    }
  }

  lemma OnPageAtMostDistinct(us: seq<string>, page: Page)
    requires NoDup(us)
    ensures OnPage(us, page) <= |Distinct(page)|
  {
    hide Distinct, OnPage;
    var here := OnPageIsASubset(us, page);
    DistinctOnce(page);
    NoDupCard(Distinct(page));
    SubsetCard(here, Elements(Distinct(page)));
  }

  /** Counting address by address never exceeds counting page by page. */
  lemma {:induction false} SightingsAtMostSum(us: seq<string>, pages: seq<Page>)
    requires NoDup(us)
    ensures Sightings(us, pages) <= Sum(pages)
  {
    hide Distinct, OnPage, Sightings;
    if pages == [] {
      NoSightings(us);
    } else {
      SightingsAtMostSum(us, pages[..|pages| - 1]);
      SightingsStep(us, pages);
      OnPageAtMostDistinct(us, pages[|pages| - 1]);
    }
  }

  lemma {:induction false} EachSeenOften(us: seq<string>, pages: seq<Page>, least: nat)
    requires forall i :: 0 <= i < |us| ==> PagesWith(pages, us[i]) >= least
    ensures Sightings(us, pages) >= |us| * least
  {
    hide PagesWith;
    if us != [] {
      EachSeenOften(us[..|us| - 1], pages, least);
      assert |us| * least == (|us| - 1) * least + least;
    }
  }

  /**
   * Suppressing is bounded by what the pages show: every suppressed address uses up more than `threshold` sightings.
   */
  lemma SuppressedBound(pages: seq<Page>, threshold: nat)
    ensures |Split(Distinct(Flat(pages)), pages, threshold, true)| * (threshold + 1) <= Sum(pages)
  {
    hide Distinct, PagesWith, Split, Flat, Sum, Sightings;
    var all := Distinct(Flat(pages));
    var suppressed := Split(all, pages, threshold, true);
    DistinctOnce(Flat(pages));
    SplitOnce(all, pages, threshold, true);
    forall i | 0 <= i < |suppressed| ensures PagesWith(pages, suppressed[i]) >= threshold + 1 {
      SplitHolds(all, pages, threshold, true, suppressed[i]);
    }
    EachSeenOften(suppressed, pages, threshold + 1);
    SightingsAtMostSum(suppressed, pages);
  }
}
