/** The Advanced Search tab: every page is scanned for the literal search term,
    case-insensitively, and each occurrence yields one result holding the page
    number and the page text around it. */
module Search {
  import opened Text

  /** Characters of context kept on each side of an occurrence. */
  const ContextRadius: nat := 100

  /** One search result: the 1-based page number and the context around the occurrence. */
  datatype Hit = Hit(page: nat, context: string)

  /** The term occurs (ignoring ASCII case) in `text` starting at index `p`. */
  predicate MatchAt(text: string, term: string, p: nat) {
    p + |term| <= |text| && forall k :: 0 <= k < |term| ==> SameLetter(text[p + k], term[k])
  }

  /** `finditer` for a literal, non-empty pattern from index `pos` on: the leftmost
      occurrence, then the scan resumes where that occurrence ends. */
  function MatchesFrom(text: string, term: string, pos: nat): (ms: seq<nat>)
    requires |term| > 0
    ensures forall i :: 0 <= i < |ms| ==> pos <= ms[i] && MatchAt(text, term, ms[i])
    ensures forall i :: 0 <= i < |ms| - 1 ==> ms[i] + |term| <= ms[i + 1]
    decreases |text| - pos
  {
    if pos + |term| > |text| then []
    else if MatchAt(text, term, pos) then [pos] + MatchesFrom(text, term, pos + |term|)
    else MatchesFrom(text, term, pos + 1)
  }

  /** The starts of the occurrences `pattern.finditer(text)` reports. */
  function Matches(text: string, term: string): seq<nat>
    requires |term| > 0
  {
    MatchesFrom(text, term, 0)
  }

  /** No occurrence starts in `[lo, hi)`. */
  ghost predicate NoMatchBetween(text: string, term: string, lo: nat, hi: nat) {
    forall q :: lo <= q < hi ==> !MatchAt(text, term, q)
  }

  /** No occurrence starts at `lo` or later. */
  ghost predicate NoMatchFrom(text: string, term: string, lo: nat) {
    forall q :: lo <= q ==> !MatchAt(text, term, q)
  }

  /** `ms`, read as the occurrences a scan from `pos` reported, missed none it should
      have reported: nothing before the first, nothing in a gap between the end of
      one and the start of the next, nothing after the end of the last. */
  ghost predicate ScanComplete(text: string, term: string, pos: nat, ms: seq<nat>) {
    (ms == [] ==> NoMatchFrom(text, term, pos))
    && (ms != [] ==> NoMatchBetween(text, term, pos, ms[0]))
    && (ms != [] ==> NoMatchFrom(text, term, ms[|ms| - 1] + |term|))
    && (forall i :: 0 <= i < |ms| - 1 ==> NoMatchBetween(text, term, ms[i] + |term|, ms[i + 1]))
  }

  lemma ScanCompleteAfterMatch(text: string, term: string, pos: nat, rest: seq<nat>)
    requires |term| > 0
    requires ScanComplete(text, term, pos + |term|, rest)
    ensures ScanComplete(text, term, pos, [pos] + rest)
  {
    var ms := [pos] + rest;
    forall i | 0 <= i < |ms| - 1
      ensures NoMatchBetween(text, term, ms[i] + |term|, ms[i + 1])
    {
      if i > 0 {
        assert ms[i] == rest[i - 1] && ms[i + 1] == rest[i];
      }
    }
  }

  lemma ScanCompleteAfterMiss(text: string, term: string, pos: nat, ms: seq<nat>)
    requires !MatchAt(text, term, pos)
    requires ScanComplete(text, term, pos + 1, ms)
    ensures ScanComplete(text, term, pos, ms)
  {
  }

  /** The scan is leftmost-first: every occurrence at `pos` or later that the scan
      does not report overlaps one that it does report. */
  lemma {:induction false} MatchesFromLeftmost(text: string, term: string, pos: nat)
    requires |term| > 0
    ensures ScanComplete(text, term, pos, MatchesFrom(text, term, pos))
    decreases |text| - pos
  {
    if pos + |term| > |text| {
      assert NoMatchFrom(text, term, pos);
    } else if MatchAt(text, term, pos) {
      MatchesFromLeftmost(text, term, pos + |term|);
      ScanCompleteAfterMatch(text, term, pos, MatchesFrom(text, term, pos + |term|));
    } else {
      MatchesFromLeftmost(text, term, pos + 1);
      ScanCompleteAfterMiss(text, term, pos, MatchesFrom(text, term, pos + 1));
    }
  }

  /** The context window around an occurrence spanning `[mStart, mEnd)` of a text
      of length `textLen`: up to `ContextRadius` characters on each side, clipped
      to the text. */
  function Window(textLen: nat, mStart: nat, mEnd: nat): (w: (nat, nat))
    requires mStart <= mEnd <= textLen
    ensures 0 <= w.0 <= mStart && mEnd <= w.1 <= textLen
    ensures mStart - w.0 <= ContextRadius && w.1 - mEnd <= ContextRadius
    // as wide as allowed: clipped only by the ends of the text
    ensures w.0 == 0 || mStart - w.0 == ContextRadius
    ensures w.1 == textLen || w.1 - mEnd == ContextRadius
  {
    var s := if mStart >= ContextRadius then mStart - ContextRadius else 0;
    var e := if mEnd + ContextRadius <= textLen then mEnd + ContextRadius else textLen;
    (s, e)
  }

  /** The page text around the occurrence of `term` that starts at `m`. */
  function Context(text: string, term: string, m: nat): (c: string)
    requires MatchAt(text, term, m)
    ensures var w := Window(|text|, m, m + |term|);
      c == text[w.0..w.1] && c[m - w.0..m - w.0 + |term|] == text[m..m + |term|]
  {
    var w := Window(|text|, m, m + |term|);
    var c := text[w.0..w.1];
    var inContext, inText := c[m - w.0..m - w.0 + |term|], text[m..m + |term|];
    forall k | 0 <= k < |term|
      ensures inContext[k] == inText[k]
    {
      assert inContext[k] == c[m - w.0 + k] == text[m + k] == inText[k];
    }
    assert inContext == inText;
    c
  }

  /** The results for page `index` (0-based): one per occurrence, left to right. */
  function PageHits(index: nat, text: string, term: string): (hs: seq<Hit>)
    requires |term| > 0
    ensures |hs| == |Matches(text, term)|
    ensures forall j :: 0 <= j < |hs| ==> hs[j].page == index + 1
  {
    var ms := Matches(text, term);
    seq(|ms|, j requires 0 <= j < |ms| => Hit(index + 1, Context(text, term, ms[j])))
  }

  /** The results for all pages, page by page. */
  function AllHits(pages: seq<string>, term: string): seq<Hit>
    requires |term| > 0
    decreases |pages|
  {
    if pages == [] then []
    else
      var n := |pages| - 1;
      AllHits(pages[..n], term) + PageHits(n, pages[n], term)
  }

  /** The results that name page `page` (1-based), in order. */
  function HitsOn(hits: seq<Hit>, page: nat): (r: seq<Hit>)
    ensures |r| <= |hits|
    ensures forall i :: 0 <= i < |r| ==> r[i].page == page
    decreases |hits|
  {
    if hits == [] then []
    else
      var last := hits[|hits| - 1];
      HitsOn(hits[..|hits| - 1], page) + (if last.page == page then [last] else [])
  }

  lemma {:induction false} HitsOnAppend(a: seq<Hit>, b: seq<Hit>, page: nat)
    ensures HitsOn(a + b, page) == HitsOn(a, page) + HitsOn(b, page)
    decreases |b|
  {
    if b == [] {
      assert a + b == a;
    } else {
      var n := |b| - 1;
      assert (a + b)[..|a + b| - 1] == a + b[..n];
      assert (a + b)[|a + b| - 1] == b[n];
      HitsOnAppend(a, b[..n], page);
    }
  }

  lemma {:induction false} HitsOnSamePage(hs: seq<Hit>, page: nat)
    requires forall i :: 0 <= i < |hs| ==> hs[i].page == page
    ensures HitsOn(hs, page) == hs
    decreases |hs|
  {
    if hs != [] {
      HitsOnSamePage(hs[..|hs| - 1], page);
    }
  }

  lemma {:induction false} HitsOnOtherPage(hs: seq<Hit>, page: nat)
    requires forall i :: 0 <= i < |hs| ==> hs[i].page != page
    ensures HitsOn(hs, page) == []
    decreases |hs|
  {
    if hs != [] {
      HitsOnOtherPage(hs[..|hs| - 1], page);
    }
  }

  /** Every page number in `hs` lies in `1..count`, and they never decrease. */
  ghost predicate PagesInOrder(hs: seq<Hit>, count: nat) {
    (forall i :: 0 <= i < |hs| ==> 1 <= hs[i].page <= count)
    && (forall i, j :: 0 <= i <= j < |hs| ==> hs[i].page <= hs[j].page)
  }

  /** Results of page `n + 1` placed after results in order over `n` pages are in
      order over `n + 1` pages. */
  lemma PagesInOrderAppend(front: seq<Hit>, back: seq<Hit>, n: nat)
    requires PagesInOrder(front, n)
    requires forall j :: 0 <= j < |back| ==> back[j].page == n + 1
    ensures PagesInOrder(front + back, n + 1)
  {
    var hs := front + back;
    forall i | 0 <= i < |hs|
      ensures 1 <= hs[i].page <= n + 1
    {
      if i < |front| { assert hs[i] == front[i]; } else { assert hs[i] == back[i - |front|]; }
    }
    forall i, j | 0 <= i <= j < |hs|
      ensures hs[i].page <= hs[j].page
    {
      if j < |front| {
        assert hs[i] == front[i] && hs[j] == front[j];
      } else if i < |front| {
        assert hs[i] == front[i] && hs[j] == back[j - |front|];
      } else {
        assert hs[i] == back[i - |front|] && hs[j] == back[j - |front|];
      }
    }
  }

  /** Page numbers of the results are 1-based, at most the page count, and never decrease. */
  lemma {:induction false} AllHitsPageOrder(pages: seq<string>, term: string)
    requires |term| > 0
    ensures PagesInOrder(AllHits(pages, term), |pages|)
    decreases |pages|
  {
    if pages != [] {
      var n := |pages| - 1;
      AllHitsPageOrder(pages[..n], term);
      var front, back := AllHits(pages[..n], term), PageHits(n, pages[n], term);
      assert PagesInOrder(front, n);
      var hs := front + back;
      assert AllHits(pages, term) == hs;
      PagesInOrderAppend(front, back, n);
    }
  }

  /** The results naming page `p + 1` are exactly the results of page `p`: one per
      occurrence on that page, in left-to-right order, and nothing else. */
  lemma {:induction false} AllHitsOfPage(pages: seq<string>, term: string, p: nat)
    requires |term| > 0
    requires p < |pages|
    ensures HitsOn(AllHits(pages, term), p + 1) == PageHits(p, pages[p], term)
    ensures |HitsOn(AllHits(pages, term), p + 1)| == |Matches(pages[p], term)|
    decreases |pages|
  {
    var n := |pages| - 1;
    var prefix := pages[..n];
    HitsOnAppend(AllHits(prefix, term), PageHits(n, pages[n], term), p + 1);
    if p == n {
      AllHitsPageOrder(prefix, term);
      HitsOnOtherPage(AllHits(prefix, term), p + 1);
      HitsOnSamePage(PageHits(n, pages[n], term), p + 1);
    } else {
      AllHitsOfPage(prefix, term, p);
      HitsOnOtherPage(PageHits(n, pages[n], term), p + 1);
    }
  }

  lemma AllHitsNextPage(pages: seq<string>, term: string, p: nat)
    requires |term| > 0 && p < |pages|
    ensures AllHits(pages[..p + 1], term) == AllHits(pages[..p], term) + PageHits(p, pages[p], term)
  {
    var prefix := pages[..p + 1];
    assert prefix[..p] == pages[..p] && prefix[p] == pages[p];
  }

  lemma PageHitsNext(index: nat, text: string, term: string, j: nat)
    requires |term| > 0 && j < |Matches(text, term)|
    ensures MatchAt(text, term, Matches(text, term)[j])
    ensures PageHits(index, text, term)[..j + 1]
      == PageHits(index, text, term)[..j] + [Hit(index + 1, Context(text, term, Matches(text, term)[j]))]
  {
    var hs := PageHits(index, text, term);
    assert hs[..j + 1] == hs[..j] + [hs[j]];
  }

  /** The search box: nothing runs for a blank term; otherwise every page is
      scanned in order and each occurrence appends one result. */
  method Search(pages: seq<string>, term: string) returns (ran: bool, hits: seq<Hit>)
    ensures ran <==> !IsBlank(term)
    ensures !ran ==> hits == []
    ensures ran ==> |term| > 0 && hits == AllHits(pages, term)
  {
    ran := !IsBlank(term);
    hits := [];
    if !ran {
      return;
    }
    var p := 0;
    while p < |pages|
      invariant 0 <= p <= |pages|
      invariant hits == AllHits(pages[..p], term)
    {
      var text := pages[p];
      var ms := Matches(text, term);
      ghost var before := hits;
      var j := 0;
      while j < |ms|
        invariant 0 <= j <= |ms|
        invariant hits == before + PageHits(p, text, term)[..j]
      {
        PageHitsNext(p, text, term, j);
        hits := hits + [Hit(p + 1, Context(text, term, ms[j]))];
        j := j + 1;
      }
      assert PageHits(p, text, term)[..j] == PageHits(p, text, term);
      AllHitsNextPage(pages, term, p);
      p := p + 1;
    }
    assert pages[..p] == pages;
  }
}
