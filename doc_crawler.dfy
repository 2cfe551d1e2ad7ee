/**
 * The crawler of src/Crawler/DocCrawler.php: one Issue per XML file, its
 * volume and number taken from the first <volume>/<number> tag, and one
 * Article per "Makale <digits>" marker, each filled from the whole file.
 *
 * The fixed regular expressions are matched by hand.  A pattern is an
 * opening literal, one greedy capture, and a closing literal; the capture
 * is either `\d+` or `.*` (any run of characters without a line feed).
 */
module DocCrawler {
  import opened Wrappers
  import opened Php
  import opened Dom
  import opened Models
  import opened Filesystem
  import opened Serializer
  import Generator

  // ---------------------------------------------------------------------------
  // Strings

  predicate IsDigit(c: char) {
    '0' <= c <= '9'
  }

  predicate AllDigits(s: string) {
    forall i :: 0 <= i < |s| ==> IsDigit(s[i])
  }

  /** p occurs in s starting at index i. */
  predicate OccursAt(s: string, i: int, p: string) {
    0 <= i && i + |p| <= |s| && s[i..i + |p|] == p
  }

  /** The end of the run of digits that starts at i. */
  function DigitRunEnd(s: string, i: nat): (r: nat)
    requires i <= |s|
    ensures i <= r <= |s|
    ensures forall k :: i <= k < r ==> IsDigit(s[k])
    ensures r == |s| || !IsDigit(s[r])
    decreases |s| - i
  {
    if i < |s| && IsDigit(s[i]) then DigitRunEnd(s, i + 1) else i
  }

  /** The index of the first line feed at or after i, or |s|. */
  function LineEnd(s: string, i: nat): (r: nat)
    requires i <= |s|
    ensures i <= r <= |s|
    ensures forall k :: i <= k < r ==> s[k] != '\n'
    ensures r == |s| || s[r] == '\n'
    decreases |s| - i
  {
    if i < |s| && s[i] != '\n' then LineEnd(s, i + 1) else i
  }

  /** The last index in [lo, hi] at which p occurs. */
  function LastOccurrence(s: string, lo: nat, hi: int, p: string): (r: Option<nat>)
    ensures r.Some? ==> lo <= r.value <= hi && OccursAt(s, r.value, p)
    ensures r.Some? ==> forall j :: r.value < j <= hi ==> !OccursAt(s, j, p)
    ensures r.None? ==> forall j :: lo <= j <= hi ==> !OccursAt(s, j, p)
    decreases hi - lo + 1
  {
    if hi < lo then None
    else if OccursAt(s, hi, p) then Some(hi)
    else LastOccurrence(s, lo, hi - 1, p)
  }

  // ---------------------------------------------------------------------------
  // The patterns and what PCRE makes of them

  datatype Capture = Digits | Line

  /** open (capture) close, with the capture `\d+` or `.*`. */
  datatype Pattern = Pattern(open: string, capture: Capture, close: string)

  predicate Fits(c: Capture, v: string) {
    match c
    case Digits => v != [] && AllDigits(v)
    case Line => '\n' !in v
  }

  /** v is a capture the pattern can produce for a match starting at i. */
  predicate Candidate(p: Pattern, s: string, i: int, v: string) {
    Fits(p.capture, v) && OccursAt(s, i, p.open + v + p.close)
  }

  /** The greedy capture prefers the longest candidate at a given start. */
  ghost predicate Preferred(p: Pattern, s: string, i: int, v: string) {
    Candidate(p, s, i, v) && forall w :: Candidate(p, s, i, w) ==> |w| <= |v|
  }

  lemma SliceOfOccurrence(s: string, i: int, m: string, lo: nat, hi: nat)
    requires OccursAt(s, i, m) && lo <= hi <= |m|
    ensures s[i + lo..i + hi] == m[lo..hi]
  {
    forall k | 0 <= k < hi - lo ensures s[i + lo..i + hi][k] == m[lo..hi][k] {
      assert s[i..i + |m|][lo + k] == s[i + lo + k];
    }
  }

  lemma CandidateParts(p: Pattern, s: string, i: int, v: string)
    requires OccursAt(s, i, p.open + v + p.close)
    ensures OccursAt(s, i, p.open)
    ensures s[i + |p.open|..i + |p.open| + |v|] == v
    ensures OccursAt(s, i + |p.open| + |v|, p.close)
  {
    var m := p.open + v + p.close;
    SliceOfOccurrence(s, i, m, 0, |p.open|);
    SliceOfOccurrence(s, i, m, |p.open|, |p.open| + |v|);
    SliceOfOccurrence(s, i, m, |p.open| + |v|, |m|);
  }

  lemma CandidateOfParts(p: Pattern, s: string, i: nat, j: nat)
    requires OccursAt(s, i, p.open)
    requires i + |p.open| <= j && OccursAt(s, j, p.close)
    ensures OccursAt(s, i, p.open + s[i + |p.open|..j] + p.close)
  {
    assert s[i..j + |p.close|] == s[i..i + |p.open|] + s[i + |p.open|..j] + s[j..j + |p.close|];
  }

  /** The largest index the capture may extend to, and the smallest, for a start after the opening. */
  function Bound(c: Capture, s: string, start: nat): (r: nat)
    requires start <= |s|
    ensures start <= r <= |s|
  {
    match c
    case Digits => DigitRunEnd(s, start)
    case Line => LineEnd(s, start)
  }

  function MinLength(c: Capture): nat {
    match c
    case Digits => 1
    case Line => 0
  }

  lemma FitsWithin(c: Capture, s: string, start: nat, v: string)
    requires start + |v| <= |s| && s[start..start + |v|] == v
    ensures Fits(c, v) <==> |v| >= MinLength(c) && start + |v| <= Bound(c, s, start)
  {
    assert forall k :: 0 <= k < |v| ==> v[k] == s[start + k];
  }

  /** Without the opening literal at i, nothing matches at i. */
  lemma NoCandidateWithoutOpen(p: Pattern, s: string, i: nat)
    requires !OccursAt(s, i, p.open)
    ensures forall v :: !Candidate(p, s, i, v)
  {
    forall v | OccursAt(s, i, p.open + v + p.close) ensures false {
      CandidateParts(p, s, i, v);
    }
  }

  /** Without a closing literal within reach of the capture, nothing matches at i. */
  lemma NoCandidateWithoutClose(p: Pattern, s: string, i: nat)
    requires OccursAt(s, i, p.open)
    requires LastOccurrence(s, i + |p.open| + MinLength(p.capture), Bound(p.capture, s, i + |p.open|), p.close).None?
    ensures forall v :: !Candidate(p, s, i, v)
  {
    forall v | Candidate(p, s, i, v) ensures false {
      CandidateCloses(p, s, i, v);
    }
  }

  /** A candidate's closing literal lies within reach of the capture. */
  lemma CandidateCloses(p: Pattern, s: string, i: nat, w: string)
    requires Candidate(p, s, i, w)
    ensures i + |p.open| + MinLength(p.capture) <= i + |p.open| + |w| <= Bound(p.capture, s, i + |p.open|)
    ensures OccursAt(s, i + |p.open| + |w|, p.close)
  {
    CandidateParts(p, s, i, w);
    FitsWithin(p.capture, s, i + |p.open|, w);
  }

  /** The last closing literal within reach gives the longest capture. */
  lemma LastCloseIsPreferred(p: Pattern, s: string, i: nat, j: nat)
    requires OccursAt(s, i, p.open)
    requires LastOccurrence(s, i + |p.open| + MinLength(p.capture), Bound(p.capture, s, i + |p.open|), p.close) == Some(j)
    ensures Preferred(p, s, i, s[i + |p.open|..j])
  {
    var start := i + |p.open|;
    var v := s[start..j];
    CandidateOfParts(p, s, i, j);
    FitsWithin(p.capture, s, start, v);
    forall w | Candidate(p, s, i, w) ensures |w| <= |v| {
      CandidateCloses(p, s, i, w);
    }
  }

  /** preg_match's attempt at index i: the greedy capture, if the pattern matches there. */
  function MatchAt(p: Pattern, s: string, i: nat): (r: Option<string>)
    ensures r.Some? ==> Preferred(p, s, i, r.value)
    ensures r.None? ==> forall v :: !Candidate(p, s, i, v)
  {
    if !OccursAt(s, i, p.open) then
      NoCandidateWithoutOpen(p, s, i);
      None
    else
      var start := i + |p.open|;
      match LastOccurrence(s, start + MinLength(p.capture), Bound(p.capture, s, start), p.close)
      case None =>
        NoCandidateWithoutClose(p, s, i);
        None
      case Some(j) =>
        LastCloseIsPreferred(p, s, i, j);
        Some(s[start..j])
  }

  /** The leftmost index at or after i where the pattern matches, with its capture. */
  function FirstMatchFrom(p: Pattern, s: string, i: nat): (r: Option<(nat, string)>)
    requires i <= |s|
    ensures r.Some? ==> i <= r.value.0 <= |s| && MatchAt(p, s, r.value.0) == Some(r.value.1)
    ensures r.Some? ==> forall k :: i <= k < r.value.0 ==> MatchAt(p, s, k).None?
    ensures r.None? ==> forall k :: i <= k <= |s| ==> MatchAt(p, s, k).None?
    decreases |s| - i
  {
    match MatchAt(p, s, i)
    case Some(v) => Some((i, v))
    case None => if i == |s| then None else FirstMatchFrom(p, s, i + 1)
  }

  /**
   * extractWithRegex: the first capture group of the leftmost match, or
   * null. A value it returns fits the capture; where it sits in s is
   * stated by ExtractWithRegexSpec.
   */
  function ExtractWithRegex(p: Pattern, s: string): (r: Option<string>)
    ensures r.Some? ==> Fits(p.capture, r.value)
  {
    match FirstMatchFrom(p, s, 0)
    case Some((i, v)) =>
      assert Candidate(p, s, i, v);
      Some(v)
    case None => None
  }

  /**
   * What extractWithRegex returns is the greedy capture at the leftmost
   * index where the pattern matches; null exactly when it matches nowhere.
   */
  lemma ExtractWithRegexSpec(p: Pattern, s: string)
    ensures var r := ExtractWithRegex(p, s);
            (r.Some? ==> exists i :: 0 <= i <= |s| && Preferred(p, s, i, r.value)
                                     && forall k, w :: 0 <= k < i ==> !Candidate(p, s, k, w))
            && (r.None? <==> forall k, w :: 0 <= k <= |s| ==> !Candidate(p, s, k, w))
  {
    match FirstMatchFrom(p, s, 0)
    case Some((i, v)) =>
      forall k, w | 0 <= k < i ensures !Candidate(p, s, k, w) {
        assert MatchAt(p, s, k).None?;
      }
    case None =>
      forall k, w | 0 <= k <= |s| ensures !Candidate(p, s, k, w) {
        assert MatchAt(p, s, k).None?;
      }
  }

  // ---------------------------------------------------------------------------
  // The fields the crawler extracts

  const VolumePattern := Pattern("<volume>", Digits, "</volume>")
  const NumberPattern := Pattern("<number>", Digits, "</number>")
  const TitleEnPattern := Pattern("<title_en>", Line, "</title_en>")
  const TitleTrPattern := Pattern("<title_tr>", Line, "</title_tr>")
  const AbstractEnPattern := Pattern("<abstract_en>", Line, "</abstract_en>")
  const AbstractTrPattern := Pattern("<abstract_tr>", Line, "</abstract_tr>")

  function CrawlVolume(content: string): Option<string> {
    ExtractWithRegex(VolumePattern, content)
  }

  function CrawlNumber(content: string): Option<string> {
    ExtractWithRegex(NumberPattern, content)
  }

  function CrawlTitleEn(content: string): Option<string> {
    ExtractWithRegex(TitleEnPattern, content)
  }

  function CrawlTitleTr(content: string): Option<string> {
    ExtractWithRegex(TitleTrPattern, content)
  }

  function CrawlAbstractEn(content: string): Option<string> {
    ExtractWithRegex(AbstractEnPattern, content)
  }

  function CrawlAbstractTr(content: string): Option<string> {
    ExtractWithRegex(AbstractTrPattern, content)
  }

  /** A found volume is a non-empty run of digits enclosed in a <volume> tag pair; none is found only when no such pair occurs. */
  lemma CrawlVolumeDigits(content: string)
    ensures var r := CrawlVolume(content);
            (r.Some? ==> r.value != [] && AllDigits(r.value) && exists i :: OccursAt(content, i, "<volume>" + r.value + "</volume>"))
            && (r.None? <==> forall i, v :: 0 <= i <= |content| ==> !Candidate(VolumePattern, content, i, v))
  {
    ExtractWithRegexSpec(VolumePattern, content);
  }

  /** A found number is a non-empty run of digits enclosed in a <number> tag pair; none is found only when no such pair occurs. */
  lemma CrawlNumberDigits(content: string)
    ensures var r := CrawlNumber(content);
            (r.Some? ==> r.value != [] && AllDigits(r.value) && exists i :: OccursAt(content, i, "<number>" + r.value + "</number>"))
            && (r.None? <==> forall i, v :: 0 <= i <= |content| ==> !Candidate(NumberPattern, content, i, v))
  {
    ExtractWithRegexSpec(NumberPattern, content);
  }

  /** A found value lies on one line between its opening and closing tag; none is found only when no such pair occurs on one line. */
  lemma CrawlTitleEnOneLine(content: string)
    ensures var r := CrawlTitleEn(content);
            (r.Some? ==> '\n' !in r.value && exists i :: OccursAt(content, i, "<title_en>" + r.value + "</title_en>"))
            && (r.None? <==> forall i, v :: 0 <= i <= |content| ==> !Candidate(TitleEnPattern, content, i, v))
  {
    ExtractWithRegexSpec(TitleEnPattern, content);
  }

  /** A found value lies on one line between its opening and closing tag; none is found only when no such pair occurs on one line. */
  lemma CrawlTitleTrOneLine(content: string)
    ensures var r := CrawlTitleTr(content);
            (r.Some? ==> '\n' !in r.value && exists i :: OccursAt(content, i, "<title_tr>" + r.value + "</title_tr>"))
            && (r.None? <==> forall i, v :: 0 <= i <= |content| ==> !Candidate(TitleTrPattern, content, i, v))
  {
    ExtractWithRegexSpec(TitleTrPattern, content);
  }

  /** A found value lies on one line between its opening and closing tag; none is found only when no such pair occurs on one line. */
  lemma CrawlAbstractEnOneLine(content: string)
    ensures var r := CrawlAbstractEn(content);
            (r.Some? ==> '\n' !in r.value && exists i :: OccursAt(content, i, "<abstract_en>" + r.value + "</abstract_en>"))
            && (r.None? <==> forall i, v :: 0 <= i <= |content| ==> !Candidate(AbstractEnPattern, content, i, v))
  {
    ExtractWithRegexSpec(AbstractEnPattern, content);
  }

  /** A found value lies on one line between its opening and closing tag; none is found only when no such pair occurs on one line. */
  lemma CrawlAbstractTrOneLine(content: string)
    ensures var r := CrawlAbstractTr(content);
            (r.Some? ==> '\n' !in r.value && exists i :: OccursAt(content, i, "<abstract_tr>" + r.value + "</abstract_tr>"))
            && (r.None? <==> forall i, v :: 0 <= i <= |content| ==> !Candidate(AbstractTrPattern, content, i, v))
  {
    ExtractWithRegexSpec(AbstractTrPattern, content);
  }

  // ---------------------------------------------------------------------------
  // The article markers, as preg_match_all finds them

  const MarkerPattern := Pattern("Makale ", Digits, "")

  /** "Makale " followed by at least one digit starts at q. */
  predicate MarkerBegins(s: string, q: int) {
    OccursAt(s, q, "Makale ") && q + 7 < |s| && IsDigit(s[q + 7])
  }

  /** How many indices in [i, |s|) begin a marker: the reference count. */
  function CountMarkers(s: string, i: nat): nat
    decreases |s| - i
  {
    if i >= |s| then 0 else (if MarkerBegins(s, i) then 1 else 0) + CountMarkers(s, i + 1)
  }

  lemma MarkerAt(s: string, q: nat)
    ensures MatchAt(MarkerPattern, s, q).Some? <==> MarkerBegins(s, q)
  {
    var r := MatchAt(MarkerPattern, s, q);
    if r.Some? {
      CandidateParts(MarkerPattern, s, q, r.value);
      assert s[q + 7] == r.value[0];
    }
    if MarkerBegins(s, q) {
      var v := s[q + 7..q + 8];
      CandidateOfParts(MarkerPattern, s, q, q + 8);
      assert Candidate(MarkerPattern, s, q, v);
    }
  }

  /** The first index at or after i that begins a marker. */
  function NextMarker(s: string, i: nat): (r: Option<nat>)
    ensures r.Some? ==> i <= r.value && MarkerBegins(s, r.value)
    ensures r.Some? ==> forall q :: i <= q < r.value ==> !MarkerBegins(s, q)
    ensures r.None? ==> forall q :: i <= q ==> !MarkerBegins(s, q)
    decreases |s| - i
  {
    if i >= |s| then None else if MarkerBegins(s, i) then Some(i) else NextMarker(s, i + 1)
  }

  /**
   * preg_match_all from index i: the capture of each match is the whole
   * digit run after "Makale ", and the search resumes where the run ends,
   * so matches never overlap.
   */
  function MarkerMatchesFrom(s: string, i: nat): (r: seq<string>)
    ensures forall k :: 0 <= k < |r| ==> r[k] != [] && AllDigits(r[k])
    decreases |s| - i
  {
    match NextMarker(s, i)
    case None => []
    case Some(q) =>
      var e := DigitRunEnd(s, q + 7);
      [s[q + 7..e]] + MarkerMatchesFrom(s, e)
  }

  function MarkerMatches(s: string): seq<string> {
    MarkerMatchesFrom(s, 0)
  }

  /** A marker match's capture is the maximal digit run after "Makale ". */
  lemma MarkerCapture(s: string, k: nat, v: string)
    requires MatchAt(MarkerPattern, s, k) == Some(v)
    ensures k + 7 < |s| && v == s[k + 7..DigitRunEnd(s, k + 7)]
  {
    CandidateParts(MarkerPattern, s, k, v);
    var e := DigitRunEnd(s, k + 7);
    FitsWithin(Digits, s, k + 7, v);
    var w := s[k + 7..e];
    FitsWithin(Digits, s, k + 7, w);
    CandidateOfParts(MarkerPattern, s, k, e);
    assert Candidate(MarkerPattern, s, k, w);
  }

  /** Each step of the scan is preg_match's leftmost match from where the scan stands. */
  lemma NextMarkerIsFirstMatch(s: string, i: nat)
    requires i <= |s|
    ensures match NextMarker(s, i)
            case None => FirstMatchFrom(MarkerPattern, s, i).None?
            case Some(q) => FirstMatchFrom(MarkerPattern, s, i) == Some((q, s[q + 7..DigitRunEnd(s, q + 7)]))
  {
    match FirstMatchFrom(MarkerPattern, s, i)
    case None =>
      if NextMarker(s, i).Some? {
        MarkerAt(s, NextMarker(s, i).value);
      }
    case Some((k, v)) =>
      MarkerAt(s, k);
      MarkerCapture(s, k, v);
      var n := NextMarker(s, i);
      if n.None? || n.value != k {
        if n.Some? && n.value < k {
          MarkerAt(s, n.value);
        }
      }
  }

  lemma {:induction false} NoMarkersBetween(s: string, a: nat, b: nat)
    requires a <= b
    requires forall q :: a <= q < b ==> !MarkerBegins(s, q)
    ensures CountMarkers(s, a) == CountMarkers(s, b)
    decreases b - a
  {
    if a < b {
      NoMarkersBetween(s, a + 1, b);
    }
  }

  /** No marker begins strictly inside a marker that begins at k and spans its digits d. */
  lemma NoMarkerInside(s: string, k: nat, d: string)
    requires OccursAt(s, k, "Makale " + d) && AllDigits(d)
    ensures forall q :: k < q < k + 7 + |d| ==> !MarkerBegins(s, q)
  {
    var m := "Makale " + d;
    forall q | k < q < k + 7 + |d| && OccursAt(s, q, "Makale ") ensures false {
      SliceOfOccurrence(s, q, "Makale ", 0, 1);
      assert s[q] == 'M';
      SliceOfOccurrence(s, k, m, q - k, q - k + 1);
    }
  }

  /** Between the search start and the end of the first marker there is exactly one marker. */
  lemma MarkerCountStep(s: string, i: nat, q: nat)
    requires NextMarker(s, i) == Some(q)
    ensures CountMarkers(s, i) == 1 + CountMarkers(s, DigitRunEnd(s, q + 7))
  {
    var e := DigitRunEnd(s, q + 7);
    NoMarkersBetween(s, i, q);
    MarkerSpan(s, q);
    NoMarkerInside(s, q, s[q + 7..e]);
    NoMarkersBetween(s, q + 1, e);
  }

  /** A marker beginning at q spans "Makale " and the whole digit run after it. */
  lemma MarkerSpan(s: string, q: nat)
    requires MarkerBegins(s, q)
    ensures OccursAt(s, q, "Makale " + s[q + 7..DigitRunEnd(s, q + 7)])
    ensures AllDigits(s[q + 7..DigitRunEnd(s, q + 7)])
  {
    var e := DigitRunEnd(s, q + 7);
    assert s[q..q + 7] + s[q + 7..e] == s[q..e];
  }

  /** The number of matches preg_match_all returns is the number of marker beginnings. */
  lemma {:induction false} MarkerCountFrom(s: string, i: nat)
    ensures |MarkerMatchesFrom(s, i)| == CountMarkers(s, i)
    decreases |s| - i
  {
    match NextMarker(s, i)
    case None =>
      if i < |s| {
        NoMarkersBetween(s, i, |s|);
      }
    case Some(q) =>
      MarkerCountStep(s, i, q);
      MarkerCountFrom(s, DigitRunEnd(s, q + 7));
  }

  lemma MarkerCount(s: string)
    ensures |MarkerMatches(s)| == CountMarkers(s, 0)
  {
    MarkerCountFrom(s, 0);
  }

  // ---------------------------------------------------------------------------
  // What one XML file becomes

  /** An article as processXmlFile fills it: four fields, all from the whole file. */
  function CrawledArticle(content: string): ArticleData {
    NewArticle.(titleEn := CrawlTitleEn(content), abstractEn := CrawlAbstractEn(content),
                titleTr := CrawlTitleTr(content), abstractTr := CrawlAbstractTr(content))
  }

  /** The issue processXmlFile leaves in a fresh Issue. */
  function CrawledIssue(content: string): IssueData {
    IssueData(CrawlVolume(content), CrawlNumber(content), None,
              seq(|MarkerMatches(content)|, _ => CrawledArticle(content)))
  }

  /**
   * A crawled issue has no year and one article per marker beginning, all
   * of them alike.
   */
  lemma CrawledIssueShape(content: string)
    ensures var d := CrawledIssue(content);
            |d.articles| == CountMarkers(content, 0) && d.year.None?
            && forall j, k :: 0 <= j < k < |d.articles| ==> d.articles[j] == d.articles[k]
  {
    MarkerCount(content);
  }

  function CrawledIssues(contents: seq<string>): seq<IssueData> {
    seq(|contents|, k requires 0 <= k < |contents| => CrawledIssue(contents[k]))
  }

  /** The crawler never sets keywords, pages, the PDF path, the language, authors or citations. */
  lemma CrawledArticleUntouched(content: string)
    ensures var a := CrawledArticle(content);
            a.keywordsTr.None? && a.keywordsEn.None? && a.firstPage.None? && a.lastPage.None?
            && a.pdfUrl.None? && a.primaryLanguage.None? && a.authors == [] && a.citations == []
  {
  }

  /** The loop body of processXmlFile: a fresh Article and its four setters. */
  method NewCrawledArticle(content: string) returns (article: Article)
    ensures fresh(article) && article.Value() == CrawledArticle(content)
  {
    article := new Article();
    article.SetTitleEn(CrawlTitleEn(content));
    article.SetAbstractEn(CrawlAbstractEn(content));
    article.SetTitleTr(CrawlTitleTr(content));
    article.SetAbstractTr(CrawlAbstractTr(content));
  }

  /** One pass of processXmlFile's loop: a fresh crawled article appended to the issue. */
  method AddCrawledArticle(content: string, issue: Issue)
    modifies issue
    ensures issue.volume == old(issue.volume) && issue.number == old(issue.number) && issue.year == old(issue.year)
    ensures |issue.articles| == |old(issue.articles)| + 1
    ensures issue.articles[..|old(issue.articles)|] == old(issue.articles)
    ensures fresh(issue.articles[|old(issue.articles)|])
    ensures issue.articles[|old(issue.articles)|].Value() == CrawledArticle(content)
  {
    var article := NewCrawledArticle(content);
    issue.AddArticle(article);
  }

  /** processXmlFile's loop: count fresh crawled articles appended to the issue, nothing else changed. */
  method AddCrawledArticles(content: string, issue: Issue, count: nat)
    modifies issue
    ensures issue.volume == old(issue.volume) && issue.number == old(issue.number) && issue.year == old(issue.year)
    ensures |issue.articles| == |old(issue.articles)| + count
    ensures issue.articles[..|old(issue.articles)|] == old(issue.articles)
    ensures forall k :: |old(issue.articles)| <= k < |issue.articles| ==>
              fresh(issue.articles[k]) && issue.articles[k].Value() == CrawledArticle(content)
  {
    ghost var before := issue.articles;
    for m := 0 to count
      invariant issue.volume == old(issue.volume) && issue.number == old(issue.number) && issue.year == old(issue.year)
      invariant |issue.articles| == |before| + m
      invariant issue.articles[..|before|] == before
      invariant forall k :: |before| <= k < |issue.articles| ==>
                  fresh(issue.articles[k]) && issue.articles[k].Value() == CrawledArticle(content)
    {
      AddCrawledArticle(content, issue);
    }
  }

  /**
   * processXmlFile: set volume and number, then add one fresh article per
   * marker, each given the file's English and Turkish title and abstract.
   */
  method ProcessXmlFile(content: string, issue: Issue)
    modifies issue
    ensures issue.volume == CrawlVolume(content) && issue.number == CrawlNumber(content)
    ensures issue.year == old(issue.year)
    ensures |issue.articles| == |old(issue.articles)| + CountMarkers(content, 0)
    ensures issue.articles[..|old(issue.articles)|] == old(issue.articles)
    ensures forall k :: |old(issue.articles)| <= k < |issue.articles| ==>
              fresh(issue.articles[k]) && issue.articles[k].Value() == CrawledArticle(content)
  {
    issue.SetVolume(CrawlVolume(content));
    issue.SetNumber(CrawlNumber(content));
    var matches := MarkerMatches(content);
    MarkerCount(content);
    AddCrawledArticles(content, issue, |matches|);
  }

  /** The loop body of crawl: a fresh Issue, processed. */
  method NewCrawledIssue(content: string) returns (issue: Issue)
    ensures fresh(issue) && issue.Value() == CrawledIssue(content)
  {
    issue := new Issue();
    ProcessXmlFile(content, issue);
    MarkerCount(content);
    assert issue.Value().articles == CrawledIssue(content).articles;
  }

  lemma IssueValuesOf(issues: seq<Issue>, values: seq<IssueData>)
    requires |issues| == |values| && forall k :: 0 <= k < |issues| ==> issues[k].Value() == values[k]
    ensures IssueValues(issues) == values
  {
  }

  /** The loop of crawl: one fresh Issue per file, in file order. */
  method CrawlFiles(xmlContents: seq<string>) returns (issues: seq<Issue>)
    ensures |issues| == |xmlContents|
    ensures forall k :: 0 <= k < |issues| ==> fresh(issues[k])
    ensures IssueValues(issues) == CrawledIssues(xmlContents)
  {
    ghost var expected := CrawledIssues(xmlContents);
    issues := [];
    for f := 0 to |xmlContents|
      invariant |issues| == f
      invariant forall k :: 0 <= k < f ==> fresh(issues[k]) && issues[k].Value() == expected[k]
    {
      var issue := NewCrawledIssue(xmlContents[f]);
      issues := issues + [issue];
    }
    IssueValuesOf(issues, expected);
  }

  /** What crawl hands to the generator, and what the generator ends with. */
  datatype Export = Export(categoryName: string, document: Node, outcome: Generator.Outcome)

  class DocCrawler {
    const directory: string

    constructor (directory: string)
      ensures this.directory == directory
    {
      this.directory := directory;
    }

    /**
     * crawl, given the contents of the directory's XML files in the order
     * glob lists them: nothing at all when there are none, otherwise one
     * Issue per file, exported under the directory's basename.
     */
    method Crawl(xmlContents: seq<string>, generatorDir: string, fs: FileSystem)
      returns (issues: seq<Issue>, exported: Option<Export>)
      modifies fs
      ensures xmlContents == [] ==> issues == [] && exported.None? && unchanged(fs)
      ensures |issues| == |xmlContents|
      ensures forall k :: 0 <= k < |issues| ==> fresh(issues[k])
      ensures IssueValues(issues) == CrawledIssues(xmlContents)
      ensures xmlContents != [] ==>
                exported.Some? && exported.value.categoryName == BaseName(directory)
                && exported.value.document == Document(CrawledIssues(xmlContents))
                && exported.value.outcome == Generator.ExpectedOutcome(
                     Generator.OutputPath(generatorDir, BaseName(directory)), fs.unwritable, fs.unsavable)
      ensures xmlContents != [] ==>
                fs.files == if exported.value.outcome.Saved?
                            then old(fs.files)[Generator.OutputPath(generatorDir, BaseName(directory)) := exported.value.document]
                            else old(fs.files)
      ensures xmlContents != [] && exported.value.outcome.Saved? ==>
                DirName(exported.value.outcome.path) == generatorDir + "/../output"
    {
      if xmlContents == [] {
        return [], None;
      }
      issues := CrawlFiles(xmlContents);
      var categoryName := BaseName(directory);
      var document, outcome := Generator.Generate(issues, categoryName, generatorDir, fs);
      Generator.OutputPathDirectory(generatorDir, categoryName);
      exported := Some(Export(categoryName, document, outcome));
    }
  }
}
