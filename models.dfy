/**
 * The two record classes: Article (twelve nullable fields, each with a
 * getter and a setter) and Issue (three nullable scalars and an
 * append-only list of articles), with value snapshots of their state.
 */
module Models {
  import opened Wrappers

  /** One entry of an article's authors array: keys 'firstName', 'lastName' (either may be missing). */
  datatype Author = Author(firstName: Option<string>, lastName: Option<string>)

  /** One entry of an article's citations array: keys 'row', 'value' (either may be missing). */
  datatype Citation = Citation(row: Option<string>, value: Option<string>)

  /** The state of an Article object. */
  datatype ArticleData = ArticleData(
    titleTr: Option<string>,
    titleEn: Option<string>,
    abstractTr: Option<string>,
    abstractEn: Option<string>,
    keywordsTr: Option<string>,
    keywordsEn: Option<string>,
    firstPage: Option<string>,
    lastPage: Option<string>,
    pdfUrl: Option<string>,
    primaryLanguage: Option<string>,
    authors: seq<Author>,
    citations: seq<Citation>)

  /** The state of a freshly constructed Article. */
  const NewArticle := ArticleData(None, None, None, None, None, None, None, None, None, None, [], [])

  /** The state of an Issue object, with its articles' states in order. */
  datatype IssueData = IssueData(
    volume: Option<string>,
    number: Option<string>,
    year: Option<string>,
    articles: seq<ArticleData>)

  class Article {
    var titleTr: Option<string>
    var titleEn: Option<string>
    var abstractTr: Option<string>
    var abstractEn: Option<string>
    var keywordsTr: Option<string>
    var keywordsEn: Option<string>
    var firstPage: Option<string>
    var lastPage: Option<string>
    var pdfUrl: Option<string>
    var primaryLanguage: Option<string>
    var authors: seq<Author>
    var citations: seq<Citation>

    function Value(): ArticleData
      reads this
    {
      ArticleData(titleTr, titleEn, abstractTr, abstractEn, keywordsTr, keywordsEn,
                  firstPage, lastPage, pdfUrl, primaryLanguage, authors, citations)
    }

    constructor ()
      ensures Value() == NewArticle
    {
      titleTr, titleEn, abstractTr, abstractEn := None, None, None, None;
      keywordsTr, keywordsEn, firstPage, lastPage := None, None, None, None;
      pdfUrl, primaryLanguage := None, None;
      authors, citations := [], [];
    }

    function GetTitleTr(): Option<string> reads this { titleTr }
    function GetTitleEn(): Option<string> reads this { titleEn }
    function GetAbstractTr(): Option<string> reads this { abstractTr }
    function GetAbstractEn(): Option<string> reads this { abstractEn }
    function GetKeywordsTr(): Option<string> reads this { keywordsTr }
    function GetKeywordsEn(): Option<string> reads this { keywordsEn }
    function GetFirstPage(): Option<string> reads this { firstPage }
    function GetLastPage(): Option<string> reads this { lastPage }
    function GetPdfUrl(): Option<string> reads this { pdfUrl }
    function GetPrimaryLanguage(): Option<string> reads this { primaryLanguage }
    function GetAuthors(): seq<Author> reads this { authors }
    function GetCitations(): seq<Citation> reads this { citations }

    method SetTitleTr(v: Option<string>)
      modifies this
      ensures GetTitleTr() == v
      ensures Value() == old(Value()).(titleTr := v)
    {
      titleTr := v;
    }

    method SetTitleEn(v: Option<string>)
      modifies this
      ensures GetTitleEn() == v
      ensures Value() == old(Value()).(titleEn := v)
    {
      titleEn := v;
    }

    method SetAbstractTr(v: Option<string>)
      modifies this
      ensures GetAbstractTr() == v
      ensures Value() == old(Value()).(abstractTr := v)
    {
      abstractTr := v;
    }

    method SetAbstractEn(v: Option<string>)
      modifies this
      ensures GetAbstractEn() == v
      ensures Value() == old(Value()).(abstractEn := v)
    {
      abstractEn := v;
    }

    method SetKeywordsTr(v: Option<string>)
      modifies this
      ensures GetKeywordsTr() == v
      ensures Value() == old(Value()).(keywordsTr := v)
    {
      keywordsTr := v;
    }

    method SetKeywordsEn(v: Option<string>)
      modifies this
      ensures GetKeywordsEn() == v
      ensures Value() == old(Value()).(keywordsEn := v)
    {
      keywordsEn := v;
    }

    method SetFirstPage(v: Option<string>)
      modifies this
      ensures GetFirstPage() == v
      ensures Value() == old(Value()).(firstPage := v)
    {
      firstPage := v;
    }

    method SetLastPage(v: Option<string>)
      modifies this
      ensures GetLastPage() == v
      ensures Value() == old(Value()).(lastPage := v)
    {
      lastPage := v;
    }

    method SetPdfUrl(v: Option<string>)
      modifies this
      ensures GetPdfUrl() == v
      ensures Value() == old(Value()).(pdfUrl := v)
    {
      pdfUrl := v;
    }

    method SetPrimaryLanguage(v: Option<string>)
      modifies this
      ensures GetPrimaryLanguage() == v
      ensures Value() == old(Value()).(primaryLanguage := v)
    {
      primaryLanguage := v;
    }

    /** Replaces the whole list; nothing is appended. */
    method SetAuthors(v: seq<Author>)
      modifies this
      ensures GetAuthors() == v
      ensures Value() == old(Value()).(authors := v)
    {
      authors := v;
    }

    /** Replaces the whole list; nothing is appended. */
    method SetCitations(v: seq<Citation>)
      modifies this
      ensures GetCitations() == v
      ensures Value() == old(Value()).(citations := v)
    {
      citations := v;
    }
  }

  /** The states of a list of articles, in list order. */
  function ArticleValues(arts: seq<Article>): (r: seq<ArticleData>)
    reads set a | a in arts
    ensures |r| == |arts|
    ensures forall i :: 0 <= i < |arts| ==> r[i] == arts[i].Value()
  {
    if arts == [] then [] else [arts[0].Value()] + ArticleValues(arts[1..])
  }

  class Issue {
    var volume: Option<string>
    var number: Option<string>
    var year: Option<string>
    var articles: seq<Article>

    function Value(): IssueData
      reads this, set a | a in articles
    {
      IssueData(volume, number, year, ArticleValues(articles))
    }

    constructor ()
      ensures volume == None && number == None && year == None && articles == []
    {
      volume, number, year := None, None, None;
      articles := [];
    }

    function GetVolume(): Option<string> reads this { volume }
    function GetNumber(): Option<string> reads this { number }
    function GetYear(): Option<string> reads this { year }

    /** The articles in the order they were added. */
    function GetArticles(): seq<Article> reads this { articles }

    method SetVolume(v: Option<string>)
      modifies this
      ensures GetVolume() == v
      ensures number == old(number) && year == old(year) && articles == old(articles)
    {
      volume := v;
    }

    method SetNumber(v: Option<string>)
      modifies this
      ensures GetNumber() == v
      ensures volume == old(volume) && year == old(year) && articles == old(articles)
    {
      number := v;
    }

    method SetYear(v: Option<string>)
      modifies this
      ensures GetYear() == v
      ensures volume == old(volume) && number == old(number) && articles == old(articles)
    {
      year := v;
    }

    /** Appends in place: one more article, last, earlier ones untouched. */
    method AddArticle(article: Article)
      modifies this
      ensures GetArticles() == old(GetArticles()) + [article]
      ensures volume == old(volume) && number == old(number) && year == old(year)
    {
      articles := articles + [article];
    }
  }

  /** The states of a list of issues, in list order. */
  function IssueValues(issues: seq<Issue>): (r: seq<IssueData>)
    reads set i | i in issues
    reads set i, a | i in issues && a in i.articles :: a
    ensures |r| == |issues|
    ensures forall k :: 0 <= k < |issues| ==> r[k] == issues[k].Value()
  {
    if issues == [] then [] else [issues[0].Value()] + IssueValues(issues[1..])
  }
}
