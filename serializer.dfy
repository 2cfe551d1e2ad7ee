/**
 * The element tree both generators build from a list of issues, shared by
 * the two copies (their tree construction is identical apart from the
 * echo diagnostics of the src copy):
 * pure functions that say what each element is, and the imperative
 * `foreach`/`appendChild` builders proved against them.
 */
module Serializer {
  import opened Wrappers
  import opened Php
  import opened Dom
  import opened Models

  /** htmlspecialchars($v ?? '') */
  function Esc(v: Option<string>): string {
    HtmlSpecialChars(OrEmpty(v))
  }

  /** determinePrimaryLanguage: Turkish wins whenever its title is non-empty. */
  function PrimaryLanguage(a: ArticleData): (r: string)
    ensures r == "tr" <==> !IsEmpty(a.titleTr)
    ensures r == "en" <==> IsEmpty(a.titleTr) && !IsEmpty(a.titleEn)
    ensures r == "" <==> IsEmpty(a.titleTr) && IsEmpty(a.titleEn)
  {
    if !IsEmpty(a.titleTr) && !IsEmpty(a.titleEn) then "tr"
    else if !IsEmpty(a.titleTr) then "tr"
    else if !IsEmpty(a.titleEn) then "en"
    else ""
  }

  function TranslationElement(locale: string, title: string, abstractText: Option<string>, keywords: Option<string>): Node {
    Element("translation", [
      Leaf("locale", locale),
      Leaf("title", HtmlSpecialChars(title)),
      Leaf("abstract", Esc(abstractText)),
      Leaf("keywords", Esc(keywords))])
  }

  /** The translations element: one translation per non-empty title, Turkish first. */
  function TranslationsElement(a: ArticleData): (r: Node)
    ensures r.Element? && r.name == "translations"
    ensures |r.children| == (if IsEmpty(a.titleTr) then 0 else 1) + (if IsEmpty(a.titleEn) then 0 else 1)
    ensures forall i :: 0 <= i < |r.children| ==>
      r.children[i].Element? && r.children[i].name == "translation" && |r.children[i].children| == 4
    ensures !IsEmpty(a.titleTr) ==> r.children[0].children[0] == Leaf("locale", "tr")
    ensures !IsEmpty(a.titleEn) ==> r.children[|r.children| - 1].children[0] == Leaf("locale", "en")
  {
    var tr := if !IsEmpty(a.titleTr) then [TranslationElement("tr", a.titleTr.value, a.abstractTr, a.keywordsTr)] else [];
    var en := if !IsEmpty(a.titleEn) then [TranslationElement("en", a.titleEn.value, a.abstractEn, a.keywordsEn)] else [];
    Element("translations", tr + en)
  }

  function AuthorElement(author: Author): Node {
    Element("author", [Leaf("firstname", Esc(author.firstName)), Leaf("lastname", Esc(author.lastName))])
  }

  function AuthorsElement(authors: seq<Author>): Node {
    Element("authors", seq(|authors|, i requires 0 <= i < |authors| => AuthorElement(authors[i])))
  }

  function CitationElement(citation: Citation): Node {
    Element("citation", [Leaf("row", Esc(citation.row)), Leaf("value", Esc(citation.value))])
  }

  function CitationsElement(citations: seq<Citation>): Node {
    Element("citations", seq(|citations|, i requires 0 <= i < |citations| => CitationElement(citations[i])))
  }

  /** The article element; only fulltext-file holds a value that is not escaped. */
  function ArticleElement(a: ArticleData): Node {
    Element("article", [
      Leaf("fulltext-file", OrEmpty(a.pdfUrl)),
      Leaf("firstpage", Esc(a.firstPage)),
      Leaf("lastpage", Esc(a.lastPage)),
      Leaf("primary-language", HtmlSpecialChars(PrimaryLanguage(a))),
      TranslationsElement(a),
      AuthorsElement(a.authors),
      CitationsElement(a.citations)])
  }

  function ArticlesElement(articles: seq<ArticleData>): Node {
    Element("articles", seq(|articles|, i requires 0 <= i < |articles| => ArticleElement(articles[i])))
  }

  function IssueElement(d: IssueData): Node {
    Element("issue", [
      Leaf("volume", Esc(d.volume)),
      Leaf("year", Esc(d.year)),
      Leaf("number", Esc(d.number)),
      ArticlesElement(d.articles)])
  }

  /** The document root: one issue element per issue, in order. */
  function Document(issues: seq<IssueData>): Node {
    Element("issues", seq(|issues|, i requires 0 <= i < |issues| => IssueElement(issues[i])))
  }

  // ---------------------------------------------------------------------------
  // The builders: what generate and its append helpers do, step by step.

  /** appendTranslations: the translations element goes after the article's current children. */
  method AppendTranslations(articleChildren: seq<Node>, article: Article) returns (r: seq<Node>)
    ensures r == articleChildren + [TranslationsElement(article.Value())]
  {
    var translations: seq<Node> := [];
    if !IsEmpty(article.GetTitleTr()) {
      var tr := [Leaf("locale", "tr"),
                 Leaf("title", HtmlSpecialChars(article.GetTitleTr().value)),
                 Leaf("abstract", HtmlSpecialChars(OrEmpty(article.GetAbstractTr()))),
                 Leaf("keywords", HtmlSpecialChars(OrEmpty(article.GetKeywordsTr())))];
      translations := translations + [Element("translation", tr)];
    }
    if !IsEmpty(article.GetTitleEn()) {
      var en := [Leaf("locale", "en"),
                 Leaf("title", HtmlSpecialChars(article.GetTitleEn().value)),
                 Leaf("abstract", HtmlSpecialChars(OrEmpty(article.GetAbstractEn()))),
                 Leaf("keywords", HtmlSpecialChars(OrEmpty(article.GetKeywordsEn())))];
      translations := translations + [Element("translation", en)];
    }
    ghost var a := article.Value();
    assert translations ==
      (if !IsEmpty(a.titleTr) then [TranslationElement("tr", a.titleTr.value, a.abstractTr, a.keywordsTr)] else []) +
      (if !IsEmpty(a.titleEn) then [TranslationElement("en", a.titleEn.value, a.abstractEn, a.keywordsEn)] else []);
    r := articleChildren + [Element("translations", translations)];
  }

  /** appendAuthors: one author element per entry, in list order. */
  method AppendAuthors(articleChildren: seq<Node>, article: Article) returns (r: seq<Node>)
    ensures r == articleChildren + [AuthorsElement(article.Value().authors)]
  {
    var authors := article.GetAuthors();
    ghost var expected := AuthorsElement(authors).children;
    var elements: seq<Node> := [];
    for i := 0 to |authors|
      invariant elements == expected[..i]
    {
      var author := authors[i];
      var e := Element("author", [Leaf("firstname", HtmlSpecialChars(OrEmpty(author.firstName))),
                                  Leaf("lastname", HtmlSpecialChars(OrEmpty(author.lastName)))]);
      AppendNext(elements, expected, i, e);
      elements := elements + [e];
    }
    assert elements == expected;
    r := articleChildren + [Element("authors", elements)];
  }

  /** appendCitations: one citation element (row, then value) per entry, in list order. */
  method AppendCitations(articleChildren: seq<Node>, article: Article) returns (r: seq<Node>)
    ensures r == articleChildren + [CitationsElement(article.Value().citations)]
  {
    var citations := article.GetCitations();
    ghost var expected := CitationsElement(citations).children;
    var elements: seq<Node> := [];
    for i := 0 to |citations|
      invariant elements == expected[..i]
    {
      var citation := citations[i];
      var e := Element("citation", [Leaf("row", HtmlSpecialChars(OrEmpty(citation.row))),
                                    Leaf("value", HtmlSpecialChars(OrEmpty(citation.value)))]);
      AppendNext(elements, expected, i, e);
      elements := elements + [e];
    }
    assert elements == expected;
    r := articleChildren + [Element("citations", elements)];
  }

  /** The body of the inner foreach of generate: one article element. */
  method BuildArticle(article: Article) returns (e: Node)
    ensures e == ArticleElement(article.Value())
  {
    ghost var a := article.Value();
    var pdfUrl := OrEmpty(article.GetPdfUrl());
    var primaryLanguage := PrimaryLanguage(article.Value());
    var children := [Leaf("fulltext-file", pdfUrl),
                     Leaf("firstpage", HtmlSpecialChars(OrEmpty(article.GetFirstPage()))),
                     Leaf("lastpage", HtmlSpecialChars(OrEmpty(article.GetLastPage()))),
                     Leaf("primary-language", HtmlSpecialChars(primaryLanguage))];
    ghost var head := children;
    children := AppendTranslations(children, article);
    children := AppendAuthors(children, article);
    children := AppendCitations(children, article);
    assert children == head + [TranslationsElement(a), AuthorsElement(a.authors), CitationsElement(a.citations)];
    e := Element("article", children);
  }

  /** The body of the outer foreach of generate: one issue element with its articles. */
  method BuildIssue(issue: Issue) returns (e: Node)
    ensures e == IssueElement(issue.Value())
  {
    ghost var d := issue.Value();
    var children: seq<Node> := [];
    children := children + [Leaf("volume", HtmlSpecialChars(OrEmpty(issue.GetVolume())))];
    children := children + [Leaf("year", HtmlSpecialChars(OrEmpty(issue.GetYear())))];
    children := children + [Leaf("number", HtmlSpecialChars(OrEmpty(issue.GetNumber())))];
    var list := issue.GetArticles();
    ghost var expected := ArticlesElement(d.articles).children;
    var articles: seq<Node> := [];
    for k := 0 to |list|
      invariant articles == expected[..k]
    {
      var a := BuildArticle(list[k]);
      AppendNext(articles, expected, k, a);
      articles := articles + [a];
    }
    assert articles == expected;
    children := children + [Element("articles", articles)];
    e := Element("issue", children);
  }

  /** The tree-building part of generate: the issues root with one child per issue. */
  method BuildDocument(issues: seq<Issue>) returns (root: Node)
    ensures root == Document(IssueValues(issues))
  {
    ghost var values := IssueValues(issues);
    ghost var expected := Document(values).children;
    var children: seq<Node> := [];
    for k := 0 to |issues|
      invariant children == expected[..k]
    {
      assert issues[k].Value() == values[k];
      var e := BuildIssue(issues[k]);
      AppendNext(children, expected, k, e);
      children := children + [e];
    }
    assert children == expected;
    root := Element("issues", children);
  }
}
