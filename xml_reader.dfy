/**
 * What the generated document says, read back: a decoder for the element
 * tree of Serializer, and the lemmas that the tree records every field the
 * generators write (only null-versus-"" and empty titles are lost) and
 * that every text value except the PDF path is escaped.
 */
module XmlReader {
  import opened Wrappers
  import opened Php
  import opened Dom
  import opened Models
  import opened Serializer

  datatype TranslationRecord = TranslationRecord(locale: string, title: string, abstractText: string, keywords: string)
  datatype AuthorRecord = AuthorRecord(firstName: string, lastName: string)
  datatype CitationRecord = CitationRecord(row: string, value: string)
  datatype ArticleRecord = ArticleRecord(
    fulltextFile: string,
    firstPage: string,
    lastPage: string,
    primaryLanguage: string,
    translations: seq<TranslationRecord>,
    authors: seq<AuthorRecord>,
    citations: seq<CitationRecord>)
  datatype IssueRecord = IssueRecord(volume: string, year: string, number: string, articles: seq<ArticleRecord>)

  // ---------------------------------------------------------------------------
  // What the output records about each entity.

  function AuthorRecorded(author: Author): AuthorRecord {
    AuthorRecord(OrEmpty(author.firstName), OrEmpty(author.lastName))
  }

  function CitationRecorded(citation: Citation): CitationRecord {
    CitationRecord(OrEmpty(citation.row), OrEmpty(citation.value))
  }

  /** An article as the output records it: one translation per non-empty title, Turkish first. */
  function TranslationsRecorded(a: ArticleData): seq<TranslationRecord> {
    (if IsEmpty(a.titleTr) then [] else [TranslationRecord("tr", a.titleTr.value, OrEmpty(a.abstractTr), OrEmpty(a.keywordsTr))]) +
    (if IsEmpty(a.titleEn) then [] else [TranslationRecord("en", a.titleEn.value, OrEmpty(a.abstractEn), OrEmpty(a.keywordsEn))])
  }

  function AuthorsRecorded(authors: seq<Author>): seq<AuthorRecord> {
    seq(|authors|, i requires 0 <= i < |authors| => AuthorRecorded(authors[i]))
  }

  function CitationsRecorded(citations: seq<Citation>): seq<CitationRecord> {
    seq(|citations|, i requires 0 <= i < |citations| => CitationRecorded(citations[i]))
  }

  function ArticleRecorded(a: ArticleData): ArticleRecord {
    ArticleRecord(OrEmpty(a.pdfUrl), OrEmpty(a.firstPage), OrEmpty(a.lastPage), PrimaryLanguage(a),
                  TranslationsRecorded(a), AuthorsRecorded(a.authors), CitationsRecorded(a.citations))
  }

  function ArticlesRecorded(articles: seq<ArticleData>): seq<ArticleRecord> {
    seq(|articles|, i requires 0 <= i < |articles| => ArticleRecorded(articles[i]))
  }

  function IssueRecorded(d: IssueData): IssueRecord {
    IssueRecord(OrEmpty(d.volume), OrEmpty(d.year), OrEmpty(d.number), ArticlesRecorded(d.articles))
  }

  // ---------------------------------------------------------------------------
  // The decoder.

  /** The text of a one-text-node element named `name`, as stored. */
  function ReadRaw(n: Node, name: string): Option<string> {
    if n.Element? && n.name == name && |n.children| == 1 && n.children[0].Text?
    then Some(n.children[0].content) else None
  }

  /** The text of a one-text-node element named `name`, entity references read back. */
  function ReadEscaped(n: Node, name: string): Option<string> {
    match ReadRaw(n, name)
    case Some(s) => Some(Unescape(s))
    case None => None
  }

  /** Reads every node of a list with `read`; fails if any one fails. */
  function ReadEach<T>(ns: seq<Node>, read: Node -> Option<T>): Option<seq<T>> {
    if ns == [] then Some([])
    else
      match (read(ns[0]), ReadEach(ns[1..], read))
      case (Some(x), Some(xs)) => Some([x] + xs)
      case _ => None
  }

  /** The children of an element named `name`, each read with `read`. */
  function ReadList<T>(n: Node, name: string, read: Node -> Option<T>): Option<seq<T>> {
    if n.Element? && n.name == name then ReadEach(n.children, read) else None
  }

  function ReadTranslation(n: Node): Option<TranslationRecord> {
    if n.Element? && n.name == "translation" && |n.children| == 4 then
      match (ReadRaw(n.children[0], "locale"), ReadEscaped(n.children[1], "title"),
             ReadEscaped(n.children[2], "abstract"), ReadEscaped(n.children[3], "keywords"))
      case (Some(l), Some(t), Some(s), Some(k)) => Some(TranslationRecord(l, t, s, k))
      case _ => None
    else None
  }

  function ReadAuthor(n: Node): Option<AuthorRecord> {
    if n.Element? && n.name == "author" && |n.children| == 2 then
      match (ReadEscaped(n.children[0], "firstname"), ReadEscaped(n.children[1], "lastname"))
      case (Some(f), Some(l)) => Some(AuthorRecord(f, l))
      case _ => None
    else None
  }

  function ReadCitation(n: Node): Option<CitationRecord> {
    if n.Element? && n.name == "citation" && |n.children| == 2 then
      match (ReadEscaped(n.children[0], "row"), ReadEscaped(n.children[1], "value"))
      case (Some(r), Some(v)) => Some(CitationRecord(r, v))
      case _ => None
    else None
  }

  function ReadArticle(n: Node): Option<ArticleRecord> {
    if n.Element? && n.name == "article" && |n.children| == 7 then
      var c := n.children;
      var f := ReadRaw(c[0], "fulltext-file");
      var fp := ReadEscaped(c[1], "firstpage");
      var lp := ReadEscaped(c[2], "lastpage");
      var pl := ReadEscaped(c[3], "primary-language");
      var ts := ReadList(c[4], "translations", ReadTranslation);
      var au := ReadList(c[5], "authors", ReadAuthor);
      var ci := ReadList(c[6], "citations", ReadCitation);
      if f.Some? && fp.Some? && lp.Some? && pl.Some? && ts.Some? && au.Some? && ci.Some?
      then Some(ArticleRecord(f.value, fp.value, lp.value, pl.value, ts.value, au.value, ci.value))
      else None
    else None
  }

  function ReadIssue(n: Node): Option<IssueRecord> {
    if n.Element? && n.name == "issue" && |n.children| == 4 then
      var c := n.children;
      match (ReadEscaped(c[0], "volume"), ReadEscaped(c[1], "year"), ReadEscaped(c[2], "number"),
             ReadList(c[3], "articles", ReadArticle))
      case (Some(v), Some(y), Some(nu), Some(arts)) => Some(IssueRecord(v, y, nu, arts))
      case _ => None
    else None
  }

  function ReadDocument(n: Node): Option<seq<IssueRecord>> {
    ReadList(n, "issues", ReadIssue)
  }

  // ---------------------------------------------------------------------------
  // Round trip: reading the generated tree gives back what was recorded.

  lemma {:induction false} ReadEachAll<T>(ns: seq<Node>, read: Node -> Option<T>, expected: seq<T>)
    requires |ns| == |expected|
    requires forall i :: 0 <= i < |ns| ==> read(ns[i]) == Some(expected[i])
    ensures ReadEach(ns, read) == Some(expected)
  {
    if ns != [] {
      ReadEachAll(ns[1..], read, expected[1..]);
      assert expected == [expected[0]] + expected[1..];
    }
  }

  lemma ReadEscapedLeaf(name: string, s: string)
    ensures ReadEscaped(Leaf(name, HtmlSpecialChars(s)), name) == Some(s)
  {
    UnescapeEscape(s);
  }

  lemma ReadTranslationElement(locale: string, title: string, abstractText: Option<string>, keywords: Option<string>)
    ensures ReadTranslation(TranslationElement(locale, title, abstractText, keywords))
         == Some(TranslationRecord(locale, title, OrEmpty(abstractText), OrEmpty(keywords)))
  {
    ReadEscapedLeaf("title", title);
    ReadEscapedLeaf("abstract", OrEmpty(abstractText));
    ReadEscapedLeaf("keywords", OrEmpty(keywords));
  }

  lemma ReadAuthorElement(author: Author)
    ensures ReadAuthor(AuthorElement(author)) == Some(AuthorRecorded(author))
  {
    ReadEscapedLeaf("firstname", OrEmpty(author.firstName));
    ReadEscapedLeaf("lastname", OrEmpty(author.lastName));
  }

  lemma ReadCitationElement(citation: Citation)
    ensures ReadCitation(CitationElement(citation)) == Some(CitationRecorded(citation))
  {
    ReadEscapedLeaf("row", OrEmpty(citation.row));
    ReadEscapedLeaf("value", OrEmpty(citation.value));
  }

  lemma ReadTranslationsElement(a: ArticleData)
    ensures ReadList(TranslationsElement(a), "translations", ReadTranslation) == Some(TranslationsRecorded(a))
  {
    if !IsEmpty(a.titleTr) {
      ReadTranslationElement("tr", a.titleTr.value, a.abstractTr, a.keywordsTr);
    }
    if !IsEmpty(a.titleEn) {
      ReadTranslationElement("en", a.titleEn.value, a.abstractEn, a.keywordsEn);
    }
    ReadEachAll(TranslationsElement(a).children, ReadTranslation, TranslationsRecorded(a));
  }

  lemma ReadAuthorsElement(authors: seq<Author>)
    ensures ReadList(AuthorsElement(authors), "authors", ReadAuthor)
         == Some(AuthorsRecorded(authors))
  {
    var c := AuthorsElement(authors).children;
    var expected := AuthorsRecorded(authors);
    forall i | 0 <= i < |authors| ensures ReadAuthor(c[i]) == Some(expected[i]) {
      ReadAuthorElement(authors[i]);
    }
    ReadEachAll(c, ReadAuthor, expected);
  }

  lemma ReadCitationsElement(citations: seq<Citation>)
    ensures ReadList(CitationsElement(citations), "citations", ReadCitation)
         == Some(CitationsRecorded(citations))
  {
    var c := CitationsElement(citations).children;
    var expected := CitationsRecorded(citations);
    forall i | 0 <= i < |citations| ensures ReadCitation(c[i]) == Some(expected[i]) {
      ReadCitationElement(citations[i]);
    }
    ReadEachAll(c, ReadCitation, expected);
  }

  /** An article element reads back as the record of its seven readable children. */
  lemma ReadArticleParts(c0: Node, c1: Node, c2: Node, c3: Node, c4: Node, c5: Node, c6: Node,
                         f: string, fp: string, lp: string, pl: string,
                         ts: seq<TranslationRecord>, au: seq<AuthorRecord>, ci: seq<CitationRecord>)
    requires ReadRaw(c0, "fulltext-file") == Some(f)
    requires ReadEscaped(c1, "firstpage") == Some(fp)
    requires ReadEscaped(c2, "lastpage") == Some(lp)
    requires ReadEscaped(c3, "primary-language") == Some(pl)
    requires ReadList(c4, "translations", ReadTranslation) == Some(ts)
    requires ReadList(c5, "authors", ReadAuthor) == Some(au)
    requires ReadList(c6, "citations", ReadCitation) == Some(ci)
    ensures ReadArticle(Element("article", [c0, c1, c2, c3, c4, c5, c6])) == Some(ArticleRecord(f, fp, lp, pl, ts, au, ci))
  {
    var n := Element("article", [c0, c1, c2, c3, c4, c5, c6]);
    assert n.children[0] == c0 && n.children[1] == c1 && n.children[2] == c2 && n.children[3] == c3;
    assert n.children[4] == c4 && n.children[5] == c5 && n.children[6] == c6;
  }

  /**
   * The article element records, readably, the raw PDF path, both pages,
   * the primary language, a translation per non-empty title (Turkish first)
   * and every author and citation in order.
   */
  lemma ReadArticleElement(a: ArticleData)
    ensures ReadArticle(ArticleElement(a)) == Some(ArticleRecorded(a))
  {
    ReadEscapedLeaf("firstpage", OrEmpty(a.firstPage));
    ReadEscapedLeaf("lastpage", OrEmpty(a.lastPage));
    ReadEscapedLeaf("primary-language", PrimaryLanguage(a));
    ReadTranslationsElement(a);
    ReadAuthorsElement(a.authors);
    ReadCitationsElement(a.citations);
    ReadArticleParts(Leaf("fulltext-file", OrEmpty(a.pdfUrl)), Leaf("firstpage", Esc(a.firstPage)),
                     Leaf("lastpage", Esc(a.lastPage)), Leaf("primary-language", HtmlSpecialChars(PrimaryLanguage(a))),
                     TranslationsElement(a), AuthorsElement(a.authors), CitationsElement(a.citations),
                     OrEmpty(a.pdfUrl), OrEmpty(a.firstPage), OrEmpty(a.lastPage), PrimaryLanguage(a),
                     TranslationsRecorded(a), AuthorsRecorded(a.authors), CitationsRecorded(a.citations));
  }

  lemma ReadArticlesElement(articles: seq<ArticleData>)
    ensures ReadList(ArticlesElement(articles), "articles", ReadArticle) == Some(ArticlesRecorded(articles))
  {
    var c := ArticlesElement(articles).children;
    var expected := ArticlesRecorded(articles);
    forall i | 0 <= i < |articles| ensures ReadArticle(c[i]) == Some(expected[i]) {
      ReadArticleElement(articles[i]);
    }
    ReadEachAll(c, ReadArticle, expected);
  }

  lemma ReadIssueParts(c0: Node, c1: Node, c2: Node, c3: Node, v: string, y: string, nu: string, arts: seq<ArticleRecord>)
    requires ReadEscaped(c0, "volume") == Some(v)
    requires ReadEscaped(c1, "year") == Some(y)
    requires ReadEscaped(c2, "number") == Some(nu)
    requires ReadList(c3, "articles", ReadArticle) == Some(arts)
    ensures ReadIssue(Element("issue", [c0, c1, c2, c3])) == Some(IssueRecord(v, y, nu, arts))
  {
    var n := Element("issue", [c0, c1, c2, c3]);
    assert n.children[0] == c0 && n.children[1] == c1 && n.children[2] == c2 && n.children[3] == c3;
  }

  /** The issue element records volume, year, number and every article, in order. */
  lemma ReadIssueElement(d: IssueData)
    ensures ReadIssue(IssueElement(d)) == Some(IssueRecorded(d))
  {
    ReadEscapedLeaf("volume", OrEmpty(d.volume));
    ReadEscapedLeaf("year", OrEmpty(d.year));
    ReadEscapedLeaf("number", OrEmpty(d.number));
    ReadArticlesElement(d.articles);
    ReadIssueParts(Leaf("volume", Esc(d.volume)), Leaf("year", Esc(d.year)), Leaf("number", Esc(d.number)),
                   ArticlesElement(d.articles), OrEmpty(d.volume), OrEmpty(d.year), OrEmpty(d.number),
                   ArticlesRecorded(d.articles));
  }

  /** The whole document reads back as one record per issue, in input order. */
  lemma ReadDocumentOf(issues: seq<IssueData>)
    ensures ReadDocument(Document(issues))
         == Some(seq(|issues|, i requires 0 <= i < |issues| => IssueRecorded(issues[i])))
  {
    var c := Document(issues).children;
    var expected := seq(|issues|, i requires 0 <= i < |issues| => IssueRecorded(issues[i]));
    forall i | 0 <= i < |issues| ensures ReadIssue(c[i]) == Some(expected[i]) {
      ReadIssueElement(issues[i]);
    }
    ReadEachAll(c, ReadIssue, expected);
  }

  /** The primary language is the locale of the first translation, or "" when there is none. */
  lemma PrimaryLanguageLeadsTranslations(a: ArticleData)
    ensures var r := ArticleRecorded(a);
      r.primaryLanguage == if r.translations == [] then "" else r.translations[0].locale
  {
  }

  // ---------------------------------------------------------------------------
  // Escaping: only fulltext-file may hold raw markup.

  lemma EscapedLeaf(name: string, s: string, exempt: string)
    ensures EscapedOutside(Leaf(name, HtmlSpecialChars(s)), exempt)
  {
    assert EscapedOutside(Leaf(name, HtmlSpecialChars(s)).children[0], exempt);
  }

  lemma LocaleEscaped(locale: string, exempt: string)
    requires locale == "tr" || locale == "en"
    ensures EscapedOutside(Leaf("locale", locale), exempt)
  {
    assert EscapedOutside(Leaf("locale", locale).children[0], exempt);
  }

  lemma TranslationEscaped(locale: string, title: string, abstractText: Option<string>, keywords: Option<string>, exempt: string)
    requires locale == "tr" || locale == "en"
    ensures EscapedOutside(TranslationElement(locale, title, abstractText, keywords), exempt)
  {
    var c := TranslationElement(locale, title, abstractText, keywords).children;
    LocaleEscaped(locale, exempt);
    EscapedLeaf("title", title, exempt);
    EscapedLeaf("abstract", OrEmpty(abstractText), exempt);
    EscapedLeaf("keywords", OrEmpty(keywords), exempt);
    assert EscapedOutside(c[0], exempt) && EscapedOutside(c[1], exempt);
    assert EscapedOutside(c[2], exempt) && EscapedOutside(c[3], exempt);
  }

  lemma TranslationsEscaped(a: ArticleData, exempt: string)
    ensures EscapedOutside(TranslationsElement(a), exempt)
  {
    if !IsEmpty(a.titleTr) {
      TranslationEscaped("tr", a.titleTr.value, a.abstractTr, a.keywordsTr, exempt);
    }
    if !IsEmpty(a.titleEn) {
      TranslationEscaped("en", a.titleEn.value, a.abstractEn, a.keywordsEn, exempt);
    }
  }

  lemma AuthorsEscaped(authors: seq<Author>, exempt: string)
    ensures EscapedOutside(AuthorsElement(authors), exempt)
  {
    var c := AuthorsElement(authors).children;
    forall i | 0 <= i < |authors| ensures EscapedOutside(c[i], exempt) {
      EscapedLeaf("firstname", OrEmpty(authors[i].firstName), exempt);
      EscapedLeaf("lastname", OrEmpty(authors[i].lastName), exempt);
      assert EscapedOutside(c[i].children[0], exempt);
      assert EscapedOutside(c[i].children[1], exempt);
    }
  }

  lemma CitationsEscaped(citations: seq<Citation>, exempt: string)
    ensures EscapedOutside(CitationsElement(citations), exempt)
  {
    var c := CitationsElement(citations).children;
    forall i | 0 <= i < |citations| ensures EscapedOutside(c[i], exempt) {
      EscapedLeaf("row", OrEmpty(citations[i].row), exempt);
      EscapedLeaf("value", OrEmpty(citations[i].value), exempt);
      assert EscapedOutside(c[i].children[0], exempt);
      assert EscapedOutside(c[i].children[1], exempt);
    }
  }

  /** Every text of an article except the fulltext-file path passes through htmlspecialchars. */
  lemma ArticleEscaped(a: ArticleData)
    ensures EscapedOutside(ArticleElement(a), "fulltext-file")
    ensures ArticleElement(a).children[0] == Leaf("fulltext-file", OrEmpty(a.pdfUrl))
  {
    var x := "fulltext-file";
    EscapedLeaf("firstpage", OrEmpty(a.firstPage), x);
    EscapedLeaf("lastpage", OrEmpty(a.lastPage), x);
    EscapedLeaf("primary-language", PrimaryLanguage(a), x);
    TranslationsEscaped(a, x);
    AuthorsEscaped(a.authors, x);
    CitationsEscaped(a.citations, x);
    ChildrenEscaped("article", Leaf(x, OrEmpty(a.pdfUrl)), Leaf("firstpage", Esc(a.firstPage)),
                    Leaf("lastpage", Esc(a.lastPage)), Leaf("primary-language", HtmlSpecialChars(PrimaryLanguage(a))),
                    TranslationsElement(a), AuthorsElement(a.authors), CitationsElement(a.citations), x);
  }

  /** An element whose seven children are escaped is escaped. */
  lemma ChildrenEscaped(name: string, c0: Node, c1: Node, c2: Node, c3: Node, c4: Node, c5: Node, c6: Node, exempt: string)
    requires c0.Element? && c0.name == exempt
    requires EscapedOutside(c1, exempt) && EscapedOutside(c2, exempt) && EscapedOutside(c3, exempt)
    requires EscapedOutside(c4, exempt) && EscapedOutside(c5, exempt) && EscapedOutside(c6, exempt)
    ensures EscapedOutside(Element(name, [c0, c1, c2, c3, c4, c5, c6]), exempt)
  {
    var c := [c0, c1, c2, c3, c4, c5, c6];
    assert EscapedOutside(c[0], exempt);
  }

  /** The whole document: every text value outside fulltext-file elements is escaped. */
  lemma DocumentEscaped(issues: seq<IssueData>)
    ensures EscapedOutside(Document(issues), "fulltext-file")
  {
    var x := "fulltext-file";
    var c := Document(issues).children;
    forall i | 0 <= i < |issues| ensures EscapedOutside(c[i], x) {
      var d := issues[i];
      var ic := IssueElement(d).children;
      EscapedLeaf("volume", OrEmpty(d.volume), x);
      EscapedLeaf("year", OrEmpty(d.year), x);
      EscapedLeaf("number", OrEmpty(d.number), x);
      forall j | 0 <= j < |d.articles| ensures EscapedOutside(ic[3].children[j], x) {
        ArticleEscaped(d.articles[j]);
      }
      assert forall j :: 0 <= j < 4 ==> EscapedOutside(ic[j], x);
    }
  }

  /** The exemption is real: a PDF path with markup reaches the tree unescaped. */
  lemma FulltextNotEscaped()
    ensures var a := NewArticle.(pdfUrl := Some("a<b"));
      !EscapedOutside(ArticleElement(a), "")
  {
    var a := NewArticle.(pdfUrl := Some("a<b"));
    var t := ArticleElement(a).children[0].children[0];
    assert t == Text("a<b");
    assert !NoMarkup("a<b") by { assert IsMarkup("a<b"[1]); }
  }
}
