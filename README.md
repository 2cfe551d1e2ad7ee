# duck-scraper core, modelled in Dafny

duck-scraper crawls a directory of journal-issue XML files. `DocCrawler`
turns each file into an `Issue` holding a volume, a number and one
`Article` per "Makale <digits>" marker. Each article gets the file's
English and Turkish title and abstract, extracted with fixed regular
expressions. The crawler then hands the issues to a `Generator`, which
builds a DOM tree with this shape:

    issues > issue > (volume, year, number, articles > article > ...)

The generator escapes every text value except the PDF path with
`htmlspecialchars` and saves the document as `<category>_output.xml`.
There are two copies of the generator:

- `src/Utils/Generator.php` writes next to itself under `../output/` and
  reports a failed save.
- `duck_scraper/src/Utils/Generator.php` writes to the fixed directory
  `/var/tmp/web_crawler/xml/`. It fails only when that directory is missing
  and cannot be created.

The model has these modules:

- `Wrappers`: `Option`, which stands for PHP's `null`.
- `Php`: the builtins the core relies on.
  - `empty`, `??`, `htmlspecialchars`, `dirname` and `basename` on
    `/`-separated paths.
  - `Unescape`, which reads the five entity references back and serves as
    the inverse of `htmlspecialchars`.
- `Dom`: the document as an abstract tree of elements and text nodes.
  `createElement($name, $text)` becomes `Leaf(name, text)`.
- `Models`: the two classes whose fields the code updates in place.
  - `Article` has twelve nullable or list fields and a getter/setter pair for each.
  - `Issue` has volume, number, year and an article list that `addArticle`
    appends to.
  - Each class has a `Value()` snapshot (`ArticleData`, `IssueData`) that
    the generator reads.
- `Filesystem`: a deterministic stand-in for `is_dir`, `mkdir` and
  `DOMDocument::save`. It holds:
  - the set of existing directories;
  - the set of directories that can be neither created nor written;
  - the set of paths that cannot be written even in a writable directory
    (the path is a directory or a read-only file, or the disk is full);
  - the saved documents.
- `Serializer`: the tree-building part of `generate`, which is the same in
  both copies.
  - Pure functions say what each element is.
  - The imperative `foreach`/`appendChild` builders are proved against those
    functions.
- `XmlReader`: a decoder for the generated tree. Its lemmas prove two things:
  - the tree records every field the generator writes, in order;
  - only `fulltext-file` can hold raw markup.
- `Generator` and `DuckGenerator`: the output path, `saveXml` and `generate`
  of each copy.
- `DocCrawler`:
  - The fixed patterns are matched as PCRE matches them: leftmost match,
    greedy capture, `\d+` and `.` that stops at a line feed.
  - The `preg_match_all` scan over "Makale <digits>" markers.
  - `processXmlFile` and `crawl` as methods that create and mutate
    `Issue` and `Article` objects.

## Model

| member | source | states |
|---|---|---|
| Php.OrEmpty | src/Utils/Generator.php:28 | `$v ?? ''` returns a set value unchanged, and gives "" exactly when the value is null or already "" |
| Php.IsEmpty | src/Utils/Generator.php:100 | PHP `empty` on a nullable string holds exactly when `$v ?? ''` is "" or "0" |
| Php.HtmlSpecialChars | src/Utils/Generator.php:28 | the escaped text is at least as long as the input and contains none of `<`, `>`, `"`, `'`; text without special characters is returned unchanged |
| Php.UnescapeEscape | src/Utils/Generator.php:66-74 | escaping loses nothing: unescaping `htmlspecialchars(s)` gives `s` back, for every `s` |
| Php.UnescapeAfterEscapeChar | src/Utils/Generator.php:66 | each character's entity reference (`&amp;`, `&lt;`, `&gt;`, `&quot;`, `&#039;`) or the plain character itself reads back as that character |
| Php.EscapeInjective | src/Utils/Generator.php:120 | two texts that escape to the same string are the same text |
| Php.BaseName | src/Crawler/DocCrawler.php:44 | `basename` never contains a `/` |
| Php.BaseNameOfJoin | src/Crawler/DocCrawler.php:44 | the basename of `dir/name` is `name` when `name` is a single component |
| Php.DirName | src/Utils/Generator.php:166 | `dirname` is "" only for "", "." for a bare name, and otherwise "/" or a proper prefix of the path that does not end in a slash |
| Php.DirNameOfJoin | src/Utils/Generator.php:166 | the dirname of `dir/name` is `dir` when `name` is a single component and `dir` has no trailing slash |
| Php.TrimTrailingSlashes | src/Utils/Generator.php:166 | `dirname`'s first step removes exactly the trailing run of slashes, leaving a prefix that does not end in `/` |
| Php.TrimTrailingName | src/Utils/Generator.php:166 | `dirname`'s second step removes exactly the last path component, leaving a prefix that is empty or ends in `/` |
| Models.Article.constructor | duck_scraper/src/Models/Article.php:20-36 | a fresh Article has all ten scalar fields null and empty author and citation lists |
| Models.Article.SetTitleTr | duck_scraper/src/Models/Article.php:38-46 | get after set returns the value; every other field is unchanged |
| Models.Article.SetTitleEn | duck_scraper/src/Models/Article.php:48-56 | get after set returns the value; every other field is unchanged |
| Models.Article.SetAbstractTr | duck_scraper/src/Models/Article.php:58-66 | get after set returns the value; every other field is unchanged |
| Models.Article.SetAbstractEn | duck_scraper/src/Models/Article.php:68-76 | get after set returns the value; every other field is unchanged |
| Models.Article.SetKeywordsTr | duck_scraper/src/Models/Article.php:78-86 | get after set returns the value; every other field is unchanged |
| Models.Article.SetKeywordsEn | duck_scraper/src/Models/Article.php:88-96 | get after set returns the value; every other field is unchanged |
| Models.Article.SetFirstPage | duck_scraper/src/Models/Article.php:98-106 | get after set returns the value; every other field is unchanged |
| Models.Article.SetLastPage | duck_scraper/src/Models/Article.php:108-116 | get after set returns the value; every other field is unchanged |
| Models.Article.SetPdfUrl | duck_scraper/src/Models/Article.php:118-126 | get after set returns the value; the PDF path changes through this setter only |
| Models.Article.SetPrimaryLanguage | duck_scraper/src/Models/Article.php:128-136 | get after set returns the value; the stored language changes through this setter only and never through the title setters |
| Models.Article.SetAuthors | duck_scraper/src/Models/Article.php:138-146 | the whole author list is replaced by the given one, not appended to; every other field is unchanged |
| Models.Article.SetCitations | duck_scraper/src/Models/Article.php:148-156 | the whole citation list is replaced by the given one, not appended to; every other field is unchanged |
| Models.Issue.constructor | src/Models/Issue.php:7-17 | a fresh Issue has null volume, number and year and no articles |
| Models.Issue.SetVolume | src/Models/Issue.php:19-27 | get after set returns the value; number, year and articles are unchanged |
| Models.Issue.SetNumber | src/Models/Issue.php:29-37 | get after set returns the value; volume, year and articles are unchanged |
| Models.Issue.SetYear | src/Models/Issue.php:39-47 | get after set returns the value; volume, number and articles are unchanged |
| Models.Issue.AddArticle | src/Models/Issue.php:49-57 | getArticles afterwards is the old list with the article appended last, so articles come back in insertion order; volume, number and year are unchanged |
| Filesystem.FileSystem.Mkdir | src/Utils/Generator.php:167-168 | mkdir succeeds exactly when the directory is missing and creatable, and then adds just that directory |
| Filesystem.FileSystem.Save | src/Utils/Generator.php:172 | save succeeds exactly when the file's directory exists and is writable and the path itself can be written, and then stores the document under the path |
| Serializer.PrimaryLanguage | src/Utils/Generator.php:98-108 | "tr" exactly when titleTr is non-empty in PHP's sense; "en" exactly when titleTr is empty and titleEn is non-empty; "" exactly when both are empty |
| Serializer.TranslationsElement | src/Utils/Generator.php:110-134 | one translation child per non-empty title; each child has four children; the Turkish one comes first and the English one last |
| Serializer.AppendTranslations | src/Utils/Generator.php:110-134 | appends the translations element (Turkish if titled, then English if titled; locale, title, abstract, keywords each) after the existing children |
| Serializer.AppendAuthors | src/Utils/Generator.php:136-147 | appends an authors element with one author (firstname, lastname, null as "") per entry, in list order |
| Serializer.AppendCitations | src/Utils/Generator.php:149-160 | appends a citations element with one citation (row, then value, null as "") per entry, in list order |
| Serializer.BuildArticle | src/Utils/Generator.php:43-84 | the article element is fulltext-file, firstpage, lastpage, primary-language, translations, authors, citations, in that order |
| Serializer.BuildIssue | src/Utils/Generator.php:25-44 | the issue element is volume, year, number and then articles, with one article element per article in list order |
| Serializer.BuildDocument | src/Utils/Generator.php:17-26 | the root `issues` element has one issue element per input issue, in input order |
| XmlReader.ReadTranslationsElement | src/Utils/Generator.php:116-133 | the translations element reads back as the non-empty titles' locale, title, abstract and keywords, Turkish first, with null as "" |
| XmlReader.ReadAuthorsElement | src/Utils/Generator.php:141-146 | the authors element reads back as every author's first and last name, in order |
| XmlReader.ReadCitationsElement | src/Utils/Generator.php:154-159 | the citations element reads back as every citation's row and value, in order |
| XmlReader.ReadArticleElement | src/Utils/Generator.php:43-84 | an article element reads back as its raw PDF path, unescaped pages, primary language, translations, authors and citations |
| XmlReader.ReadIssueElement | src/Utils/Generator.php:25-44 | an issue element reads back as volume, year, number and every article, in order |
| XmlReader.ReadDocumentOf | src/Utils/Generator.php:20-26 | the whole document reads back as one record per issue, in input order |
| XmlReader.PrimaryLanguageLeadsTranslations | src/Utils/Generator.php:73-78 | the recorded primary language is the locale of the first translation, or "" when there is none |
| XmlReader.ArticleEscaped | src/Utils/Generator.php:59-74 | every text inside an article except the fulltext-file element holds no raw markup, and fulltext-file holds the raw PDF path ("" when null) |
| XmlReader.DocumentEscaped | src/Utils/Generator.php:28-35 | every text value of the document outside fulltext-file elements is free of raw markup |
| XmlReader.FulltextNotEscaped | src/Utils/Generator.php:59 | the exemption is real: a PDF path containing `<` reaches the tree unescaped |
| Generator.OutputPathDirectory | src/Utils/Generator.php:89 | the output file is `<category>_output.xml` in the directory `../output` beside the generator |
| Generator.SaveXml | src/Utils/Generator.php:162-181 | the directory is created only when missing; the call fails exactly when save returns false (the directory is unwritable or the path cannot be written), with "Error saving XML: Failed to save XML to <path>"; the file is stored exactly when it succeeds |
| Generator.Generate | src/Utils/Generator.php:13-96 | builds the document for the issues in order, saves it at the category's path or reports "Error generating XML: ..." instead of propagating the error; directories only grow |
| DuckGenerator.OutputPathDirectory | duck_scraper/src/Utils/Generator.php:72-73 | the output file is always `/var/tmp/web_crawler/xml/<category>_output.xml` |
| DuckGenerator.SaveXml | duck_scraper/src/Utils/Generator.php:159-171 | fails only when the directory is absent, mkdir fails and it is still absent, with `Directory "<dir>" was not created`; otherwise saves and ignores save's result, so a path that cannot be written is silently not stored |
| DuckGenerator.Generate | duck_scraper/src/Utils/Generator.php:14-79 | builds the same document, and a saveXml failure is reported as "Error generating XML: ..." instead of escaping |
| DuckGenerator.ExistingDirectoryNeverFails | duck_scraper/src/Utils/Generator.php:163-164 | when the output directory exists, saveXml never reports an error |
| DocCrawler.LastOccurrence | src/Crawler/DocCrawler.php:110 | the last index in a range where the closing literal occurs, or none when it occurs nowhere in the range |
| DocCrawler.LastCloseIsPreferred | src/Crawler/DocCrawler.php:110 | the capture ending at the last closing literal within reach is the longest one, as PCRE's greedy quantifier chooses |
| DocCrawler.MatchAt | src/Crawler/DocCrawler.php:110 | a match attempt at one index returns the longest capture that fits the pattern there, and fails only when no capture fits |
| DocCrawler.FirstMatchFrom | src/Crawler/DocCrawler.php:110 | returns the leftmost index at which the pattern matches, with its capture, or none when it matches nowhere |
| DocCrawler.ExtractWithRegex | src/Crawler/DocCrawler.php:108-114 | the first capture group of the leftmost match, or null; a returned value fits the capture (`\d+` or `.*`) |
| DocCrawler.ExtractWithRegexSpec | src/Crawler/DocCrawler.php:108-114 | extractWithRegex returns the greedy capture at the leftmost matching index and is null exactly when the pattern matches nowhere |
| DocCrawler.CrawlVolumeDigits | src/Crawler/DocCrawler.php:78-81 | a found volume is a non-empty all-digit string enclosed in a `<volume>` tag pair in the file; null only when no such pair occurs |
| DocCrawler.CrawlNumberDigits | src/Crawler/DocCrawler.php:83-86 | a found number is a non-empty all-digit string enclosed in a `<number>` tag pair in the file; null only when no such pair occurs |
| DocCrawler.CrawlTitleEnOneLine | src/Crawler/DocCrawler.php:88-91 | a found English title has no line feed and occurs between `<title_en>` and `</title_en>`; null only when no such pair occurs on one line |
| DocCrawler.CrawlTitleTrOneLine | src/Crawler/DocCrawler.php:93-96 | a found Turkish title has no line feed and occurs between `<title_tr>` and `</title_tr>`; null only when no such pair occurs on one line |
| DocCrawler.CrawlAbstractEnOneLine | src/Crawler/DocCrawler.php:98-101 | a found English abstract has no line feed and occurs between its tags; null only when no such pair occurs on one line |
| DocCrawler.CrawlAbstractTrOneLine | src/Crawler/DocCrawler.php:103-106 | a found Turkish abstract has no line feed and occurs between its tags; null only when no such pair occurs on one line |
| DocCrawler.MarkerAt | src/Crawler/DocCrawler.php:64 | the marker pattern matches at an index exactly when "Makale " (case-sensitive) followed by a digit begins there |
| DocCrawler.MarkerMatchesFrom | src/Crawler/DocCrawler.php:64 | every capture preg_match_all collects is a non-empty run of digits |
| DocCrawler.MarkerCapture | src/Crawler/DocCrawler.php:64 | a marker's capture is the whole digit run after "Makale " |
| DocCrawler.NextMarkerIsFirstMatch | src/Crawler/DocCrawler.php:64 | each step of the marker scan is the leftmost match from where the previous match ended, with its capture |
| DocCrawler.MarkerCountStep | src/Crawler/DocCrawler.php:64 | from the scan position to the end of the next match there is exactly one marker beginning, so matches do not overlap |
| DocCrawler.MarkerCountFrom | src/Crawler/DocCrawler.php:64-65 | the number of matches preg_match_all returns is the number of positions where a marker begins |
| DocCrawler.CrawledIssueShape | src/Crawler/DocCrawler.php:60-75 | a crawled issue has no year, one article per marker, and all its articles carry the same values |
| DocCrawler.CrawledArticleUntouched | src/Crawler/DocCrawler.php:66-73 | the crawler never sets keywords, pages, the PDF path, the primary language, authors or citations |
| DocCrawler.NewCrawledArticle | src/Crawler/DocCrawler.php:66-72 | a fresh Article with the file's English and Turkish title and abstract and nothing else set |
| DocCrawler.AddCrawledArticle | src/Crawler/DocCrawler.php:66-74 | one pass of the marker loop appends one fresh crawled article last and changes nothing else of the issue |
| DocCrawler.AddCrawledArticles | src/Crawler/DocCrawler.php:65-75 | the marker loop appends the given number of fresh crawled articles after the existing ones and leaves volume, number and year alone |
| DocCrawler.ProcessXmlFile | src/Crawler/DocCrawler.php:54-76 | sets volume and number from the file, leaves year alone, keeps the existing articles and appends one fresh crawled article per marker |
| DocCrawler.NewCrawledIssue | src/Crawler/DocCrawler.php:36-37 | a fresh Issue processed from one file is the crawled issue of that file: its volume and number, no year, one crawled article per marker |
| DocCrawler.CrawlFiles | src/Crawler/DocCrawler.php:29-41 | one fresh Issue per file, in file order, each the crawled issue of that file |
| DocCrawler.DocCrawler.constructor | src/Crawler/DocCrawler.php:13-16 | the crawler remembers the directory it was given |
| DocCrawler.DocCrawler.Crawl | src/Crawler/DocCrawler.php:18-46 | with no files it returns early, builds nothing and touches no file; otherwise one Issue per file in order, exported under the directory's basename to `../output/<basename>_output.xml` |

## Left out

- The file list and file contents are inputs. `glob` and `file_get_contents`
  are not modelled, and `Crawl` takes the contents of the listed files in
  the order `glob` returns them.
- The `echo` diagnostics of both generators and of the crawler are not
  modelled. This includes the empty-PDF warning, the success message and
  the "No XML files found" message.
- The message `generate` catches is returned as a value instead of echoed.
- The document is an abstract tree. Namespaces, the XML declaration,
  `formatOutput` pretty-printing and serialisation to bytes are not
  modelled.
- The builders fill an element before attaching it, while the source
  attaches first. The final tree is the same.
- A `Leaf` holds the text argument passed to `createElement`. libxml's
  own reading of `&...;` entity references in that argument is not
  modelled, so the escaping lemmas speak of the arguments the generators
  pass.
- The `DOMException` catch around `fulltext-file` (src/Utils/Generator.php
  lines 61-63) is not modelled. `createElement` with a valid constant name
  does not throw, so the catch is dead code.
- `mkdir` is recursive in the source. The model creates only the target
  directory. Writability is a property of a whole directory, plus a given
  set of individual paths whose save fails.
- The duck copy re-checks `is_dir` after a failed `mkdir`. That second
  check matters only when another process creates the directory at the
  same moment, which the model does not represent.
- `Php.HtmlSpecialChars`: the model assumes PHP 8.1 or later, whose
  default flags escape `'` as `&#039;`; under PHP 8.0 the single quote is
  left as it is, and `NoMarkup` would not hold of it. The substitution of
  invalid UTF-8 by U+FFFD (`ENT_SUBSTITUTE`) is not represented, since a
  Dafny string holds only valid characters.
- `DocCrawler.ExtractWithRegexSpec`: `preg_match` returns false when PCRE
  hits its backtracking or JIT stack limit, and `extractWithRegex` then
  returns null although the pattern matches. The model has no such limit,
  so its "null exactly when nothing matches" holds only below it, and
  `CrawlTitleEnOneLine`, `CrawlTitleTrOneLine`, `CrawlAbstractEnOneLine`
  and `CrawlAbstractTrOneLine` inherit the gap for the `(.*)` patterns.
- `DocCrawler.MatchAt`: PCRE works on bytes, and `.` stops only at the LF
  newline. The model works on characters and treats only `\n` as a line
  end, so a `\r` stays inside a captured title.
- Citation rows are stored and escaped as strings. PHP would coerce an
  integer row, which is not modelled.
- `DocCrawler.NewCrawledArticle`: the crawler calls the Article constructor
  with named arguments that the no-parameter constructor of
  `duck_scraper/src/Models/Article.php` does not declare. PHP 8 would raise
  an unknown-parameter error there. The model treats the call as the
  parameterless constructor followed by the four setters.
- `src/Models/Article.php` is a two-field stub that neither the crawler nor
  the generator uses, so it is not part of this model.
- `src/index.php`, `duck_scraper/src/index.php` and
  `src/Utils/DocxToXmlConverter.php` are not part of this model. They are
  HTTP handling, page rendering and a wrapper around a document-conversion
  library.
- `Php.DirName`: the general PHP `dirname` is followed for
  `/`-separated paths only. The lemmas state it for the paths the
  generators build.
- The Article getters carry no contracts of their own. Each setter's
  contract states what its getter returns afterwards.
- Only the tree-building lines of `src/Utils/Generator.php` are cited for
  the shared builders. The duck_scraper copy's corresponding lines (42-68,
  100-153) build the same tree, and `DuckGenerator.Generate` proves it
  builds `Serializer.Document`.
