/**
 * The generator of duck_scraper/src/Utils/Generator.php: the same
 * document tree (see Serializer), written to a fixed directory, with an
 * error only when that directory is missing and cannot be created.
 */
module DuckGenerator {
  import opened Wrappers
  import opened Php
  import opened Dom
  import opened Models
  import opened Serializer
  import opened Filesystem

  const OutputDir := "/var/tmp/web_crawler/xml/"

  function OutputPath(categoryName: string): string {
    OutputDir + categoryName + "_output.xml"
  }

  /** Whatever the category, the file lands in /var/tmp/web_crawler/xml. */
  lemma OutputPathDirectory(categoryName: string)
    requires '/' !in categoryName
    ensures DirName(OutputPath(categoryName)) == "/var/tmp/web_crawler/xml"
    ensures BaseName(OutputPath(categoryName)) == categoryName + "_output.xml"
  {
    var dir := "/var/tmp/web_crawler/xml";
    var name := categoryName + "_output.xml";
    assert OutputPath(categoryName) == dir + "/" + name;
    assert '/' !in name by {
      forall i | 0 <= i < |name| ensures name[i] != '/' {
        if i < |categoryName| {
          assert name[i] == categoryName[i];
        }
      }
    }
    DirNameOfJoin(dir, name);
    BaseNameOfJoin(dir, name);
  }

  /** The RuntimeException message for a directory that could not be created. */
  function NotCreated(dir: string): string {
    "Error saving XML: Directory \"" + dir + "\" was not created"
  }

  /**
   * saveXml: fail only when the directory is missing, cannot be made and
   * is still missing; otherwise save and ignore what save returns, so a
   * file that cannot be written is silently not stored.
   */
  method SaveXml(fs: FileSystem, document: Node, path: string) returns (error: Option<string>)
    modifies fs
    ensures error.Some? <==> DirName(path) !in old(fs.dirs) && DirName(path) in fs.unwritable
    ensures error.Some? ==> error.value == NotCreated(DirName(path))
    ensures fs.dirs == if DirName(path) in old(fs.dirs) || DirName(path) in fs.unwritable
                       then old(fs.dirs) else old(fs.dirs) + {DirName(path)}
    ensures fs.files == if DirName(path) !in fs.unwritable && path !in fs.unsavable
                        then old(fs.files)[path := document] else old(fs.files)
    ensures fs.unwritable == old(fs.unwritable) && fs.unsavable == old(fs.unsavable)
  {
    var outputDir := DirName(path);
    if !fs.IsDir(outputDir) {
      var made := fs.Mkdir(outputDir);
      if !made && !fs.IsDir(outputDir) {
        error := Some(NotCreated(outputDir));
        return;
      }
    }
    var _ := fs.Save(path, document);
    error := None;
  }

  /**
   * generate: build the document, save it under the fixed directory, and
   * catch saveXml's exception as a report (None when nothing is reported).
   */
  method Generate(issues: seq<Issue>, categoryName: string, fs: FileSystem)
    returns (document: Node, report: Option<string>)
    modifies fs
    ensures document == Document(IssueValues(issues))
    ensures report.Some? <==> DirName(OutputPath(categoryName)) !in old(fs.dirs)
                              && DirName(OutputPath(categoryName)) in fs.unwritable
    ensures report.Some? ==> report.value == "Error generating XML: " + NotCreated(DirName(OutputPath(categoryName)))
    ensures fs.files == if DirName(OutputPath(categoryName)) !in fs.unwritable && OutputPath(categoryName) !in fs.unsavable
                        then old(fs.files)[OutputPath(categoryName) := document] else old(fs.files)
    ensures old(fs.dirs) <= fs.dirs && fs.unwritable == old(fs.unwritable) && fs.unsavable == old(fs.unsavable)
  {
    document := BuildDocument(issues);
    var outputFilePath := OutputPath(categoryName);
    var error := SaveXml(fs, document, outputFilePath);
    match error
    case None => report := None;
    case Some(message) => report := Some("Error generating XML: " + message);
  }

  /** An existing output directory never makes saveXml fail, whether or not the save succeeds. */
  lemma ExistingDirectoryNeverFails(dirs: set<string>, unwritable: set<string>, categoryName: string)
    requires '/' !in categoryName
    requires "/var/tmp/web_crawler/xml" in dirs
    ensures !(DirName(OutputPath(categoryName)) !in dirs && DirName(OutputPath(categoryName)) in unwritable)
  {
    OutputPathDirectory(categoryName);
  }
}
