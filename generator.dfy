/**
 * The generator of src/Utils/Generator.php: it builds the document tree
 * (shared with the duck_scraper copy, see Serializer), writes it next to
 * the generator under ../output/<category>_output.xml, and reports a
 * failed save instead of letting it escape.
 */
module Generator {
  import opened Wrappers
  import opened Php
  import opened Dom
  import opened Models
  import opened Serializer
  import opened Filesystem

  /** What generate ends with: the success message's path, or the caught error's message. */
  datatype Outcome = Saved(path: string) | Reported(message: string)

  /** The output file for a category, relative to the generator's own directory. */
  function OutputPath(generatorDir: string, categoryName: string): string {
    generatorDir + "/../output/" + categoryName + "_output.xml"
  }

  /** The directory saveXml makes sure of is the output directory beside the generator. */
  lemma OutputPathDirectory(generatorDir: string, categoryName: string)
    requires '/' !in categoryName
    ensures DirName(OutputPath(generatorDir, categoryName)) == generatorDir + "/../output"
    ensures BaseName(OutputPath(generatorDir, categoryName)) == categoryName + "_output.xml"
  {
    var dir := generatorDir + "/../output";
    var name := categoryName + "_output.xml";
    assert OutputPath(generatorDir, categoryName) == dir + "/" + name;
    assert '/' !in name by {
      forall i | 0 <= i < |name| ensures name[i] != '/' {
        if i < |categoryName| {
          assert name[i] == categoryName[i];
        }
      }
    }
    DirNameOfJoin(dir, name);
    BaseNameOfJoin(dir, name);
  }

  /** The message of the exception saveXml throws when save returns false. */
  function SaveError(path: string): string {
    "Error saving XML: Failed to save XML to " + path
  }

  /** The same message once generate has caught it. */
  function SaveFailure(path: string): string {
    "Error generating XML: " + SaveError(path)
  }

  /**
   * What generate reports for a document saved to path: the save fails
   * exactly when the output directory can be neither created nor written,
   * or the file itself cannot be written.
   */
  function ExpectedOutcome(path: string, unwritable: set<string>, unsavable: set<string>): Outcome {
    if DirName(path) in unwritable || path in unsavable then Reported(SaveFailure(path)) else Saved(path)
  }

  /**
   * saveXml: create the directory only when it is missing (ignoring the
   * result), save, and turn a false result of save into an error.
   */
  method SaveXml(fs: FileSystem, document: Node, path: string) returns (error: Option<string>)
    modifies fs
    ensures error.None? <==> DirName(path) !in fs.unwritable && path !in fs.unsavable
    ensures error.Some? ==> error.value == SaveError(path)
    ensures fs.dirs == if DirName(path) in old(fs.dirs) || DirName(path) in fs.unwritable
                       then old(fs.dirs) else old(fs.dirs) + {DirName(path)}
    ensures fs.files == if error.None? then old(fs.files)[path := document] else old(fs.files)
    ensures fs.unwritable == old(fs.unwritable) && fs.unsavable == old(fs.unsavable)
  {
    var outputDirectory := DirName(path);
    if !fs.IsDir(outputDirectory) {
      var _ := fs.Mkdir(outputDirectory);
    }
    var result := fs.Save(path, document);
    if !result {
      error := Some(SaveError(path));
    } else {
      error := None;
    }
  }

  /**
   * generate: build the document from the issues in order, save it under
   * the category's output path, and catch a save failure as a report.
   */
  method Generate(issues: seq<Issue>, categoryName: string, generatorDir: string, fs: FileSystem)
    returns (document: Node, outcome: Outcome)
    modifies fs
    ensures document == Document(IssueValues(issues))
    ensures outcome == ExpectedOutcome(OutputPath(generatorDir, categoryName), fs.unwritable, fs.unsavable)
    ensures fs.files == if outcome.Saved? then old(fs.files)[OutputPath(generatorDir, categoryName) := document]
                        else old(fs.files)
    ensures DirName(OutputPath(generatorDir, categoryName)) !in fs.unwritable ==>
              DirName(OutputPath(generatorDir, categoryName)) in fs.dirs
    ensures old(fs.dirs) <= fs.dirs && fs.unwritable == old(fs.unwritable) && fs.unsavable == old(fs.unsavable)
  {
    document := BuildDocument(issues);
    var outputFilePath := OutputPath(generatorDir, categoryName);
    var error := SaveXml(fs, document, outputFilePath);
    match error
    case None => outcome := Saved(outputFilePath);
    case Some(message) =>
      outcome := Reported("Error generating XML: " + message);
  }
}
