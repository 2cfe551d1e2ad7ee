/**
 * The part of the filesystem the generators touch: which directories exist,
 * which directories can be neither created nor written into, which paths
 * cannot be written even in a writable directory (the path is a directory
 * or a read-only file, or the disk is full), and the documents saved so far
 * (`is_dir`, `mkdir`, `DOMDocument::save`).
 */
module Filesystem {
  import opened Php
  import opened Dom

  class FileSystem {
    var dirs: set<string>
    var unwritable: set<string>
    var unsavable: set<string>
    var files: map<string, Node>

    constructor (dirs: set<string>, unwritable: set<string>, unsavable: set<string>)
      ensures this.dirs == dirs && this.unwritable == unwritable && this.unsavable == unsavable
      ensures files == map[]
    {
      this.dirs := dirs;
      this.unwritable := unwritable;
      this.unsavable := unsavable;
      files := map[];
    }

    /** is_dir($d) */
    predicate IsDir(d: string)
      reads this
    {
      d in dirs
    }

    /** mkdir($d, 0777, true): fails when d already exists or cannot be created. */
    method Mkdir(d: string) returns (ok: bool)
      modifies this
      ensures ok <==> d !in old(dirs) && d !in unwritable
      ensures dirs == if ok then old(dirs) + {d} else old(dirs)
      ensures unwritable == old(unwritable) && unsavable == old(unsavable) && files == old(files)
    {
      ok := d !in dirs && d !in unwritable;
      if ok {
        dirs := dirs + {d};
      }
    }

    /** $xmlDoc->save($path): false when the directory of path is missing or unwritable, or path itself cannot be written. */
    method Save(path: string, document: Node) returns (ok: bool)
      modifies this
      ensures ok <==> DirName(path) in old(dirs) && DirName(path) !in unwritable && path !in unsavable
      ensures files == if ok then old(files)[path := document] else old(files)
      ensures dirs == old(dirs) && unwritable == old(unwritable) && unsavable == old(unsavable)
    {
      ok := DirName(path) in dirs && DirName(path) !in unwritable && path !in unsavable;
      if ok {
        files := files[path := document];
      }
    }
  }
}
