/** The POSIX `os.path` functions the package uses, and the COG naming rule built on them. */
module Paths {
  import opened Strings

  /** `os.path.join(a, b)`: an absolute `b` replaces `a`; otherwise one '/' separates them. */
  function Join(a: string, b: string): string {
    if StartsWith(b, "/") then b
    else if a == "" || EndsWith(a, "/") then a + b
    else a + "/" + b
  }

  /** A joined path ends with its second part, and starts with the first unless the second is absolute. */
  lemma JoinShape(a: string, b: string)
    ensures EndsWith(Join(a, b), b)
    ensures StartsWith(b, "/") ==> Join(a, b) == b
    ensures !StartsWith(b, "/") ==> StartsWith(Join(a, b), a)
  {
    var r := Join(a, b);
    if !StartsWith(b, "/") {
      if a == "" || EndsWith(a, "/") {
        assert r[|r| - |b|..] == b;
        assert r[..|a|] == a;
      } else {
        assert r == a + ("/" + b);
        assert r[|r| - |b|..] == b;
        assert r[..|a|] == a;
      }
    }
  }

  /** `os.path.basename(p)`: what follows the last '/'. */
  function Basename(p: string): string {
    LastSegment(p, '/')
  }

  /** The base name of a joined path is the part joined on, when that part names a file in the directory. */
  lemma BasenameOfJoin(a: string, b: string)
    requires '/' !in b
    ensures Basename(Join(a, b)) == b
  {
    if b == "" {
      LastSegmentWhole(b, '/');
      if a != "" && !EndsWith(a, "/") {
        LastSegmentAfterSeparator(a, '/', b);
      } else if a != "" {
        var pre := a[..|a| - 1];
        assert a == pre + ['/'];
        LastSegmentAfterSeparator(pre, '/', b);
      }
    } else if a == "" {
      LastSegmentWhole(b, '/');
    } else if EndsWith(a, "/") {
      var pre := a[..|a| - 1];
      assert a == pre + ['/'];
      assert a + b == pre + ['/'] + b;
      LastSegmentAfterSeparator(pre, '/', b);
    } else {
      assert a + "/" + b == a + ['/'] + b;
      LastSegmentAfterSeparator(a, '/', b);
    }
  }

  /** `os.path.basename(path).replace(".tif", "") + "_cog.tif"` */
  function CogFileName(path: string): string {
    RemoveAll(Basename(path), ".tif") + "_cog.tif"
  }

  /** A COG file name is a plain file name ending in "_cog.tif". */
  lemma CogFileNameShape(path: string)
    ensures EndsWith(CogFileName(path), "_cog.tif")
    ensures '/' !in CogFileName(path)
  {
    var stem := RemoveAll(Basename(path), ".tif");
    var r := stem + "_cog.tif";
    assert r[|r| - 8..] == "_cog.tif";
    assert '/' !in stem;
  }

  /** A COG file name is never absolute, so joining it keeps the directory. */
  lemma CogFileNameRelative(path: string)
    ensures !StartsWith(CogFileName(path), "/")
  {
    var name := CogFileName(path);
    CogFileNameShape(path);
    assert name[0] in name;
    assert name[..1] == [name[0]];
  }

  /** Where the COG made from `path` is written: `output_directory` joined with its COG file name. */
  function CogOutputPath(outputDirectory: string, path: string): string {
    Join(outputDirectory, CogFileName(path))
  }

  /** The COG lands in `output_directory` under its COG file name, so the path always ends in "_cog.tif". */
  lemma CogOutputPathShape(outputDirectory: string, path: string)
    ensures CogOutputPath(outputDirectory, path) == Join(outputDirectory, CogFileName(path))
    ensures StartsWith(CogOutputPath(outputDirectory, path), outputDirectory)
    ensures EndsWith(CogOutputPath(outputDirectory, path), "_cog.tif")
    ensures Basename(CogOutputPath(outputDirectory, path)) == CogFileName(path)
  {
    var name := CogFileName(path);
    CogFileNameShape(path);
    BasenameOfJoin(outputDirectory, name);
    JoinShape(outputDirectory, name);
    CogFileNameRelative(path);
    EndsWithTransitive(Join(outputDirectory, name), name, "_cog.tif");
  }

  /**
   * The naming rule gives what it is meant to: a file `stem.tif` becomes
   * `stem_cog.tif`, provided `stem` holds no other ".tif".
   */
  lemma CogFileNameOfTif(path: string, stem: string)
    requires Basename(path) == stem + ".tif"
    requires !Contains(stem, ".tif")
    ensures CogFileName(path) == stem + "_cog.tif"
  {
    RemoveTifSuffix(stem);
  }
}
