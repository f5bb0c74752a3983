/** How the filesystem operations read a path: the directory names walked from the root,
    and the parent and leaf name of a file path. */
module Paths {
  import opened PathText

  /** The directory names that get_dir walks down from the root: trailing '/' removed,
      split on '/', the first piece (empty for an absolute path) dropped; none at all when
      the stripped path has no '/'. */
  function DirSegments(path: string): seq<string>
  {
    var parts := Split(RStrip(path, '/'), '/');
    if |parts| <= 1 then [] else parts[1..]
  }

  /** How get_file reads a path: empty (indexing its last character fails), ending in '/'
      (never a file), or a parent path and a leaf name. */
  datatype FileRef = EmptyPath | TrailingSlash | Entry(parent: string, name: string)

  function FileRefOf(path: string): FileRef
  {
    if path == [] then EmptyPath
    else if path[|path| - 1] == '/' then TrailingSlash
    else
      var parts := Split(path, '/');
      Entry(Join(parts[..|parts| - 1], '/'), parts[|parts| - 1])
  }

  /** The absolute path naming `segs` below the root. */
  function AbsolutePath(segs: seq<string>): string
  {
    if segs == [] then "/" else Join([""] + segs, '/')
  }

  /** The absolute paths of one and two names, written out. */
  lemma AbsolutePathsSpelledOut(a: string, b: string)
    ensures AbsolutePath([a]) == "/" + a
    ensures AbsolutePath([a, b]) == "/" + a + "/" + b
  {
    assert [""] + [a] == ["", a] && ["", a][1..] == [a];
    assert Join(["", a], '/') == "" + ['/'] + Join([a], '/');
    assert [""] + [a, b] == ["", a, b] && ["", a, b][1..] == [a, b] && [a, b][1..] == [b];
    assert Join([a, b], '/') == a + ['/'] + Join([b], '/');
    assert Join(["", a, b], '/') == "" + ['/'] + Join([a, b], '/');
  }

  ghost predicate NoEmpty(segs: seq<string>)
  {
    forall i :: 0 <= i < |segs| ==> segs[i] != ""
  }

  /** Trailing separators do not change the directory a path names. */
  lemma DirSegmentsIgnoreTrailingSlashes(path: string, n: nat)
    ensures DirSegments(path + seq(n, _ => '/')) == DirSegments(path)
  {
    RStripIgnoresTrailing(path, '/', n);
  }

  /** A path with no '/' before its trailing ones names the root; so do "" and "/". */
  lemma DirSegmentsOfRootPaths(path: string)
    ensures '/' !in RStrip(path, '/') ==> DirSegments(path) == []
    ensures DirSegments("") == [] && DirSegments("/") == []
  {
    if '/' !in RStrip(path, '/') {
      SplitNoSep(RStrip(path, '/'), '/');
    }
    assert RStrip("/", '/') == "";
  }

  /** An absolute path made of non-empty names walks exactly those names. */
  lemma DirSegmentsOfAbsolutePath(segs: seq<string>)
    requires NoSep(segs, '/') && NoEmpty(segs)
    ensures DirSegments(AbsolutePath(segs)) == segs
  {
    if segs == [] {
      DirSegmentsOfRootPaths("/");
    } else {
      var parts := [""] + segs;
      var p := Join(parts, '/');
      JoinEndsWithLast(parts, '/');
      assert RStrip(p, '/') == p;
      SplitJoin(parts, '/');
    }
  }

  /** A join ends with the last piece. */
  lemma {:induction false} JoinEndsWithLast(parts: seq<string>, sep: char)
    requires |parts| >= 1 && parts[|parts| - 1] != ""
    ensures |Join(parts, sep)| >= 1 && Join(parts, sep)[|Join(parts, sep)| - 1] == parts[|parts| - 1][|parts[|parts| - 1]| - 1]
    decreases |parts|
  {
    if |parts| > 1 {
      JoinEndsWithLast(parts[1..], sep);
    }
  }

  /** The file path of `name` under the directories `dirs`: get_file looks the name up in the
      directory that `dirs` walks to. */
  lemma FileRefOfAbsolutePath(dirs: seq<string>, name: string)
    requires NoSep(dirs + [name], '/') && NoEmpty(dirs + [name])
    ensures FileRefOf(AbsolutePath(dirs + [name])).Entry?
    ensures FileRefOf(AbsolutePath(dirs + [name])).name == name
    ensures DirSegments(FileRefOf(AbsolutePath(dirs + [name])).parent) == dirs
  {
    var parts := [""] + dirs + [name];
    assert [""] + (dirs + [name]) == parts;
    var p := Join(parts, '/');
    JoinEndsWithLast(parts, '/');
    SplitJoin(parts, '/');
    assert parts[..|parts| - 1] == [""] + dirs;
    if dirs == [] {
      assert Join([""], '/') == "";
      DirSegmentsOfRootPaths("");
    } else {
      assert NoSep(dirs, '/') && NoEmpty(dirs) by {
        forall i | 0 <= i < |dirs| ensures '/' !in dirs[i] && dirs[i] != "" {
          assert dirs[i] == (dirs + [name])[i];
        }
      }
      DirSegmentsOfAbsolutePath(dirs);
    }
  }
}
