/**
  An abstract file system: a finite map from paths (sequences of names,
  relative to the current working directory) to entries. The working
  directory itself is the empty path; it always exists and is never stored
  in the map.

  The three primitive operations the scaffold uses are modelled as pure
  state transformers (AfterMkdir, AfterTouch, AfterWrite), and the class
  Volume holds the mutable map and performs them in place. A failing
  operation leaves the file system unchanged and reports the error the
  operating system would raise.
 */
module FileSystem {
  import opened Wrappers

  type Name = string
  type Path = seq<Name>

  datatype Entry = DirEntry | FileEntry(content: string)

  type Fs = map<Path, Entry>

  /** The error kinds pathlib raises for the three operations. */
  datatype Error =
    | FileExists(path: Path)      // mkdir over an existing file
    | NotFound(path: Path)        // the parent directory is missing
    | NotADirectory(path: Path)   // the parent is a file
    | IsADirectory(path: Path)    // opening a directory for writing

  /** A file system state together with the error that stopped the run, if any. */
  datatype Run = Run(fs: Fs, error: Option<Error>)

  function Parent(p: Path): Path
    requires p != []
  {
    p[..|p| - 1]
  }

  predicate IsDir(fs: Fs, p: Path)
  {
    p == [] || (p in fs && fs[p].DirEntry?)
  }

  predicate IsFile(fs: Fs, p: Path)
  {
    p != [] && p in fs && fs[p].FileEntry?
  }

  /** Every stored entry sits inside a directory (or the working directory). */
  predicate WellFormed(fs: Fs)
  {
    forall p :: p in fs ==> p != [] && IsDir(fs, Parent(p))
  }

  /**
    The shortest proper prefix of `p`, at least `k` names long, that is not
    a directory: the component where path resolution stops.
   */
  function FirstNonDir(fs: Fs, p: Path, k: nat): (j: nat)
    requires 0 < k < |p| && !IsDir(fs, Parent(p))
    requires forall i :: 0 < i < k ==> IsDir(fs, p[..i])
    ensures k <= j < |p| && !IsDir(fs, p[..j])
    ensures forall i :: 0 < i < j ==> IsDir(fs, p[..i])
    decreases |p| - k
  {
    if !IsDir(fs, p[..k]) then k else FirstNonDir(fs, p, k + 1)
  }

  /**
    The error raised when a new entry cannot be created at `p` because of
    the path leading to it: resolution walks the names from the left and
    stops at the first prefix that is not a directory, with ENOTDIR
    (NotADirectory) if it is a file and ENOENT (NotFound) if it is absent.
   */
  function ParentError(fs: Fs, p: Path): (e: Option<Error>)
    requires p != []
    ensures e.None? <==> IsDir(fs, Parent(p))
    ensures e.Some? ==> e.value.path == p && (e.value.NotADirectory? || e.value.NotFound?)
    ensures e.Some? ==> |p| > 1 && var j := FirstNonDir(fs, p, 1);
              (e.value.NotADirectory? <==> p[..j] in fs)
  {
    if IsDir(fs, Parent(p)) then None
    else if p[..FirstNonDir(fs, p, 1)] in fs then Some(NotADirectory(p))
    else Some(NotFound(p))
  }

  /** Every proper prefix of a stored path is a directory. */
  lemma {:induction false} StoredPrefixes(fs: Fs, r: Path)
    requires WellFormed(fs) && r in fs
    ensures forall i :: 0 < i < |r| ==> IsDir(fs, r[..i])
    decreases |r|
  {
    var q := Parent(r);
    if q != [] {
      StoredPrefixes(fs, q);
      assert forall i :: 0 < i < |q| ==> q[..i] == r[..i];
    }
  }

  /**
    In a well-formed file system the error is NotADirectory exactly when
    some proper prefix of `p` is a file, and NotFound otherwise.
   */
  lemma ParentErrorKind(fs: Fs, p: Path)
    requires WellFormed(fs) && p != [] && !IsDir(fs, Parent(p))
    ensures ParentError(fs, p) == Some(NotADirectory(p)) <==> exists k :: 0 < k < |p| && IsFile(fs, p[..k])
    ensures ParentError(fs, p) == Some(NotFound(p)) <==> !exists k :: 0 < k < |p| && IsFile(fs, p[..k])
  {
    var j := FirstNonDir(fs, p, 1);
    if exists k :: 0 < k < |p| && IsFile(fs, p[..k]) {
      var k :| 0 < k < |p| && IsFile(fs, p[..k]);
      var r := p[..k];
      StoredPrefixes(fs, r);
      assert forall i :: 0 < i < k ==> r[..i] == p[..i];
      assert j == k;
    }
  }

  /** Making `f/x/y` where `f` is a file fails with ENOTDIR, not ENOENT, although `f/x` is absent. */
  lemma MkdirUnderFile()
    ensures AfterMkdir(map[["f"] := FileEntry("")], ["f", "x", "y"]).error == Some(NotADirectory(["f", "x", "y"]))
  {
    var fs: Fs := map[["f"] := FileEntry("")];
    var p: Path := ["f", "x", "y"];
    assert p[..1] == ["f"] && Parent(p) == ["f", "x"];
    ParentErrorKind(fs, p);
  }

  /** `Path.mkdir(exist_ok=True)` without `parents`. */
  function AfterMkdir(fs: Fs, p: Path): (r: Run)
    ensures r.error.None? <==> IsDir(fs, p) || (p !in fs && IsDir(fs, Parent(p)))
    ensures r.error.None? ==> IsDir(r.fs, p) && r.fs - {p} == fs - {p}
    ensures r.error.Some? ==> r.fs == fs
    ensures IsFile(fs, p) ==> r.error == Some(FileExists(p))
    ensures p !in fs && p != [] && r.error.Some? ==> r.error == ParentError(fs, p)
    ensures WellFormed(fs) ==> WellFormed(r.fs)
  {
    if IsDir(fs, p) then Run(fs, None)
    else if p in fs then Run(fs, Some(FileExists(p)))
    else
      var e := ParentError(fs, p);
      if e.Some? then Run(fs, e) else Run(fs[p := DirEntry], None)
  }

  /** `Path.touch()`: an existing entry of either kind is left as it is. */
  function AfterTouch(fs: Fs, p: Path): (r: Run)
    ensures r.error.None? <==> p == [] || p in fs || IsDir(fs, Parent(p))
    ensures p == [] || p in fs ==> r == Run(fs, None)
    ensures r.error.None? && p !in fs && p != [] ==> r.fs == fs[p := FileEntry("")]
    ensures r.error.Some? ==> r.fs == fs && r.error == ParentError(fs, p)
    ensures WellFormed(fs) ==> WellFormed(r.fs)
  {
    if p == [] || p in fs then Run(fs, None)
    else
      var e := ParentError(fs, p);
      if e.Some? then Run(fs, e) else Run(fs[p := FileEntry("")], None)
  }

  /** `open(p, 'w').write(text)` and `Path.write_text(text)`: create or truncate, then write. */
  function AfterWrite(fs: Fs, p: Path, text: string): (r: Run)
    ensures r.error.None? <==> !IsDir(fs, p) && (p in fs || IsDir(fs, Parent(p)))
    ensures r.error.None? ==> r.fs == fs[p := FileEntry(text)]
    ensures r.error.Some? ==> r.fs == fs
    ensures IsDir(fs, p) ==> r.error == Some(IsADirectory(p))
    ensures !IsDir(fs, p) && p !in fs && r.error.Some? ==> r.error == ParentError(fs, p)
    ensures WellFormed(fs) ==> WellFormed(r.fs)
  {
    if IsDir(fs, p) then Run(fs, Some(IsADirectory(p)))
    else if p in fs then Run(fs[p := FileEntry(text)], None)
    else
      var e := ParentError(fs, p);
      if e.Some? then Run(fs, e) else Run(fs[p := FileEntry(text)], None)
  }

  /** The mutable file system the scaffold works on. */
  class Volume {
    var entries: Fs

    constructor (initial: Fs)
      ensures entries == initial
    {
      entries := initial;
    }

    method Mkdir(p: Path) returns (err: Option<Error>)
      modifies this
      ensures Run(entries, err) == AfterMkdir(old(entries), p)
    {
      if p == [] || (p in entries && entries[p].DirEntry?) {
        err := None;
      } else if p in entries {
        err := Some(FileExists(p));
      } else {
        err := ParentError(entries, p);
        if err.None? {
          entries := entries[p := DirEntry];
        }
      }
    }

    method Touch(p: Path) returns (err: Option<Error>)
      modifies this
      ensures Run(entries, err) == AfterTouch(old(entries), p)
    {
      if p == [] || p in entries {
        err := None;
      } else {
        err := ParentError(entries, p);
        if err.None? {
          entries := entries[p := FileEntry("")];
        }
      }
    }

    method Write(p: Path, text: string) returns (err: Option<Error>)
      modifies this
      ensures Run(entries, err) == AfterWrite(old(entries), p, text)
    {
      if p == [] || (p in entries && entries[p].DirEntry?) {
        err := Some(IsADirectory(p));
      } else {
        if p !in entries {
          err := ParentError(entries, p);
        } else {
          err := None;
        }
        if err.None? {
          entries := entries[p := FileEntry(text)];
        }
      }
    }
  }
}
