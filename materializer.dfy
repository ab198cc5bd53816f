/**
  The recursive tree materialiser `create_directory_tree` (a.py:5-27).

  Materialized is the walk as a state transformer: it processes the items
  of a directory in order, stops at the first failing operation and
  returns the file system as that operation left it. CreateDirectoryTree
  performs the same walk in place on a Volume, with the source's loop and
  recursion. The lemmas relate the walk to the order-free reference
  definition TreeLayout.Overlay.
 */
module Materializer {
  import opened Wrappers
  import opened FileSystem
  import opened TreeDescription
  import opened TreeLayout

  /** `ignore_files` when given, else the default five-name set (a.py:10-11). */
  function IgnoreOrDefault(ignoreFiles: Option<set<Name>>): set<Name>
  {
    if ignoreFiles.None? then DefaultIgnore else ignoreFiles.value
  }

  /** The file branch of the loop body (a.py:15-23) for the leaf `name` at path `p`. */
  function PlacedFile(fs: Fs, p: Path, name: Name, ignore: set<Name>): (r: Run)
    requires p != []
    ensures r.fs - {p} == fs - {p}
    ensures WellFormed(fs) ==> WellFormed(r.fs)
  {
    if name !in ignore then
      var t := AfterTouch(fs, p);
      if t.error.Some? then t
      else if IsSourceName(name) then AfterWrite(t.fs, p, Placeholder(name))
      else t
    else
      AfterTouch(fs, p)
  }

  /** One iteration of the loop (a.py:14-27): the item `item` of the directory `base`. */
  function Placed(fs: Fs, base: Path, item: Item, ignore: set<Name>): Run
    decreases item
  {
    var p := base + [item.name];
    match item.node
    case File => PlacedFile(fs, p, item.name, ignore)
    case Directory(sub) =>
      var m := AfterMkdir(fs, p);
      if m.error.Some? then m else Materialized(m.fs, p, sub, DefaultIgnore)
  }

  /**
    `create_directory_tree(base, items, ignore)`: the items in order, each
    directory made before its subtree is walked with the default ignore
    set, stopping at the first error.
   */
  function Materialized(fs: Fs, base: Path, items: seq<Item>, ignore: set<Name>): Run
    decreases items
  {
    if items == [] then Run(fs, None)
    else
      var r := Placed(fs, base, items[0], ignore);
      if r.error.Some? then r else Materialized(r.fs, base, items[1..], ignore)
  }

  /** Whatever happens, one item changes nothing outside `base` and keeps the file system well formed. */
  lemma {:induction false} PlacedPreserves(fs: Fs, base: Path, item: Item, ignore: set<Name>)
    ensures WellFormed(fs) ==> WellFormed(Placed(fs, base, item, ignore).fs)
    ensures forall q :: !StrictlyUnder(base, q) ==> Lookup(Placed(fs, base, item, ignore).fs, q) == Lookup(fs, q)
    decreases item
  {
    var p := base + [item.name];
    assert p[..|base|] == base;
    match item.node
    case File =>
    case Directory(sub) =>
      var m := AfterMkdir(fs, p);
      if m.error.None? {
        MaterializedPreserves(m.fs, p, sub, DefaultIgnore);
        forall q | StrictlyUnder(p, q) ensures StrictlyUnder(base, q) { UnderChild(base, item.name, q); }
      }
  }

  /**
    Whatever happens, the walk changes nothing outside `base` and keeps the
    file system well formed, also when it stops at an error.
   */
  lemma {:induction false} MaterializedPreserves(fs: Fs, base: Path, items: seq<Item>, ignore: set<Name>)
    ensures WellFormed(fs) ==> WellFormed(Materialized(fs, base, items, ignore).fs)
    ensures forall q :: !StrictlyUnder(base, q) ==> Lookup(Materialized(fs, base, items, ignore).fs, q) == Lookup(fs, q)
    decreases items
  {
    if items != [] {
      var r := Placed(fs, base, items[0], ignore);
      PlacedPreserves(fs, base, items[0], ignore);
      if r.error.None? {
        MaterializedPreserves(r.fs, base, items[1..], ignore);
      }
    }
  }

  /** The file branch of the loop body (a.py:15-23), in place on the volume. */
  method PlaceFile(vol: Volume, path: Path, name: Name, ignore: set<Name>) returns (err: Option<Error>)
    requires path != []
    modifies vol
    ensures Run(vol.entries, err) == PlacedFile(old(vol.entries), path, name, ignore)
  {
    if name !in ignore {
      err := vol.Touch(path);
      if err.None? && IsSourceName(name) {
        err := vol.Write(path, Placeholder(name));
      }
    } else {
      err := vol.Touch(path);
    }
  }

  /** `create_directory_tree`, in place on the volume. */
  method CreateDirectoryTree(vol: Volume, base: Path, tree: seq<Item>, ignoreFiles: Option<set<Name>>)
    returns (err: Option<Error>)
    modifies vol
    ensures Run(vol.entries, err) == Materialized(old(vol.entries), base, tree, IgnoreOrDefault(ignoreFiles))
    decreases tree
  {
    var ignore := IgnoreOrDefault(ignoreFiles);
    ghost var goal := Materialized(vol.entries, base, tree, ignore);
    var i := 0;
    assert tree[i..] == tree;
    while i < |tree|
      invariant 0 <= i <= |tree|
      invariant goal == Materialized(vol.entries, base, tree[i..], ignore)
    {
      var name, subtree := tree[i].name, tree[i].node;
      var path := base + [name];
      ghost var before := vol.entries;
      ghost var step := Placed(before, base, tree[i], ignore);
      assert tree[i..][0] == tree[i] && tree[i..][1..] == tree[i + 1..];
      assert goal == if step.error.Some? then step else Materialized(step.fs, base, tree[i + 1..], ignore);
      match subtree {
        case File =>
          err := PlaceFile(vol, path, name, ignore);
        case Directory(sub) =>
          err := vol.Mkdir(path);
          if err.None? {
            err := CreateDirectoryTree(vol, path, sub, None);
          }
      }
      assert Run(vol.entries, err) == step;
      if err.Some? { return; }
      i := i + 1;
    }
    err := None;
  }

  /** Touching a path that is free or already a file, inside a directory, succeeds. */
  lemma TouchMeets(fs: Fs, p: Path)
    requires p != [] && IsDir(fs, Parent(p)) && !IsDir(fs, p)
    ensures AfterTouch(fs, p) == Run(fs[p := Apply(WantFile, Lookup(fs, p))], None)
  {
    if p in fs {
      assert fs[p := fs[p]] == fs;
    }
  }

  /** The file branch over a path whose parent is a directory and which is not one itself. */
  lemma PlacedFileAt(fs: Fs, p: Path, name: Name, ignore: set<Name>)
    requires p != [] && IsDir(fs, Parent(p))
    requires !IsDir(fs, p)
    ensures PlacedFile(fs, p, name, ignore) == Run(fs[p := Apply(LeafWant(name, ignore), Lookup(fs, p))], None)
  {
    TouchMeets(fs, p);
    var w := LeafWant(name, ignore);
    if w.WantText? {
      var t := fs[p := Apply(WantFile, Lookup(fs, p))];
      assert t[p := FileEntry(w.text)] == fs[p := FileEntry(w.text)];
    }
  }
  lemma PlacedFileMeets(fs: Fs, base: Path, name: Name, ignore: set<Name>)
    requires IsDir(fs, base)
    requires !IsDir(fs, base + [name])
    ensures PlacedFile(fs, base + [name], name, ignore)
         == Run(Overlay(fs, map[base + [name] := LeafWant(name, ignore)]), None)
  {
    var p := base + [name];
    assert Parent(p) == base;
    OverlayAt(fs, p, LeafWant(name, ignore));
    PlacedFileAt(fs, p, name, ignore);
  }

  /** The contract every state reached by the walk keeps. */
  predicate Ready(fs: Fs, base: Path, L: map<Path, Want>)
  {
    IsDir(fs, base) && Compatible(fs, L)
  }

  /** A directory path that is free or already a directory is made (or kept) without error. */
  lemma MkdirMeets(fs: Fs, base: Path, name: Name)
    requires IsDir(fs, base)
    requires !IsFile(fs, base + [name])
    ensures AfterMkdir(fs, base + [name]) == Run(Overlay(fs, map[base + [name] := WantDir]), None)
  {
    var p := base + [name];
    assert Parent(p) == base;
    OverlayAt(fs, p, WantDir);
    if p in fs {
      assert fs[p := DirEntry] == fs;
    }
  }

  lemma {:induction false} PlacedMeets(fs: Fs, base: Path, item: Item, ignore: set<Name>)
    requires item.node.Directory? ==> WellFormedTree(item.node.items)
    requires Ready(fs, base, EntryLayout(base, item, ignore))
    ensures Placed(fs, base, item, ignore) == Run(Overlay(fs, EntryLayout(base, item, ignore)), None)
    decreases item
  {
    var p := base + [item.name];
    match item.node
    case File =>
      PlacedFileMeets(fs, base, item.name, ignore);
    case Directory(sub) =>
      var S := Layout(p, sub, DefaultIgnore);
      var D := map[p := WantDir];
      LayoutKeys(p, sub, DefaultIgnore);
      assert p !in S;
      assert EntryLayout(base, item, ignore) == D + S;
      MkdirMeets(fs, base, item.name);
      var fs1 := Overlay(fs, D);
      assert Ready(fs1, p, S);
      MaterializedMeetsLayout(fs1, p, sub, DefaultIgnore);
      OverlayCompose(fs, D, S);
  }

  lemma ReadyForParts(fs: Fs, base: Path, E: map<Path, Want>, R: map<Path, Want>)
    requires Ready(fs, base, E + R) && E.Keys !! R.Keys
    ensures Ready(fs, base, E) && Ready(fs, base, R)
  {
  }

  lemma ReadyForRest(fs: Fs, base: Path, E: map<Path, Want>, R: map<Path, Want>)
    requires Ready(fs, base, E + R) && E.Keys !! R.Keys && base !in E
    ensures Ready(Overlay(fs, E), base, R)
  {
  }

  /**
    The walk, run over a well-formed file system from an existing directory
    `base` on a tree none of whose paths is taken by an entry of the other
    kind, raises no error and leaves exactly the overlay of the flattened
    tree: every directory of the tree exists, every file holds what the leaf
    decision for its level says, and no other path changes.
   */
  lemma {:induction false} MaterializedMeetsLayout(fs: Fs, base: Path, items: seq<Item>, ignore: set<Name>)
    requires WellFormedTree(items)
    requires Ready(fs, base, Layout(base, items, ignore))
    ensures Materialized(fs, base, items, ignore) == Run(Overlay(fs, Layout(base, items, ignore)), None)
    decreases items
  {
    if items == [] {
      assert Overlay(fs, map[]) == fs;
    } else {
      var E, R := EntryLayout(base, items[0], ignore), Layout(base, items[1..], ignore);
      WellFormedParts(items);
      assert Layout(base, items, ignore) == E + R;
      LayoutsDisjoint(base, items, ignore);
      EntryLayoutKeys(base, items[0], ignore);
      ReadyForParts(fs, base, E, R);
      PlacedMeets(fs, base, items[0], ignore);
      var fs1 := Overlay(fs, E);
      ReadyForRest(fs, base, E, R);
      MaterializedMeetsLayout(fs1, base, items[1..], ignore);
      OverlayCompose(fs, E, R);
    }
  }

  /** Running the walk a second time over its own result changes nothing. */
  lemma WalkIdempotent(fs: Fs, base: Path, items: seq<Item>, ignore: set<Name>)
    requires WellFormedTree(items)
    requires Ready(fs, base, Layout(base, items, ignore))
    ensures Materialized(Materialized(fs, base, items, ignore).fs, base, items, ignore)
         == Materialized(fs, base, items, ignore)
  {
    var L := Layout(base, items, ignore);
    MaterializedMeetsLayout(fs, base, items, ignore);
    var once := Overlay(fs, L);
    LayoutKeys(base, items, ignore);
    assert base !in L;
    OverlayCompatible(fs, L);
    assert Ready(once, base, L);
    MaterializedMeetsLayout(once, base, items, ignore);
    OverlayIdempotent(fs, L);
  }

  /** The entry a file leaf of the tree holds after the walk, given what was at its path before. */
  function LeafOutcome(name: Name, ignore: set<Name>, prior: Option<Entry>): Entry
  {
    if name !in ignore && IsSourceName(name) then FileEntry(Placeholder(name))
    else if prior.Some? then prior.value
    else FileEntry("")
  }

  /** A path whose want is the leaf decision ends up with the leaf outcome. */
  lemma OverlayLeaf(fs: Fs, L: map<Path, Want>, q: Path, name: Name, ignore: set<Name>)
    requires Compatible(fs, L) && q in L && L[q] == LeafWant(name, ignore)
    ensures Overlay(fs, L)[q].FileEntry? && Overlay(fs, L)[q] == LeafOutcome(name, ignore, Lookup(fs, q))
  {
  }

  /** Over a compatible file system, a layout with decided leaves yields the leaf outcomes. */
  lemma OverlayLeaves(fs: Fs, L: map<Path, Want>, base: Path, ignore: set<Name>)
    requires Compatible(fs, L) && LeavesDecided(L, base, ignore)
    ensures forall q :: q in L && q != [] && !L[q].WantDir? ==>
              Overlay(fs, L)[q].FileEntry? && Overlay(fs, L)[q] == LeafOutcome(q[|q| - 1], if |q| == |base| + 1 then ignore else DefaultIgnore, Lookup(fs, q))
  {
    forall q | q in L && q != [] && !L[q].WantDir?
      ensures Overlay(fs, L)[q].FileEntry? && Overlay(fs, L)[q] == LeafOutcome(q[|q| - 1], if |q| == |base| + 1 then ignore else DefaultIgnore, Lookup(fs, q))
    {
      OverlayLeaf(fs, L, q, q[|q| - 1], if |q| == |base| + 1 then ignore else DefaultIgnore);
    }
  }

  /**
    The walk over a compatible file system succeeds, and afterwards exactly
    the old paths and those the tree names exist.
   */
  lemma WalkSucceeds(fs: Fs, base: Path, items: seq<Item>, ignore: set<Name>)
    requires WellFormedTree(items)
    requires Ready(fs, base, Layout(base, items, ignore))
    ensures Materialized(fs, base, items, ignore).error.None?
    ensures Materialized(fs, base, items, ignore).fs.Keys == fs.Keys + Layout(base, items, ignore).Keys
  {
    MaterializedMeetsLayout(fs, base, items, ignore);
  }

  /** Every directory entry of the tree, an empty one included, is a directory afterwards. */
  lemma WalkMakesDirectories(fs: Fs, base: Path, items: seq<Item>, ignore: set<Name>)
    requires WellFormedTree(items)
    requires Ready(fs, base, Layout(base, items, ignore))
    ensures forall q :: q in Layout(base, items, ignore) && Layout(base, items, ignore)[q].WantDir? ==>
              IsDir(Materialized(fs, base, items, ignore).fs, q)
  {
    MaterializedMeetsLayout(fs, base, items, ignore);
  }

  /**
    Every file leaf is a file afterwards. It holds the placeholder when its name is a source name not
    ignored at its level; otherwise it keeps its old content, or is empty if
    it was absent.
   */
  lemma WalkFillsLeaves(fs: Fs, base: Path, items: seq<Item>, ignore: set<Name>)
    requires WellFormedTree(items)
    requires Ready(fs, base, Layout(base, items, ignore))
    ensures forall q :: q in Layout(base, items, ignore) && q != [] && !Layout(base, items, ignore)[q].WantDir? ==>
              q in Materialized(fs, base, items, ignore).fs
              && Materialized(fs, base, items, ignore).fs[q].FileEntry?
              && Materialized(fs, base, items, ignore).fs[q]
                 == LeafOutcome(q[|q| - 1], if |q| == |base| + 1 then ignore else DefaultIgnore, Lookup(fs, q))
  {
    MaterializedMeetsLayout(fs, base, items, ignore);
    LayoutShape(base, items, ignore);
    OverlayLeaves(fs, Layout(base, items, ignore), base, ignore);
  }

  /** A path the tree does not name is exactly as it was. */
  lemma WalkKeepsOthers(fs: Fs, base: Path, items: seq<Item>, ignore: set<Name>)
    requires WellFormedTree(items)
    requires Ready(fs, base, Layout(base, items, ignore))
    ensures forall q :: q !in Layout(base, items, ignore) ==>
              Lookup(Materialized(fs, base, items, ignore).fs, q) == Lookup(fs, q)
  {
    MaterializedMeetsLayout(fs, base, items, ignore);
  }

  /**
    With `base` missing or a file, the first item fails and nothing changes:
    NotADirectory when `base` or one of its ancestors is a file, NotFound
    when the first missing ancestor is absent.
   */
  lemma MissingBaseFails(fs: Fs, base: Path, items: seq<Item>, ignore: set<Name>)
    requires WellFormed(fs)
    requires !IsDir(fs, base)
    requires items != []
    ensures Materialized(fs, base, items, ignore)
         == Run(fs, Some(if exists k :: 0 < k <= |base| && IsFile(fs, base[..k])
                         then NotADirectory(base + [items[0].name])
                         else NotFound(base + [items[0].name])))
  {
    var p := base + [items[0].name];
    assert Parent(p) == base;
    ParentErrorKind(fs, p);
    assert forall k :: 0 < k <= |base| ==> p[..k] == base[..k];
    assert (exists k :: 0 < k < |p| && IsFile(fs, p[..k])) <==> (exists k :: 0 < k <= |base| && IsFile(fs, base[..k]));
  }

  /** A directory entry whose path holds a file stops the walk with FileExists, the file left as it was. */
  lemma DirectoryOverFileFails(fs: Fs, base: Path, item: Item, ignore: set<Name>)
    requires item.node.Directory?
    requires IsFile(fs, base + [item.name])
    ensures Placed(fs, base, item, ignore) == Run(fs, Some(FileExists(base + [item.name])))
  {
  }

  /**
    A file entry whose path is a directory: the touch succeeds on it, so
    the entry passes silently, unless the placeholder is due, whose write
    fails with IsADirectory.
   */
  lemma FileOverDirectory(fs: Fs, base: Path, item: Item, ignore: set<Name>)
    requires item.node.File?
    requires IsDir(fs, base + [item.name])
    ensures Placed(fs, base, item, ignore)
         == if item.name !in ignore && IsSourceName(item.name)
            then Run(fs, Some(IsADirectory(base + [item.name])))
            else Run(fs, None)
  {
  }
}
