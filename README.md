# Lucid Engine scaffold: a verified model

The Lucid Engine scaffold script (`a.py`) lays out a game-engine project on
disk. `main(project_name)` makes the project directory and walks a large
literal tree description into it with `create_directory_tree`. It then
overwrites four files with fixed texts: `lucid-engine/README.md`,
`lucid-engine/LICENSE.md`, `lucid-engine/build/lucid-stack-builder.py` and
`.gitignore`.

`create_directory_tree(base, tree, ignore_files)` goes through the entries of
a nested dict in insertion order:

- a dict value is a directory, made with `mkdir(exist_ok=True)` and then walked
  recursively with *no* ignore set, so every deeper level uses the default set;
- a `None` value is a file, which is always touched;
- a file whose name is not ignored and ends in `.rs`, `.cpp`, `.h`, `.py` or
  `.lua` is then overwritten with `// TODO: Implement <name>\n`.

The model is organised as follows:

- `FileSystem` (filesystem.dfy)
  - A directory is a finite map from paths (sequences of names, relative to the
    working directory) to directory or file entries.
  - The three operations the script performs (pathlib's `mkdir` and `touch`,
    and writing a file opened with `open(path, 'w')` or `write_text`) are pure
    state transformers: `AfterMkdir`, `AfterTouch` and `AfterWrite`.
  - Each operation reports the error the operating system raises:
    `FileExists`, `NotFound`, `NotADirectory` or `IsADirectory`. Path
    resolution stops at the first prefix that is not a directory, with
    NotADirectory if that prefix is a file and NotFound if it is absent.
  - The class `Volume` holds the mutable map and performs the same three
    operations in place.
- `TreeDescription` (tree.dfy)
  - The tree, with a directory as an ordered sequence of named items.
  - The default ignore set, the suffix test and the placeholder text.
- `TreeLayout` (layout.dfy)
  - A reference definition with no notion of order. `Layout` flattens the tree
    into a map from each path it names to what that path should hold: a
    directory, a file keeping its content, or a file holding a given text.
  - `Overlay` brings a file system to that map.
- `Materializer` (materializer.dfy)
  - The walk as a function, `Materialized`, which stops at the first error as
    the exception would.
  - The walk as an in-place method, `CreateDirectoryTree`, with the source's
    loop and recursion, proved equal to the function.
  - Theorems tying the walk to the reference definition.
- `Scaffold` (scaffold.dfy)
  - `main` as a function, `Scaffolded`, and as a method, `Scaffold`.
  - Its four fixed texts, and the theorems about the result.

The central theorems are `Materializer.MaterializedMeetsLayout` and
`Scaffold.ScaffoldMeetsLayout`. Suppose no path the tree names is already
taken by an entry of the other kind. Then the walk, and `main`, raise no error
and produce the overlay of the flattened tree (plus, for `main`, the four
texts). From this the model derives:

- which paths exist afterwards;
- what every file holds;
- that paths outside the tree are untouched;
- that running a second time changes nothing.

Where the error cases apply, the model also states what happens: a missing
base, a file where a directory is due, or a directory where a file is due.

## Model

| member | source | states |
|---|---|---|
| FileSystem.ParentError | a.py:17 | A new entry fails exactly when its parent is not a directory. The error is NotADirectory when the first prefix of the path that is not a directory is a file, and NotFound when it is absent. |
| FileSystem.ParentErrorKind | a.py:17 | In a well-formed file system the error is NotADirectory exactly when some proper prefix of the path is a file, and NotFound exactly when none is. |
| FileSystem.MkdirUnderFile | a.py:24 | Making `f/x/y` where `f` is a file fails with NotADirectory, although `f/x` is absent. |
| FileSystem.AfterMkdir | a.py:24 | `mkdir(exist_ok=True)` succeeds exactly on an existing directory, or a free path whose parent is a directory. It fails with FileExists over a file, and it changes no other path. |
| FileSystem.AfterTouch | a.py:17 | `touch` leaves an existing entry of either kind unchanged, creates an empty file at a free path inside a directory, and otherwise fails with the parent's error. |
| FileSystem.AfterWrite | a.py:20-21 | Opening for writing fails with IsADirectory on a directory. Otherwise, when the file exists or its parent is a directory, the path holds exactly the new text and nothing else changes. |
| FileSystem.Volume.Mkdir | a.py:24 | In place: the new map and the error are those of AfterMkdir on the old map. |
| FileSystem.Volume.Touch | a.py:17 | In place: the new map and the error are those of AfterTouch on the old map. |
| FileSystem.Volume.Write | a.py:20-21 | In place: the new map and the error are those of AfterWrite on the old map. |
| TreeDescription.Find | a.py:37-481 | Looking up a name in a dict: found exactly when some item has that name, and the node returned is that item's node. |
| TreeDescription.EndsWith | a.py:19 | `str.endswith` for one suffix: the last characters equal the suffix. Its use is stated by SuffixMakesSourceName and DefaultIgnoredAreNotSource. |
| TreeDescription.IsSourceName | a.py:19 | The suffix test over `.rs`, `.cpp`, `.h`, `.py`, `.lua`. Stated by SuffixMakesSourceName, DefaultIgnoredAreNotSource and BuilderIsSource. |
| TreeDescription.Placeholder | a.py:21 | The placeholder line. Stated by PlaceholderShape and PlaceholderInjective. |
| TreeDescription.PlaceholderShape | a.py:21 | The placeholder is the prefix `// TODO: Implement `, then the name, then a newline. |
| TreeDescription.PlaceholderInjective | a.py:21 | Two different names never get the same placeholder text. |
| TreeDescription.SuffixMakesSourceName | a.py:19 | Any name ending in one of the five suffixes is classified as a source file. |
| TreeDescription.DefaultIgnoredAreNotSource | a.py:10-11 | None of the five default-ignored names ends in a source suffix. So under the default set the ignore check never suppresses a placeholder. |
| TreeLayout.LeafWant | a.py:16-21 | The decision for one file leaf: the placeholder text when the name is not ignored and is a source name, else a file keeping its content. WalkFillsLeaves states what it means on disk. |
| TreeLayout.Overlay | a.py:13-27 | The overlaid map has the old paths plus the layout's paths. Every layout path holds what its want makes of the prior entry, and every other path keeps its entry. |
| TreeLayout.OverlayCompose | a.py:13-27 | Overlaying one layout after another is overlaying their union, provided the second never keeps a prior file where both name a path. This is why the walk can proceed item by item. |
| TreeLayout.OverlayIdempotent | a.py:13-27 | Overlaying the same layout twice is the same as overlaying it once. |
| TreeLayout.IgnoreGovernsTopLevelOnly | a.py:10-27 | For any two ignore sets, the layouts agree on every path, on every directory and on every leaf below the first level. Only files directly under the base can differ. |
| TreeLayout.LayoutContainsFound | a.py:13-27 | With unique names, the entry found under a name is laid out at base/name, as a directory or as the leaf decision of its level, and everything under it is part of the layout. |
| Materializer.Placed | a.py:14-27 | One iteration of the loop: the file branch, or mkdir then the recursive walk with no ignore set. Stated by PlacedMeets, PlacedPreserves, DirectoryOverFileFails and FileOverDirectory. |
| Materializer.Materialized | a.py:5-27 | The walk over the items in order, stopping at the first error. Stated by MaterializedMeetsLayout, MaterializedPreserves and the Walk lemmas. |
| Materializer.PlacedFile | a.py:15-23 | The file branch changes no path but its own and keeps the file system well formed. |
| Materializer.PlaceFile | a.py:15-23 | In place: touch, then write the placeholder when the name is not ignored and is a source name. The result is that of PlacedFile. |
| Materializer.CreateDirectoryTree | a.py:5-27 | The in-place loop and recursion leave the map and error that the walk function Materialized gives. A given ignore set is used as is; when none is passed, the five default names are used (a.py:10-11). |
| Materializer.PlacedPreserves | a.py:14-27 | One item, even when it fails, keeps the file system well formed and changes nothing outside the base directory. |
| Materializer.MaterializedPreserves | a.py:13-27 | The whole walk, even when it stops at an error, keeps every entry inside a directory and changes nothing outside the base, so no child entry is ever made before its directory. |
| Materializer.PlacedFileMeets | a.py:15-23 | A file leaf inside a directory, over a path that is not a directory, succeeds and brings its path to the leaf decision. |
| Materializer.MkdirMeets | a.py:24 | Making a directory that already exists, or a free one inside a directory, is no error and brings the path to a directory. |
| Materializer.PlacedMeets | a.py:14-27 | One item over a compatible state succeeds and overlays that item's layout, its subtree included. |
| Materializer.MaterializedMeetsLayout | a.py:5-27 | Suppose the base is a directory and no tree path is taken by an entry of the other kind. Then the walk raises no error, and the result is exactly the old file system overlaid with the flattened tree. |
| Materializer.WalkSucceeds | a.py:13-27 | Over a compatible file system the walk succeeds, and afterwards exactly the old paths and the tree's paths exist. |
| Materializer.WalkMakesDirectories | a.py:24-27 | Every dict-valued entry, including an empty `{}`, is a directory afterwards. |
| Materializer.WalkFillsLeaves | a.py:15-23 | Every `None` entry is a file afterwards. A leaf whose name is a source name not ignored at its level holds the placeholder whatever it held before. Any other leaf is a file that keeps its old content, or is empty if it was absent. |
| Materializer.WalkKeepsOthers | a.py:13-27 | No path outside the tree is created or changed. |
| Materializer.WalkIdempotent | a.py:13-27 | Walking again over the walk's own result gives the same state and no error. |
| Materializer.MissingBaseFails | a.py:14-24 | With the base directory missing or a file, the first item fails and nothing changes. The error is NotADirectory when the base or one of its ancestors is a file, and NotFound otherwise. |
| Materializer.DirectoryOverFileFails | a.py:24 | A directory entry whose path holds a file stops the walk with FileExists, and the file is left as it was. |
| Materializer.FileOverDirectory | a.py:15-23 | A file entry over an existing directory passes silently, because touch accepts a directory, unless a placeholder is due. In that case the write fails with IsADirectory. |
| Scaffold.PostWalkWrites | a.py:486-497 | The four overwrites in the source order with the four literal texts. Stated by PostWalkWants. |
| Scaffold.AfterWrites | a.py:486-497 | The writes in order, stopping at the first failure. Stated by AfterWritesMeet. |
| Scaffold.Scaffolded | a.py:29-497 | `main`: mkdir of the project, the walk, then the four writes. Stated by ScaffoldWritesTexts, ScaffoldMeetsLayout and ScaffoldIdempotent. |
| Scaffold.AfterWritesMeet | a.py:486-497 | Writes onto existing files all succeed. A successful run of writes leaves each path with the text last written to it and changes nothing else. |
| Scaffold.PostWalkWants | a.py:486-497 | The four overwrites target four different paths, each with its own fixed text. |
| Scaffold.Scaffold | a.py:29-497 | In place: make the project directory, walk the tree with the default ignore set, then the four writes, stopping at the first error. The result is that of Scaffolded. |
| Scaffold.ScaffoldWritesTexts | a.py:483-497 | For any tree, a successful `main` leaves the four files with exactly the four fixed texts, replacing whatever the walk put there. |
| Scaffold.BuilderIsSource | a.py:19-21 | `lucid-stack-builder.py` is a source name outside the default ignore set, so the walk gives it a placeholder before `main` replaces it. |
| Scaffold.MainTargetsLaidOut | a.py:38-44 | In the layout of `main`, the project, `lucid-engine` and `build` are directories, and the three ignored targets are files. The builder script gets its placeholder, so all four overwrites land on files. |
| Scaffold.ScaffoldMeetsLayout | a.py:29-497 | Suppose no path the tree names is taken by an entry of the other kind. Then `main` succeeds, and the result is the old file system overlaid with the project's layout and then with the four texts. |
| Scaffold.ScaffoldIdempotent | a.py:29-497 | Running `main` a second time over its own result changes nothing and raises nothing. |

## Left out

- Console output and command-line dispatch are left out (a.py:499-506). `DefaultProjectName` keeps the default name of a.py:29.
- The literal tree (a.py:37-481) is not reproduced. `Scaffold.Scaffold` and `Scaffold.Scaffolded` take the tree as a parameter.
  - ScaffoldMeetsLayout: assumes that in every directory the names are unique and are single path components, and that the four target entries exist (`WellFormedTree` and `HasMainEntries`). It does not prove these two facts of the literal.
  - MainTargetsLaidOut: same assumptions as ScaffoldMeetsLayout.
  - ScaffoldIdempotent: same assumptions as ScaffoldMeetsLayout.
- A project name is modelled as a single path component directly under the working directory, which always exists. Not modelled: names that contain a separator, are absolute or are empty, and the resolution of `..`.
- Tree values that are neither a dict nor `None` (the `isinstance` check at a.py:26) cannot be written in the tree datatype.
- The docstring at a.py:8 says `None` may also mean an empty directory. The code at a.py:15 treats `None` as a file, and the model follows the code.
- A tree with a repeated name in one directory can be written in the model, but not as a Python dict. The theorems assume unique names.
- A tree name that `base_path / name` would split or collapse (`a/b`, an empty name, `.`, `..`) is not modelled as the several or zero components Python makes of it. The walk theorems assume through `WellFormedTree` that every name is one component (`ValidName`).
- Operating-system failures other than the four path errors are left out: permissions, a full disk, invalid names.
- Timestamps that `touch` updates are left out.
- Two places where the intended behaviour could be read differently from the code:
  - A file in the ignore set that already exists keeps its content, because `touch` does not truncate. It is not emptied.
  - A non-ignored source file is rewritten with its placeholder on every run.

  The model follows the code on both points.
