/**
  The tree description the scaffold materialises, and the per-leaf
  decisions: the ignore set, the source-file suffix test and the
  placeholder text written into source files.

  A Python dict keeps its insertion order, so a directory is an ordered
  sequence of named items; `None` is a file and a dict (possibly empty) is a
  directory.
 */
module TreeDescription {
  import opened Wrappers
  import opened FileSystem

  datatype Node = File | Directory(items: seq<Item>)
  datatype Item = Item(name: Name, node: Node)

  /** The ignore set used whenever the caller passes none (a.py:10-11). */
  const DefaultIgnore: set<Name> := {"README.md", "Cargo.toml", "CMakeLists.txt", ".gitignore", "LICENSE.md"}

  /** The suffixes that mark a source file (a.py:19), in the order the source lists them. */
  const SourceSuffixes: seq<string> := [".rs", ".cpp", ".h", ".py", ".lua"]

  const PlaceholderPrefix: string := "// TODO: Implement "

  predicate EndsWith(s: string, suffix: string)
  {
    |suffix| <= |s| && s[|s| - |suffix|..] == suffix
  }

  /** `name.endswith(('.rs', '.cpp', '.h', '.py', '.lua'))` */
  predicate IsSourceName(name: Name)
  {
    exists i :: 0 <= i < |SourceSuffixes| && EndsWith(name, SourceSuffixes[i])
  }

  /** The line written into a source file that is not ignored (a.py:21). */
  function Placeholder(name: Name): string
  {
    PlaceholderPrefix + name + "\n"
  }

  function Names(items: seq<Item>): (ns: seq<Name>)
    ensures |ns| == |items|
    ensures forall i :: 0 <= i < |items| ==> ns[i] == items[i].name
  {
    if items == [] then [] else [items[0].name] + Names(items[1..])
  }

  /** No two items of one directory share a name: a dict has unique keys. */
  predicate UniqueNames(items: seq<Item>)
  {
    forall i, j :: 0 <= i < j < |items| ==> items[i].name != items[j].name
  }

  /**
    A name `base_path / name` joins as exactly one new component: not empty,
    not `.` or `..`, and without a separator.
   */
  predicate ValidName(name: Name)
  {
    name != "" && name != "." && name != ".." && '/' !in name
  }

  /** Every name is one path component and names are unique, in every directory of the tree. */
  predicate WellFormedTree(items: seq<Item>)
    decreases items
  {
    && UniqueNames(items)
    && (forall i :: 0 <= i < |items| ==> ValidName(items[i].name))
    && forall i :: 0 <= i < |items| && items[i].node.Directory? ==> WellFormedTree(items[i].node.items)
  }

  /** The node of the first item named `name`: `tree[name]` for a dict, whose keys are unique. */
  function Find(items: seq<Item>, name: Name): (r: Option<Node>)
    ensures r.Some? <==> name in Names(items)
    ensures r.Some? ==> Item(name, r.value) in items
  {
    if items == [] then None
    else if items[0].name == name then Some(items[0].node)
    else Find(items[1..], name)
  }

  /** A subtree found in a well-formed tree is well formed. */
  lemma FoundWellFormed(items: seq<Item>, name: Name)
    requires WellFormedTree(items)
    requires Find(items, name).Some? && Find(items, name).value.Directory?
    ensures WellFormedTree(Find(items, name).value.items)
  {
    var i :| 0 <= i < |items| && items[i] == Item(name, Find(items, name).value);
  }

  lemma WellFormedParts(items: seq<Item>)
    requires WellFormedTree(items) && items != []
    ensures items[0].name !in Names(items[1..])
    ensures items[0].node.Directory? ==> WellFormedTree(items[0].node.items)
    ensures WellFormedTree(items[1..])
  {
    var rest := items[1..];
    assert forall i :: 0 <= i < |rest| ==> rest[i] == items[i + 1];
  }

  /** The placeholder text determines the name it was written for. */
  lemma PlaceholderShape(name: Name)
    ensures |Placeholder(name)| == |PlaceholderPrefix| + |name| + 1
    ensures Placeholder(name)[..|PlaceholderPrefix|] == PlaceholderPrefix
    ensures Placeholder(name)[|PlaceholderPrefix|..|Placeholder(name)| - 1] == name
    ensures EndsWith(Placeholder(name), "\n")
  {
    var p := Placeholder(name);
    assert p == PlaceholderPrefix + (name + "\n");
    assert p[|PlaceholderPrefix|..] == name + "\n";
    assert p[|PlaceholderPrefix|..|p| - 1] == (name + "\n")[..|name|];
  }

  lemma PlaceholderInjective(a: Name, b: Name)
    requires Placeholder(a) == Placeholder(b)
    ensures a == b
  {
    PlaceholderShape(a);
    PlaceholderShape(b);
  }

  /** Any name formed by appending one of the five suffixes is a source name. */
  lemma SuffixMakesSourceName(stem: string, i: nat)
    requires i < |SourceSuffixes|
    ensures IsSourceName(stem + SourceSuffixes[i])
  {
    var s := stem + SourceSuffixes[i];
    assert s[|s| - |SourceSuffixes[i]|..] == SourceSuffixes[i];
  }

  /**
    None of the five default-ignored names ends in a source suffix, so with
    the default ignore set being ignored never suppresses a placeholder:
    only a caller-supplied set can.
   */
  lemma DefaultIgnoredAreNotSource(name: Name)
    requires name in DefaultIgnore
    ensures !IsSourceName(name)
  {
  }
}
