/**
  A reference definition of what the tree walk leaves behind, written
  without any notion of order or of intermediate states: the tree is
  flattened into a map from every path it names to what should be found
  there (Layout), and the file system afterwards is the old one overlaid
  with that map (Overlay).
 */
module TreeLayout {
  import opened Wrappers
  import opened FileSystem
  import opened TreeDescription

  /** What a path of the tree should hold after the walk. */
  datatype Want =
    | WantDir              // a directory
    | WantFile             // a file: its old content if it was one, else empty
    | WantText(text: string)  // a file holding exactly this text

  /** The decision made for a file leaf named `name` at a level whose ignore set is `ignore`. */
  function LeafWant(name: Name, ignore: set<Name>): Want
  {
    if name !in ignore && IsSourceName(name) then WantText(Placeholder(name)) else WantFile
  }

  predicate StrictlyUnder(base: Path, q: Path)
  {
    |base| < |q| && q[..|base|] == base
  }

  /** The wants contributed by one item placed in directory `base`. */
  function EntryLayout(base: Path, item: Item, ignore: set<Name>): map<Path, Want>
    decreases item
  {
    var p := base + [item.name];
    match item.node
    case File => map[p := LeafWant(item.name, ignore)]
    case Directory(sub) => map[p := WantDir] + Layout(p, sub, DefaultIgnore)
  }

  /**
    The flattened tree: every path the description names under `base`, with
    its want. The caller's ignore set is used for the items directly under
    `base`; every deeper level uses the default set.
   */
  function Layout(base: Path, items: seq<Item>, ignore: set<Name>): map<Path, Want>
    decreases items
  {
    if items == [] then map[]
    else EntryLayout(base, items[0], ignore) + Layout(base, items[1..], ignore)
  }

  /** Every path of a directory's layout but the directory's own children has its parent there, as a directory. */
  predicate ParentClosed(L: map<Path, Want>, base: Path)
  {
    forall q :: q in L && |q| > |base| + 1 ==> Parent(q) in L && L[Parent(q)] == WantDir
  }

  /** Every file path holds the leaf decision for its last name, with the caller's set only one level down. */
  predicate LeavesDecided(L: map<Path, Want>, base: Path, ignore: set<Name>)
  {
    forall q :: q in L && q != [] && !L[q].WantDir? ==>
      L[q] == LeafWant(q[|q| - 1], if |q| == |base| + 1 then ignore else DefaultIgnore)
  }

  lemma UnderChild(base: Path, name: Name, q: Path)
    requires StrictlyUnder(base + [name], q)
    ensures StrictlyUnder(base, q) && q[|base|] == name && |q| > |base| + 1
  {
    assert q[..|base|] == q[..|base| + 1][..|base|];
  }

  lemma {:induction false} EntryLayoutKeys(base: Path, item: Item, ignore: set<Name>)
    ensures base + [item.name] in EntryLayout(base, item, ignore)
    ensures EntryLayout(base, item, ignore)[base + [item.name]]
         == if item.node.File? then LeafWant(item.name, ignore) else WantDir
    ensures forall q :: q in EntryLayout(base, item, ignore) ==> StrictlyUnder(base, q) && q[|base|] == item.name
    decreases item
  {
    var p := base + [item.name];
    assert p[..|base|] == base;
    match item.node
    case File =>
    case Directory(sub) =>
      LayoutKeys(p, sub, DefaultIgnore);
      assert p !in Layout(p, sub, DefaultIgnore);
      forall q | q in Layout(p, sub, DefaultIgnore)
        ensures StrictlyUnder(base, q) && q[|base|] == item.name
      {
        UnderChild(base, item.name, q);
      }
  }

  lemma {:induction false} LayoutKeys(base: Path, items: seq<Item>, ignore: set<Name>)
    ensures forall q :: q in Layout(base, items, ignore) ==> StrictlyUnder(base, q) && q[|base|] in Names(items)
    decreases items
  {
    if items != [] {
      EntryLayoutKeys(base, items[0], ignore);
      LayoutKeys(base, items[1..], ignore);
      assert Names(items) == [items[0].name] + Names(items[1..]);
    }
  }

  /** With unique names, the layouts of two different items of a directory share no path. */
  lemma LayoutsDisjoint(base: Path, items: seq<Item>, ignore: set<Name>)
    requires items != [] && items[0].name !in Names(items[1..])
    ensures EntryLayout(base, items[0], ignore).Keys !! Layout(base, items[1..], ignore).Keys
  {
    EntryLayoutKeys(base, items[0], ignore);
    LayoutKeys(base, items[1..], ignore);
  }

  /** A directory `base + [name]` together with a layout below it keeps parents closed one level up. */
  lemma NestParentClosed(base: Path, name: Name, S: map<Path, Want>)
    requires ParentClosed(S, base + [name])
    requires forall q :: q in S ==> StrictlyUnder(base + [name], q)
    ensures ParentClosed(map[base + [name] := WantDir] + S, base)
  {
    var p := base + [name];
    var E := map[p := WantDir] + S;
    forall q | q in E && |q| > |base| + 1
      ensures Parent(q) in E && E[Parent(q)] == WantDir
    {
      assert q != p;
      if |q| == |p| + 1 {
        assert Parent(q) == q[..|p|];
      }
    }
  }

  /** Below the directory `base + [name]` every leaf uses the default set, whatever `base`'s set is. */
  lemma NestLeavesDecided(base: Path, name: Name, S: map<Path, Want>, ignore: set<Name>)
    requires LeavesDecided(S, base + [name], DefaultIgnore)
    requires forall q :: q in S ==> StrictlyUnder(base + [name], q)
    ensures LeavesDecided(map[base + [name] := WantDir] + S, base, ignore)
  {
    var p := base + [name];
    var E := map[p := WantDir] + S;
    forall q | q in E && q != [] && !E[q].WantDir?
      ensures E[q] == LeafWant(q[|q| - 1], if |q| == |base| + 1 then ignore else DefaultIgnore)
    {
      assert q != p && q in S && E[q] == S[q];
      assert StrictlyUnder(p, q) && |q| != |base| + 1;
    }
  }

  lemma {:induction false} EntryLayoutShape(base: Path, item: Item, ignore: set<Name>)
    requires item.node.Directory? ==> WellFormedTree(item.node.items)
    ensures ParentClosed(EntryLayout(base, item, ignore), base)
    ensures LeavesDecided(EntryLayout(base, item, ignore), base, ignore)
    decreases item
  {
    match item.node
    case File =>
    case Directory(sub) =>
      var p := base + [item.name];
      LayoutShape(p, sub, DefaultIgnore);
      LayoutKeys(p, sub, DefaultIgnore);
      NestParentClosed(base, item.name, Layout(p, sub, DefaultIgnore));
      NestLeavesDecided(base, item.name, Layout(p, sub, DefaultIgnore), ignore);
  }

  /** Closed parents survive the union of two layouts of disjoint paths. */
  lemma UnionParentClosed(E: map<Path, Want>, R: map<Path, Want>, base: Path)
    requires E.Keys !! R.Keys
    requires ParentClosed(E, base) && ParentClosed(R, base)
    ensures ParentClosed(E + R, base)
  {
    var L := E + R;
    forall q | q in L && |q| > |base| + 1
      ensures Parent(q) in L && L[Parent(q)] == WantDir
    {
      if q in R {
        assert Parent(q) in R && L[Parent(q)] == R[Parent(q)];
      } else {
        assert Parent(q) in E && Parent(q) !in R && L[Parent(q)] == E[Parent(q)];
      }
    }
  }

  /** Decided leaves survive the union of two layouts. */
  lemma UnionLeavesDecided(E: map<Path, Want>, R: map<Path, Want>, base: Path, ignore: set<Name>)
    requires LeavesDecided(E, base, ignore) && LeavesDecided(R, base, ignore)
    ensures LeavesDecided(E + R, base, ignore)
  {
    var L := E + R;
    forall q | q in L && q != [] && !L[q].WantDir?
      ensures L[q] == LeafWant(q[|q| - 1], if |q| == |base| + 1 then ignore else DefaultIgnore)
    {
      if q in R {
        assert L[q] == R[q];
      } else {
        assert L[q] == E[q];
      }
    }
  }

  lemma {:induction false} LayoutShape(base: Path, items: seq<Item>, ignore: set<Name>)
    requires WellFormedTree(items)
    ensures ParentClosed(Layout(base, items, ignore), base)
    ensures LeavesDecided(Layout(base, items, ignore), base, ignore)
    decreases items
  {
    if items != [] {
      WellFormedParts(items);
      EntryLayoutShape(base, items[0], ignore);
      LayoutShape(base, items[1..], ignore);
      LayoutsDisjoint(base, items, ignore);
      var E, R := EntryLayout(base, items[0], ignore), Layout(base, items[1..], ignore);
      UnionParentClosed(E, R, base);
      UnionLeavesDecided(E, R, base, ignore);
    }
  }

  function Lookup(fs: Fs, q: Path): Option<Entry>
  {
    if q in fs then Some(fs[q]) else None
  }

  /** The entry a want produces over what was there before. */
  function Apply(w: Want, prior: Option<Entry>): Entry
  {
    match w
    case WantDir => DirEntry
    case WantText(t) => FileEntry(t)
    case WantFile => if prior.Some? && prior.value.FileEntry? then prior.value else FileEntry("")
  }

  /** The file system `fs` with every path of `L` brought to what `L` wants there. */
  function Overlay(fs: Fs, L: map<Path, Want>): (r: Fs)
    ensures r.Keys == fs.Keys + L.Keys
    ensures forall q :: q in L ==> r[q] == Apply(L[q], Lookup(fs, q))
    ensures forall q :: q in fs && q !in L ==> r[q] == fs[q]
  {
    map q | q in fs.Keys + L.Keys :: if q in L then Apply(L[q], Lookup(fs, q)) else fs[q]
  }

  /** Overlaying a single path updates that path alone. */
  lemma OverlayAt(fs: Fs, p: Path, w: Want)
    ensures Overlay(fs, map[p := w]) == fs[p := Apply(w, Lookup(fs, p))]
  {
    var o := Overlay(fs, map[p := w]);
    assert o.Keys == fs[p := Apply(w, Lookup(fs, p))].Keys;
  }

  /** No path of the tree is already taken by an entry of the other kind. */
  predicate Compatible(fs: Fs, L: map<Path, Want>)
  {
    forall q :: q in L && q in fs ==> (fs[q].DirEntry? <==> L[q].WantDir?)
  }

  /**
    Overlaying `A` and then `B` is overlaying their union, as long as every
    path both name is one where `B` does not look at the prior entry.
   */
  lemma OverlayCompose(fs: Fs, A: map<Path, Want>, B: map<Path, Want>)
    requires forall q :: q in A && q in B ==> !B[q].WantFile?
    ensures Overlay(Overlay(fs, A), B) == Overlay(fs, A + B)
  {
    var lhs, rhs := Overlay(Overlay(fs, A), B), Overlay(fs, A + B);
    assert lhs.Keys == rhs.Keys;
    forall q | q in lhs.Keys
      ensures lhs[q] == rhs[q]
    {
      if q in B && q !in A {
        assert Lookup(Overlay(fs, A), q) == Lookup(fs, q);
      }
    }
  }

  /** Overlaying the same layout twice is the same as overlaying it once. */
  lemma OverlayIdempotent(fs: Fs, L: map<Path, Want>)
    ensures Overlay(Overlay(fs, L), L) == Overlay(fs, L)
  {
    var once := Overlay(fs, L);
    var twice := Overlay(once, L);
    assert twice.Keys == once.Keys;
    forall q | q in twice.Keys
      ensures twice[q] == once[q]
    {
      if q in L {
        assert Lookup(once, q) == Some(once[q]);
      }
    }
  }

  /** An overlay always agrees with its layout on the kind of every path. */
  lemma OverlayCompatible(fs: Fs, L: map<Path, Want>)
    ensures Compatible(Overlay(fs, L), L)
  {
  }

  /** Two layouts of the same paths that can differ only in the file wants one level below `base`. */
  predicate AgreeBelowTop(L1: map<Path, Want>, L2: map<Path, Want>, base: Path)
  {
    && L1.Keys == L2.Keys
    && forall q :: q in L1 && (|q| > |base| + 1 || L1[q].WantDir?) ==> L1[q] == L2[q]
  }

  lemma AgreeBelowTopUnion(A1: map<Path, Want>, A2: map<Path, Want>, B1: map<Path, Want>, B2: map<Path, Want>, base: Path)
    requires AgreeBelowTop(A1, A2, base) && AgreeBelowTop(B1, B2, base)
    ensures AgreeBelowTop(A1 + B1, A2 + B2, base)
  {
  }

  /**
    Whatever a caller-supplied ignore set holds, it only decides the file
    leaves directly under `base`: the paths, every directory and every
    deeper leaf are the same for any two ignore sets.
   */
  lemma {:induction false} IgnoreGovernsTopLevelOnly(base: Path, items: seq<Item>, ign1: set<Name>, ign2: set<Name>)
    ensures AgreeBelowTop(Layout(base, items, ign1), Layout(base, items, ign2), base)
    decreases items
  {
    if items != [] {
      IgnoreGovernsTopLevelOnly(base, items[1..], ign1, ign2);
      var E1, E2 := EntryLayout(base, items[0], ign1), EntryLayout(base, items[0], ign2);
      assert AgreeBelowTop(E1, E2, base);
      AgreeBelowTopUnion(E1, E2, Layout(base, items[1..], ign1), Layout(base, items[1..], ign2), base);
    }
  }

  /**
    With unique names, the contribution of the item found under `name`
    survives in the layout of its directory; for a directory that
    contribution holds the layout of its own subtree, computed with the
    default ignore set.
   */
  lemma {:induction false} LayoutContainsFound(base: Path, items: seq<Item>, ignore: set<Name>, name: Name)
    requires UniqueNames(items)
    requires Find(items, name).Some?
    ensures base + [name] in Layout(base, items, ignore)
    ensures Layout(base, items, ignore)[base + [name]]
         == if Find(items, name).value.File? then LeafWant(name, ignore) else WantDir
    ensures forall q :: q in EntryLayout(base, Item(name, Find(items, name).value), ignore) ==>
              q in Layout(base, items, ignore) && Layout(base, items, ignore)[q] == EntryLayout(base, Item(name, Find(items, name).value), ignore)[q]
    decreases items
  {
    var rest := items[1..];
    assert forall k :: 0 <= k < |rest| ==> rest[k] == items[k + 1];
    EntryLayoutKeys(base, Item(name, Find(items, name).value), ignore);
    if items[0].name == name {
      LayoutsDisjoint(base, items, ignore);
    } else {
      LayoutContainsFound(base, rest, ignore, name);
    }
    assert base + [name] in EntryLayout(base, Item(name, Find(items, name).value), ignore);
  }

  /** With unique names, the layout of a subtree found under `name` is part of its directory's layout. */
  lemma FoundSubLayout(base: Path, items: seq<Item>, ignore: set<Name>, name: Name)
    requires UniqueNames(items)
    requires Find(items, name).Some? && Find(items, name).value.Directory?
    ensures forall q :: q in Layout(base + [name], Find(items, name).value.items, DefaultIgnore) ==>
              q in Layout(base, items, ignore)
              && Layout(base, items, ignore)[q] == Layout(base + [name], Find(items, name).value.items, DefaultIgnore)[q]
  {
    var p, sub := base + [name], Find(items, name).value.items;
    LayoutContainsFound(base, items, ignore, name);
    LayoutKeys(p, sub, DefaultIgnore);
    assert p !in Layout(p, sub, DefaultIgnore);
    assert EntryLayout(base, Item(name, Directory(sub)), ignore) == map[p := WantDir] + Layout(p, sub, DefaultIgnore);
  }

  /** Text wants over paths the layout does not want as directories keep the result compatible with the layout. */
  lemma OverlayTextsCompatible(fs: Fs, A: map<Path, Want>, T: map<Path, Want>)
    requires forall q :: q in T ==> T[q].WantText? && (q in A ==> !A[q].WantDir?)
    ensures Compatible(Overlay(Overlay(fs, A), T), A)
  {
    var Y := Overlay(fs, A);
    var Z := Overlay(Y, T);
    forall q | q in A && q in Z
      ensures Z[q].DirEntry? <==> A[q].WantDir?
    {
      if q !in T {
        assert Z[q] == Y[q];
      }
    }
  }

  /**
    Overlaying a layout and then text wants is stable: doing both once more
    gives the same file system, because the layout finds what it wants and
    the texts replace whatever the layout put at their paths.
   */
  lemma OverlayTextsStable(fs: Fs, A: map<Path, Want>, T: map<Path, Want>)
    requires forall q :: q in T ==> T[q].WantText?
    ensures Overlay(Overlay(Overlay(Overlay(fs, A), T), A), T) == Overlay(Overlay(fs, A), T)
  {
    var Y := Overlay(fs, A);
    var Z := Overlay(Y, T);
    var W := Overlay(Z, A);
    var V := Overlay(W, T);
    assert V.Keys == Z.Keys;
    forall q | q in V
      ensures V[q] == Z[q]
    {
      if q !in T && q in A {
        assert Lookup(Z, q) == Some(Y[q]);
      }
    }
  }
}
