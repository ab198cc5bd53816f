/**
  `main` (a.py:29-497): make the project directory, walk the literal tree
  into it with the default ignore set, then overwrite four of the files the
  walk made with fixed texts. Each step that fails stops the rest, as the
  exception it stands for would.

  The project directory is a single path component under the working
  directory. The literal tree is not reproduced: `main` is modelled over
  any tree, and the theorems about it assume only what the literal
  evidently satisfies: unique names in every directory and the entries the
  four overwrites target (a.py:40-44, a.py:480).
 */
module Scaffold {
  import opened Wrappers
  import opened FileSystem
  import opened TreeDescription
  import opened TreeLayout
  import opened Materializer

  /** The project directory used when no name is given (a.py:29). */
  const DefaultProjectName: Name := "MyLucidGame"

  const ReadmeText: string :=
    "# Lucid Engine\n\nSource-available game engine. See LICENSE.md for terms.\n\n## Setup\ncargo build --workspace\ncmake ..\n"

  const LicenseText: string :=
    "Lucid Engine License\n\nSource-available: Use per EULA. Royalties apply post $1M revenue.\nSDK portions MIT."

  const BuilderText: string :=
    "#!/usr/bin/env python3\n\nimport os\n\n# Auto-generate build configs\nprint('Building Lucid stacks...')\n# TODO: Implement\n"

  const GitignoreText: string :=
    "# Builds\nbuilds/\ntarget/\n\n# Content temps\nContent/*.tmp\n\n# IDE\n.vscode/\n.idea/\n\n# Logs\nTelemetry/*.log\n"

  // The paths the overwrites name, built one component at a time as `/` does.
  function EnginePath(base: Path): Path { base + ["lucid-engine"] }
  function ReadmePath(base: Path): Path { EnginePath(base) + ["README.md"] }
  function LicensePath(base: Path): Path { EnginePath(base) + ["LICENSE.md"] }
  function BuildPath(base: Path): Path { EnginePath(base) + ["build"] }
  function BuilderPath(base: Path): Path { BuildPath(base) + ["lucid-stack-builder.py"] }
  function GitignorePath(base: Path): Path { base + [".gitignore"] }

  /** One `write_text` call. */
  datatype Overwrite = Overwrite(path: Path, text: string)

  /** The overwrites after the walk, in the source's order (a.py:486-497). */
  function PostWalkWrites(base: Path): seq<Overwrite>
  {
    [ Overwrite(ReadmePath(base), ReadmeText),
      Overwrite(LicensePath(base), LicenseText),
      Overwrite(BuilderPath(base), BuilderText),
      Overwrite(GitignorePath(base), GitignoreText) ]
  }

  /** The writes in order, stopping at the first that fails. */
  function AfterWrites(fs: Fs, ws: seq<Overwrite>): Run
    decreases ws
  {
    if ws == [] then Run(fs, None)
    else
      var r := AfterWrite(fs, ws[0].path, ws[0].text);
      if r.error.Some? then r else AfterWrites(r.fs, ws[1..])
  }

  /** The writes as wants: each path holds the text of the last write to it. */
  function TextWants(ws: seq<Overwrite>): (t: map<Path, Want>)
    ensures forall q :: q in t ==> t[q].WantText?
    decreases ws
  {
    if ws == [] then map[] else map[ws[0].path := WantText(ws[0].text)] + TextWants(ws[1..])
  }

  /**
    Writes whose paths are all files already succeed; a run of writes that
    succeeds leaves every written path holding the text last written to it
    and changes nothing else.
   */
  lemma {:induction false} AfterWritesMeet(fs: Fs, ws: seq<Overwrite>)
    ensures (forall i :: 0 <= i < |ws| ==> IsFile(fs, ws[i].path)) ==> AfterWrites(fs, ws).error.None?
    ensures AfterWrites(fs, ws).error.None? ==> AfterWrites(fs, ws).fs == Overlay(fs, TextWants(ws))
    decreases ws
  {
    if ws == [] {
      assert Overlay(fs, map[]) == fs;
    } else {
      var p, t := ws[0].path, ws[0].text;
      var r := AfterWrite(fs, p, t);
      if r.error.None? {
        var rest := ws[1..];
        assert forall i :: 0 <= i < |rest| ==> rest[i] == ws[i + 1];
        AfterWritesMeet(r.fs, rest);
        OverlayAt(fs, p, WantText(t));
        OverlayCompose(fs, map[p := WantText(t)], TextWants(rest));
      } else {
        assert !IsFile(fs, ws[0].path);
      }
    }
  }

  /** The paths `main` makes: the project directory and the flattened tree under it. */
  function MainLayout(base: Path, tree: seq<Item>): map<Path, Want>
  {
    map[base := WantDir] + Layout(base, tree, DefaultIgnore)
  }

  /** `main(name)` as a state transformer, over a tree given as a parameter. */
  function Scaffolded(fs: Fs, name: Name, tree: seq<Item>): Run
  {
    var base := [name];
    var m := AfterMkdir(fs, base);
    if m.error.Some? then m
    else
      var w := Materialized(m.fs, base, tree, DefaultIgnore);
      if w.error.Some? then w else AfterWrites(w.fs, PostWalkWrites(base))
  }

  /** `main(projectName)`, in place on the volume, with `tree` standing for the literal. */
  method Scaffold(vol: Volume, projectName: Name, tree: seq<Item>) returns (err: Option<Error>)
    modifies vol
    ensures Run(vol.entries, err) == Scaffolded(old(vol.entries), projectName, tree)
  {
    var base := [projectName];
    err := vol.Mkdir(base);
    if err.Some? { return; }
    err := CreateDirectoryTree(vol, base, tree, None);
    if err.Some? { return; }
    ghost var ws := PostWalkWrites(base);
    ghost var goal := AfterWrites(vol.entries, ws);
    assert Scaffolded(old(vol.entries), projectName, tree) == goal;
    err := vol.Write(ReadmePath(base), ReadmeText);
    if err.Some? { return; }
    assert goal == AfterWrites(vol.entries, ws[1..]) && ws[1..][0] == ws[1];
    err := vol.Write(LicensePath(base), LicenseText);
    if err.Some? { return; }
    assert goal == AfterWrites(vol.entries, ws[2..]) && ws[2..][0] == ws[2];
    err := vol.Write(BuilderPath(base), BuilderText);
    if err.Some? { return; }
    assert goal == AfterWrites(vol.entries, ws[3..]) && ws[3..][0] == ws[3];
    err := vol.Write(GitignorePath(base), GitignoreText);
    assert ws[3..][1..] == [];
  }

  /** Four writes in a row: a later write to a path wins over an earlier one. */
  lemma TextWantsOfFour(w0: Overwrite, w1: Overwrite, w2: Overwrite, w3: Overwrite)
    ensures TextWants([w0, w1, w2, w3])
         == map[w0.path := WantText(w0.text), w1.path := WantText(w1.text),
                w2.path := WantText(w2.text), w3.path := WantText(w3.text)]
  {
    assert [w3][1..] == [];
    assert TextWants([w3]) == map[w3.path := WantText(w3.text)];
    assert [w2, w3][1..] == [w3];
    assert TextWants([w2, w3]) == map[w2.path := WantText(w2.text)] + TextWants([w3]);
    assert [w1, w2, w3][1..] == [w2, w3];
    assert TextWants([w1, w2, w3]) == map[w1.path := WantText(w1.text)] + TextWants([w2, w3]);
    assert [w0, w1, w2, w3][1..] == [w1, w2, w3];
  }

  /** The four overwrites as wants: each of the four paths gets its own text. */
  lemma PostWalkWants(base: Path)
    ensures TextWants(PostWalkWrites(base)).Keys
         == {ReadmePath(base), LicensePath(base), BuilderPath(base), GitignorePath(base)}
    ensures TextWants(PostWalkWrites(base))[ReadmePath(base)] == WantText(ReadmeText)
    ensures TextWants(PostWalkWrites(base))[LicensePath(base)] == WantText(LicenseText)
    ensures TextWants(PostWalkWrites(base))[BuilderPath(base)] == WantText(BuilderText)
    ensures TextWants(PostWalkWrites(base))[GitignorePath(base)] == WantText(GitignoreText)
  {
    var readme, license := ReadmePath(base), LicensePath(base);
    assert readme[|base| + 1] != license[|base| + 1];
    TextWantsOfFour(Overwrite(readme, ReadmeText), Overwrite(license, LicenseText),
                    Overwrite(BuilderPath(base), BuilderText), Overwrite(GitignorePath(base), GitignoreText));
  }

  /**
    Whatever the tree, a run of `main` that succeeds leaves the four files
    holding exactly the four texts, replacing whatever the walk left there.
   */
  lemma ScaffoldWritesTexts(fs: Fs, name: Name, tree: seq<Item>)
    ensures var r := Scaffolded(fs, name, tree);
            r.error.None? ==>
              && ReadmePath([name]) in r.fs && r.fs[ReadmePath([name])] == FileEntry(ReadmeText)
              && LicensePath([name]) in r.fs && r.fs[LicensePath([name])] == FileEntry(LicenseText)
              && BuilderPath([name]) in r.fs && r.fs[BuilderPath([name])] == FileEntry(BuilderText)
              && GitignorePath([name]) in r.fs && r.fs[GitignorePath([name])] == FileEntry(GitignoreText)
  {
    var base := [name];
    var m := AfterMkdir(fs, base);
    if m.error.None? {
      var w := Materialized(m.fs, base, tree, DefaultIgnore);
      if w.error.None? {
        AfterWritesMeet(w.fs, PostWalkWrites(base));
        PostWalkWants(base);
      }
    }
  }

  /** The tree has the entries the four overwrites target (a.py:40-44, a.py:480). */
  predicate HasMainEntries(tree: seq<Item>)
  {
    && Find(tree, ".gitignore") == Some(File)
    && Find(tree, "lucid-engine").Some? && Find(tree, "lucid-engine").value.Directory?
    && var engine := Find(tree, "lucid-engine").value.items;
       && Find(engine, "README.md") == Some(File)
       && Find(engine, "LICENSE.md") == Some(File)
       && Find(engine, "build").Some? && Find(engine, "build").value.Directory?
       && Find(Find(engine, "build").value.items, "lucid-stack-builder.py") == Some(File)
  }

  /** What the walk decides for the entries under `lucid-engine` that the overwrites target. */
  lemma EngineLaidOut(base: Path, tree: seq<Item>)
    requires WellFormedTree(tree) && HasMainEntries(tree)
    ensures var L := Layout(base, tree, DefaultIgnore);
            && EnginePath(base) in L && L[EnginePath(base)] == WantDir
            && ReadmePath(base) in L && L[ReadmePath(base)] == WantFile
            && LicensePath(base) in L && L[LicensePath(base)] == WantFile
            && BuildPath(base) in L && L[BuildPath(base)] == WantDir
            && BuilderPath(base) in L && L[BuilderPath(base)] == WantText(Placeholder("lucid-stack-builder.py"))
  {
    var pe := EnginePath(base);
    var engine := Find(tree, "lucid-engine").value.items;
    LayoutContainsFound(base, tree, DefaultIgnore, "lucid-engine");
    FoundSubLayout(base, tree, DefaultIgnore, "lucid-engine");
    FoundWellFormed(tree, "lucid-engine");
    EngineEntries(pe, engine);
  }

  /** Inside `lucid-engine`: the two top files, `build`, and the builder script inside it. */
  lemma EngineEntries(pe: Path, engine: seq<Item>)
    requires WellFormedTree(engine)
    requires Find(engine, "README.md") == Some(File) && Find(engine, "LICENSE.md") == Some(File)
    requires Find(engine, "build").Some? && Find(engine, "build").value.Directory?
    requires Find(Find(engine, "build").value.items, "lucid-stack-builder.py") == Some(File)
    ensures var L := Layout(pe, engine, DefaultIgnore);
            && pe + ["README.md"] in L && L[pe + ["README.md"]] == WantFile
            && pe + ["LICENSE.md"] in L && L[pe + ["LICENSE.md"]] == WantFile
            && pe + ["build"] in L && L[pe + ["build"]] == WantDir
            && pe + ["build"] + ["lucid-stack-builder.py"] in L
            && L[pe + ["build"] + ["lucid-stack-builder.py"]] == WantText(Placeholder("lucid-stack-builder.py"))
  {
    var pb := pe + ["build"];
    var build := Find(engine, "build").value.items;
    LayoutContainsFound(pe, engine, DefaultIgnore, "README.md");
    LayoutContainsFound(pe, engine, DefaultIgnore, "LICENSE.md");
    LayoutContainsFound(pe, engine, DefaultIgnore, "build");
    FoundSubLayout(pe, engine, DefaultIgnore, "build");
    FoundWellFormed(engine, "build");
    LayoutContainsFound(pb, build, DefaultIgnore, "lucid-stack-builder.py");
    BuilderIsSource();
  }

  /** The builder script is a source file outside the default ignore set, so the walk gives it a placeholder. */
  lemma BuilderIsSource()
    ensures LeafWant("lucid-stack-builder.py", DefaultIgnore) == WantText(Placeholder("lucid-stack-builder.py"))
  {
    SuffixMakesSourceName("lucid-stack-builder", 3);
    assert "lucid-stack-builder" + SourceSuffixes[3] == "lucid-stack-builder.py";
  }

  /**
    In the layout of `main`, the project and `lucid-engine/build` are
    directories, the three default-ignored targets are files keeping their
    content and the builder script gets its placeholder, so all four
    overwrites land on files the walk made.
   */
  lemma MainTargetsLaidOut(base: Path, tree: seq<Item>)
    requires WellFormedTree(tree) && HasMainEntries(tree)
    ensures var M := MainLayout(base, tree);
            && base in M && M[base] == WantDir
            && EnginePath(base) in M && M[EnginePath(base)] == WantDir
            && BuildPath(base) in M && M[BuildPath(base)] == WantDir
            && ReadmePath(base) in M && M[ReadmePath(base)] == WantFile
            && LicensePath(base) in M && M[LicensePath(base)] == WantFile
            && GitignorePath(base) in M && M[GitignorePath(base)] == WantFile
            && BuilderPath(base) in M && M[BuilderPath(base)] == WantText(Placeholder("lucid-stack-builder.py"))
  {
    EngineLaidOut(base, tree);
    LayoutContainsFound(base, tree, DefaultIgnore, ".gitignore");
    LayoutKeys(base, tree, DefaultIgnore);
    assert base !in Layout(base, tree, DefaultIgnore);
  }

  /** Making the project directory and walking the tree into it is overlaying the layout of `main`. */
  lemma MkdirThenWalkMeets(fs: Fs, name: Name, tree: seq<Item>)
    requires WellFormedTree(tree)
    requires Compatible(fs, MainLayout([name], tree))
    ensures AfterMkdir(fs, [name]).error.None?
    ensures Materialized(AfterMkdir(fs, [name]).fs, [name], tree, DefaultIgnore)
         == Run(Overlay(fs, MainLayout([name], tree)), None)
  {
    var base := [name];
    var D, L := map[base := WantDir], Layout(base, tree, DefaultIgnore);
    LayoutKeys(base, tree, DefaultIgnore);
    assert base !in L;
    assert [] + [name] == base;
    assert base in MainLayout(base, tree);
    MkdirMeets(fs, [], name);
    var fs1 := Overlay(fs, D);
    assert Ready(fs1, base, L);
    MaterializedMeetsLayout(fs1, base, tree, DefaultIgnore);
    OverlayCompose(fs, D, L);
  }

  /** After the walk of `main`, the four paths the overwrites name are files. */
  lemma TargetsAreFiles(fs: Fs, base: Path, tree: seq<Item>)
    requires WellFormedTree(tree) && HasMainEntries(tree)
    ensures var y := Overlay(fs, MainLayout(base, tree));
            IsFile(y, ReadmePath(base)) && IsFile(y, LicensePath(base))
            && IsFile(y, BuilderPath(base)) && IsFile(y, GitignorePath(base))
  {
    MainTargetsLaidOut(base, tree);
  }

  /** The four overwrites succeed over a file system where their four paths are files. */
  lemma WritesOverFiles(y: Fs, base: Path)
    requires IsFile(y, ReadmePath(base)) && IsFile(y, LicensePath(base))
    requires IsFile(y, BuilderPath(base)) && IsFile(y, GitignorePath(base))
    ensures AfterWrites(y, PostWalkWrites(base)) == Run(Overlay(y, TextWants(PostWalkWrites(base))), None)
  {
    var ws := PostWalkWrites(base);
    assert forall i :: 0 <= i < |ws| ==> IsFile(y, ws[i].path);
    AfterWritesMeet(y, ws);
  }

  /**
    `main` over a file system where nothing the tree names is taken by an
    entry of the other kind succeeds, and leaves the project laid out as
    the tree says with the four texts written over it.
   */
  lemma ScaffoldMeetsLayout(fs: Fs, name: Name, tree: seq<Item>)
    requires WellFormedTree(tree) && HasMainEntries(tree)
    requires Compatible(fs, MainLayout([name], tree))
    ensures Scaffolded(fs, name, tree)
         == Run(Overlay(Overlay(fs, MainLayout([name], tree)), TextWants(PostWalkWrites([name]))), None)
  {
    var base := [name];
    MkdirThenWalkMeets(fs, name, tree);
    TargetsAreFiles(fs, base, tree);
    WritesOverFiles(Overlay(fs, MainLayout(base, tree)), base);
  }

  /** Every overwrite is a text, over a path the layout of `main` wants as a file. */
  lemma TextsOverFileTargets(base: Path, tree: seq<Item>)
    requires WellFormedTree(tree) && HasMainEntries(tree)
    ensures forall q :: q in TextWants(PostWalkWrites(base)) ==>
              TextWants(PostWalkWrites(base))[q].WantText?
              && (q in MainLayout(base, tree) ==> !MainLayout(base, tree)[q].WantDir?)
  {
    MainTargetsLaidOut(base, tree);
    PostWalkWants(base);
    FourOverFiles(MainLayout(base, tree), TextWants(PostWalkWrites(base)),
                  ReadmePath(base), LicensePath(base), BuilderPath(base), GitignorePath(base));
  }

  lemma FourOverFiles(M: map<Path, Want>, T: map<Path, Want>, a: Path, b: Path, c: Path, d: Path)
    requires T.Keys == {a, b, c, d}
    requires a in M && !M[a].WantDir? && b in M && !M[b].WantDir?
    requires c in M && !M[c].WantDir? && d in M && !M[d].WantDir?
    ensures forall q :: q in T ==> q in M && !M[q].WantDir?
  {
  }

  /** Running `main` a second time over its own result changes nothing. */
  lemma ScaffoldIdempotent(fs: Fs, name: Name, tree: seq<Item>)
    requires WellFormedTree(tree) && HasMainEntries(tree)
    requires Compatible(fs, MainLayout([name], tree))
    ensures Scaffolded(Scaffolded(fs, name, tree).fs, name, tree) == Scaffolded(fs, name, tree)
  {
    var base := [name];
    var M, T := MainLayout(base, tree), TextWants(PostWalkWrites(base));
    ScaffoldMeetsLayout(fs, name, tree);
    TextsOverFileTargets(base, tree);
    OverlayTextsCompatible(fs, M, T);
    ScaffoldMeetsLayout(Overlay(Overlay(fs, M), T), name, tree);
    OverlayTextsStable(fs, M, T);
  }
}
