/** The directory scan: string joining, the extension filter, and the two walks
    that choose candidate rule files from a directory tree, the sequential
    `WalkDir` and the recursive fan-out of `parallelWalkDir`. */
module Util {
  import opened Wrappers

  type Path = string

  // ---------------------------------------------------------------------------
  // Concat

  /** The in-order concatenation of `values`. */
  function Flatten(values: seq<string>): string {
    if values == [] then "" else Flatten(values[..|values| - 1]) + values[|values| - 1]
  }

  lemma {:induction false} FlattenAppend(a: seq<string>, b: seq<string>)
    ensures Flatten(a + b) == Flatten(a) + Flatten(b)
    decreases |b|
  {
    if b == [] {
      assert a + b == a;
    } else {
      var b' := b[..|b| - 1];
      var ab := a + b;
      assert ab[..|ab| - 1] == a + b';
      assert Flatten(ab) == Flatten(a + b') + b[|b| - 1];
      FlattenAppend(a, b');
    }
  }

  /** Concatenation is a fold from the left as well: the first value comes first. */
  lemma FlattenCons(s: string, values: seq<string>)
    ensures Flatten([s] + values) == s + Flatten(values)
  {
    FlattenAppend([s], values);
    assert Flatten([s]) == Flatten([]) + s;
  }

  /** Writes every value into one buffer, in order. */
  method Concat(values: seq<string>) returns (r: string)
    ensures r == Flatten(values)
    ensures values == [] ==> r == ""
  {
    var buffer := "";
    for i := 0 to |values|
      invariant buffer == Flatten(values[..i])
    {
      assert values[..i + 1][..i] == values[..i];
      buffer := buffer + values[i];
    }
    assert values[..|values|] == values;
    r := buffer;
  }

  // ---------------------------------------------------------------------------
  // The extension filter

  /** ASCII upper case to lower case; every other character is kept. */
  function LowerChar(c: char): char {
    if 'A' <= c <= 'Z' then (c as int - 'A' as int + 'a' as int) as char else c
  }

  function Lower(s: string): string {
    seq(|s|, i requires 0 <= i < |s| => LowerChar(s[i]))
  }

  /** The extension of `path`: the suffix from the last '.' of its final element,
      or "" when the final element has no '.'. */
  function Ext(path: Path): (e: string)
    ensures |e| <= |path| && e == path[|path| - |e|..]
    ensures e != [] ==> e[0] == '.' && forall k :: 0 < k < |e| ==> e[k] != '.' && e[k] != '/'
    ensures e == [] ==> forall k :: 0 <= k < |path| && path[k] == '.' ==>
      exists j :: k < j < |path| && path[j] == '/'
  {
    if path == [] then ""
    else
      var last := path[|path| - 1];
      if last == '/' then ""
      else if last == '.' then "."
      else
        var e := Ext(path[..|path| - 1]);
        if e == "" then "" else e + [last]
  }

  /** The extension a walk looks for: "." followed by the lower-cased suffix. */
  function TargetExt(suffix: string): (ext: string)
    ensures ext == "." + Lower(suffix)
  {
    FlattenCons(".", [Lower(suffix)]);
    assert [".", Lower(suffix)] == ["."] + [Lower(suffix)];
    assert Flatten([Lower(suffix)]) == Flatten([]) + Lower(suffix);
    Flatten([".", Lower(suffix)])
  }

  /** A path ending in a '.' and a run of other characters than '.' and '/'
      has that ending as its extension. */
  lemma {:induction false} ExtOfEnding(prefix: Path, e: string)
    requires e != [] && e[0] == '.'
    requires forall k :: 0 < k < |e| ==> e[k] != '.' && e[k] != '/'
    ensures Ext(prefix + e) == e
    decreases |e|
  {
    var path := prefix + e;
    assert path[|path| - 1] == e[|e| - 1];
    if |e| > 1 {
      assert path[..|path| - 1] == prefix + e[..|e| - 1];
      ExtOfEnding(prefix, e[..|e| - 1]);
      assert e[..|e| - 1] + [e[|e| - 1]] == e;
    }
  }

  /** A path without any '.' has no extension. */
  lemma {:induction false} ExtWithoutDot(path: Path)
    requires forall k :: 0 <= k < |path| ==> path[k] != '.'
    ensures Ext(path) == ""
    decreases |path|
  {
    if path != [] {
      ExtWithoutDot(path[..|path| - 1]);
    }
  }

  /** A path is chosen when its lower-cased extension is the target: it then
      ends, in upper or lower case, with the target, which starts with '.'. */
  predicate Selected(path: Path, ext: string): (b: bool)
    ensures b ==> |ext| <= |path| && Lower(path[|path| - |ext|..]) == ext
    ensures b && ext != "" ==> ext[0] == '.'
  {
    Lower(Ext(path)) == ext
  }

  /** Suffixes that differ only in case select the same paths. */
  lemma SuffixCaseInsensitive(s1: string, s2: string, path: Path)
    requires Lower(s1) == Lower(s2)
    ensures Selected(path, TargetExt(s1)) <==> Selected(path, TargetExt(s2))
  {
  }

  lemma TargetExtExamples()
    ensures TargetExt("YAML") == ".yaml" && TargetExt("yaml") == ".yaml"
  {
    assert Lower("YAML") == "yaml";
    assert Lower("yaml") == "yaml";
  }

  lemma UpperCaseSelected()
    ensures Selected("rules/a.YAML", ".yaml")
  {
    ExtOfEnding("rules/a", ".YAML");
    assert "rules/a" + ".YAML" == "rules/a.YAML";
    assert Lower(".YAML") == ".yaml";
  }

  lemma OtherExtensionRejected()
    ensures !Selected("rules/a.yml", ".yaml")
  {
    ExtOfEnding("rules/a", ".yml");
    assert "rules/a" + ".yml" == "rules/a.yml";
    assert |Lower(".yml")| == 4;
  }

  lemma DirectoryDotRejected()
    ensures !Selected("rules.yaml/a", ".yaml")
  {
    var path := "rules.yaml/a";
    assert path[|path| - 1] == 'a' && path[..|path| - 1] == "rules.yaml/";
    assert Ext("rules.yaml/") == "";
  }

  lemma SelectedExamples()
    ensures TargetExt("YAML") == TargetExt("yaml") == ".yaml"
    ensures Selected("rules/a.YAML", TargetExt("yaml"))
    ensures !Selected("rules/a.yml", TargetExt("yaml"))
    ensures !Selected("rules.yaml/a", TargetExt("yaml"))
  {
    TargetExtExamples();
    UpperCaseSelected();
    OtherExtensionRejected();
    DirectoryDotRejected();
  }

  // ---------------------------------------------------------------------------
  // Directory trees

  /** A directory tree; a directory lists its entries in the order a walk reads
      them (sorted by name). */
  datatype Node = File(name: string) | Dir(name: string, entries: seq<Node>)

  /** The path of entry `name` of directory `dir`. */
  function Join(dir: Path, name: string): (p: Path)
    ensures |p| > |dir|
  {
    dir + "/" + name
  }

  datatype WalkError = RootMissing(path: Path)

  /** One node as a full pre-order walk meets it: its path and whether it is a directory. */
  datatype Entry = Entry(path: Path, isDir: bool)

  /** Every node under `path`, root first, in pre-order: what a walk that never
      skipped would visit. */
  function Listing(path: Path, n: Node): seq<Entry>
    decreases n
  {
    [Entry(path, n.Dir?)] + if n.Dir? then ListingEntries(path, n.entries) else []
  }

  function ListingEntries(parent: Path, es: seq<Node>): seq<Entry>
    decreases es
  {
    if es == [] then []
    else Listing(Join(parent, es[0].name), es[0]) + ListingEntries(parent, es[1..])
  }

  /** The entries directly under `parent`, in order. */
  function Children(parent: Path, es: seq<Node>): seq<Entry> {
    if es == [] then []
    else [Entry(Join(parent, es[0].name), es[0].Dir?)] + Children(parent, es[1..])
  }

  /** The root and the entries directly under it. */
  function Shallow(path: Path, n: Node): seq<Entry> {
    [Entry(path, n.Dir?)] + if n.Dir? then Children(path, n.entries) else []
  }

  /** The paths of `es`, in order, that are files or the walk's own root `dir`,
      and whose extension is `ext`. */
  function Choose(dir: Path, ext: string, es: seq<Entry>): (r: seq<Path>)
    ensures forall p :: p in r <==>
      exists e :: e in es && e.path == p && (!e.isDir || p == dir) && Selected(p, ext)
  {
    if es == [] then []
    else
      var rest := Choose(dir, ext, es[1..]);
      assert forall e :: e in es <==> e == es[0] || e in es[1..];
      if (!es[0].isDir || es[0].path == dir) && Selected(es[0].path, ext)
      then [es[0].path] + rest else rest
  }

  lemma {:induction false} ChooseAppend(dir: Path, ext: string, a: seq<Entry>, b: seq<Entry>)
    ensures Choose(dir, ext, a + b) == Choose(dir, ext, a) + Choose(dir, ext, b)
  {
    if a == [] {
      assert a + b == b;
    } else {
      assert (a + b)[1..] == a[1..] + b;
      ChooseAppend(dir, ext, a[1..], b);
    }
  }

  // ---------------------------------------------------------------------------
  // WalkDir

  /** What `WalkDir`'s visitor decides about one visited path. */
  datatype Visit = Visit(emit: bool, enter: bool)

  /** `WalkDir`'s visitor: a directory other than the root is entered when
      descending and skipped otherwise, and never emitted; any other path is
      emitted when its extension is the target. */
  function WalkDirVisit(dir: Path, ext: string, descend: bool, path: Path, isDir: bool): Visit {
    if isDir && path != dir then Visit(false, descend)
    else Visit(Selected(path, ext), isDir)
  }

  /** The paths a walk rooted at `dir` emits from the subtree `n` at `path`, in order. */
  function Walk(dir: Path, ext: string, descend: bool, path: Path, n: Node): (r: seq<Path>)
    ensures forall p :: p in r ==> Selected(p, ext)
    decreases n
  {
    var v := WalkDirVisit(dir, ext, descend, path, n.Dir?);
    (if v.emit then [path] else []) +
    (if v.enter && n.Dir? then WalkEntries(dir, ext, descend, path, n.entries) else [])
  }

  function WalkEntries(dir: Path, ext: string, descend: bool, parent: Path, es: seq<Node>): (r: seq<Path>)
    ensures forall p :: p in r ==> Selected(p, ext)
    decreases es
  {
    if es == [] then []
    else Walk(dir, ext, descend, Join(parent, es[0].name), es[0]) +
         WalkEntries(dir, ext, descend, parent, es[1..])
  }

  /** The candidate paths under `dir` (the tree there is `root`, absent when the
      walk cannot start), or the walk's error. */
  function WalkDir(dir: Path, suffix: string, descend: bool, root: Option<Node>): (r: Result<seq<Path>, WalkError>)
    ensures r.Failure? <==> root.None?
    ensures r.Failure? ==> r.error == RootMissing(dir)
    ensures r.Success? ==> forall p :: p in r.value ==> Selected(p, TargetExt(suffix))
  {
    match root
    case None => Failure(RootMissing(dir))
    case Some(n) => Success(Walk(dir, TargetExt(suffix), descend, dir, n))
  }

  /** Descending, the walk emits the files of the whole tree, and the root itself,
      whose extension is the target, in pre-order. */
  lemma {:induction false} WalkDescending(dir: Path, ext: string, path: Path, n: Node)
    ensures Walk(dir, ext, true, path, n) == Choose(dir, ext, Listing(path, n))
    decreases n
  {
    if n.Dir? {
      WalkEntriesDescending(dir, ext, path, n.entries);
      ChooseAppend(dir, ext, [Entry(path, true)], ListingEntries(path, n.entries));
    }
  }

  lemma {:induction false} WalkEntriesDescending(dir: Path, ext: string, parent: Path, es: seq<Node>)
    ensures WalkEntries(dir, ext, true, parent, es) == Choose(dir, ext, ListingEntries(parent, es))
    decreases es
  {
    if es != [] {
      var p := Join(parent, es[0].name);
      WalkDescending(dir, ext, p, es[0]);
      WalkEntriesDescending(dir, ext, parent, es[1..]);
      ChooseAppend(dir, ext, Listing(p, es[0]), ListingEntries(parent, es[1..]));
    }
  }

  /** Not descending, every directory below the root is skipped: the walk emits
      only the root and the files directly under it whose extension is the target. */
  lemma {:induction false} WalkShallow(dir: Path, ext: string, n: Node)
    ensures Walk(dir, ext, false, dir, n) == Choose(dir, ext, Shallow(dir, n))
  {
    if n.Dir? {
      WalkEntriesShallow(dir, ext, dir, n.entries);
      ChooseAppend(dir, ext, [Entry(dir, true)], Children(dir, n.entries));
    }
  }

  lemma {:induction false} WalkEntriesShallow(dir: Path, ext: string, parent: Path, es: seq<Node>)
    requires |dir| <= |parent|
    ensures WalkEntries(dir, ext, false, parent, es) == Choose(dir, ext, Children(parent, es))
    decreases es
  {
    if es != [] {
      var p := Join(parent, es[0].name);
      assert p != dir;
      WalkEntriesShallow(dir, ext, parent, es[1..]);
      ChooseAppend(dir, ext, [Entry(p, es[0].Dir?)], Children(parent, es[1..]));
    }
  }

  /** What a walk emits: paths whose extension is the target, each the root or a
      file of the tree; descending, every such file is emitted. */
  lemma WalkDirChoosesFiles(dir: Path, suffix: string, descend: bool, n: Node)
    ensures var paths := WalkDir(dir, suffix, descend, Some(n)).value;
      forall p :: p in paths ==>
        Selected(p, TargetExt(suffix)) && (p == dir || Entry(p, false) in Listing(dir, n))
    ensures var paths := WalkDir(dir, suffix, descend, Some(n)).value;
      descend ==> forall e :: e in Listing(dir, n) && !e.isDir && Selected(e.path, TargetExt(suffix)) ==>
        e.path in paths
  {
    var ext := TargetExt(suffix);
    if descend {
      WalkDescending(dir, ext, dir, n);
    } else {
      WalkShallow(dir, ext, n);
      if n.Dir? {
        ChildrenListed(dir, n.entries);
      }
    }
  }

  /** Every entry directly under a directory is in its full listing. */
  lemma {:induction false} ChildrenListed(parent: Path, es: seq<Node>)
    ensures forall e :: e in Children(parent, es) ==> e in ListingEntries(parent, es)
    decreases es
  {
    if es != [] {
      ChildrenListed(parent, es[1..]);
    }
  }

  // ---------------------------------------------------------------------------
  // parallelWalkDir, as written

  /** What one `parallelWalkDir` call's visitor decides about one visited path:
      whether to emit it, enter it, or hand it to a new call. */
  datatype ParallelVisit = ParallelVisit(emit: bool, enter: bool, spawn: bool)

  /** `parallelWalkDir`'s visitor for the call rooted at `dir`: a directory other
      than `dir` is handed to a new call when descending and always skipped here;
      any other path is emitted when its extension is the target. */
  function ParallelWalkVisit(dir: Path, ext: string, descend: bool, path: Path, isDir: bool): ParallelVisit {
    if isDir && path != dir then ParallelVisit(false, false, descend)
    else ParallelVisit(Selected(path, ext), isDir, false)
  }

  /** The paths emitted by the call rooted at `dir` and by every call it spawns. */
  function ParallelWalk(ext: string, descend: bool, dir: Path, n: Node): (r: set<Path>)
    ensures forall p :: p in r ==> Selected(p, ext)
    decreases n
  {
    var v := ParallelWalkVisit(dir, ext, descend, dir, n.Dir?);
    (if v.emit then {dir} else {}) +
    (if v.enter && n.Dir? then ParallelWalkEntries(ext, descend, dir, n.entries) else {})
  }

  function ParallelWalkEntries(ext: string, descend: bool, dir: Path, es: seq<Node>): (r: set<Path>)
    ensures forall p :: p in r ==> Selected(p, ext)
    decreases es
  {
    if es == [] then {}
    else
      var p := Join(dir, es[0].name);
      var v := ParallelWalkVisit(dir, ext, descend, p, es[0].Dir?);
      (if v.emit then {p} else {}) +
      (if v.spawn then ParallelWalk(ext, descend, p, es[0]) else {}) +
      ParallelWalkEntries(ext, descend, dir, es[1..])
  }

  /** Not descending, a call spawns nothing. */
  lemma NoSpawnWithoutDescend(dir: Path, ext: string, path: Path, isDir: bool)
    ensures !ParallelWalkVisit(dir, ext, false, path, isDir).spawn
  {
  }

  /** A subdirectory whose own name ends in the extension is emitted by the
      parallel walk (the call spawned for it treats it as a root) but never by
      `WalkDir`: for instance "rules/old.yaml", an empty directory under "rules". */
  lemma ParallelWalkEmitsSubdirectory(dir: Path, suffix: string, name: string)
    requires !Selected(dir, TargetExt(suffix)) && Selected(Join(dir, name), TargetExt(suffix))
    ensures WalkDir(dir, suffix, true, Some(Dir(dir, [Dir(name, [])]))) == Success([])
    ensures ParallelWalk(TargetExt(suffix), true, dir, Dir(dir, [Dir(name, [])])) == {Join(dir, name)}
  {
    var ext := TargetExt(suffix);
    var sub := Dir(name, []);
    var p := Join(dir, name);
    assert Walk(dir, ext, true, p, sub) == [] by {
      assert WalkEntries(dir, ext, true, p, []) == [];
    }
    assert WalkEntries(dir, ext, true, dir, [sub]) == [] by {
      assert [sub][1..] == [];
    }
    assert ParallelWalk(ext, true, p, sub) == {p} by {
      assert ParallelWalkEntries(ext, true, p, []) == {};
    }
    assert ParallelWalkEntries(ext, true, dir, [sub]) == {p} by {
      assert [sub][1..] == [];
    }
  }

  /** The names of the example above meet its requirements. */
  lemma SubdirectoryExample()
    ensures !Selected("rules", TargetExt("yaml"))
    ensures Selected(Join("rules", "old.yaml"), TargetExt("yaml"))
  {
    TargetExtExamples();
    RootWithoutExtension();
    SubdirectoryWithExtension();
  }

  lemma RootWithoutExtension()
    ensures Ext("rules") == ""
  {
    var path := "rules";
    assert forall k :: 0 <= k < |path| ==> path[k] != '.';
    ExtWithoutDot(path);
  }

  lemma SubdirectoryWithExtension()
    ensures Selected(Join("rules", "old.yaml"), ".yaml")
  {
    ExtOfEnding("rules/old", ".yaml");
    assert "rules/old" + ".yaml" == Join("rules", "old.yaml");
    assert Lower(".yaml") == ".yaml";
  }

  // ---------------------------------------------------------------------------
  // parallelWalkDir, corrected

  /** The corrected visitor: a call spawned for a subdirectory (`nested`) enters
      its root without testing it as a candidate, as `WalkDir` does. */
  function ParallelWalkVisitFixed(dir: Path, ext: string, descend: bool, nested: bool, path: Path, isDir: bool): ParallelVisit {
    if isDir && path != dir then ParallelVisit(false, false, descend)
    else if isDir && nested then ParallelVisit(false, true, false)
    else ParallelVisit(Selected(path, ext), isDir, false)
  }

  function ParallelWalkFixed(ext: string, descend: bool, nested: bool, dir: Path, n: Node): set<Path>
    decreases n
  {
    var v := ParallelWalkVisitFixed(dir, ext, descend, nested, dir, n.Dir?);
    (if v.emit then {dir} else {}) +
    (if v.enter && n.Dir? then ParallelWalkEntriesFixed(ext, descend, dir, n.entries) else {})
  }

  function ParallelWalkEntriesFixed(ext: string, descend: bool, dir: Path, es: seq<Node>): set<Path>
    decreases es
  {
    if es == [] then {}
    else
      var p := Join(dir, es[0].name);
      var v := ParallelWalkVisitFixed(dir, ext, descend, true, p, es[0].Dir?);
      (if v.emit then {p} else {}) +
      (if v.spawn then ParallelWalkFixed(ext, descend, true, p, es[0]) else {}) +
      ParallelWalkEntriesFixed(ext, descend, dir, es[1..])
  }

  /** The corrected parallel walk emits exactly the paths `WalkDir` emits. */
  lemma ParallelWalkFixedMatchesWalkDir(dir: Path, suffix: string, descend: bool, n: Node)
    ensures ParallelWalkFixed(TargetExt(suffix), descend, false, dir, n) ==
            set p | p in WalkDir(dir, suffix, descend, Some(n)).value
  {
    var ext := TargetExt(suffix);
    if n.Dir? {
      EntriesMatch(dir, ext, descend, dir, n.entries);
    }
  }

  /** A subtree below the root: the sequential walk emits what the call spawned
      for it emits (nothing for a directory when not descending). */
  lemma {:induction false} NestedMatch(dir: Path, ext: string, descend: bool, path: Path, n: Node)
    requires |dir| < |path|
    ensures (set p | p in Walk(dir, ext, descend, path, n)) ==
      if n.Dir? then (if descend then ParallelWalkFixed(ext, descend, true, path, n) else {})
      else (if Selected(path, ext) then {path} else {})
    decreases n, 1
  {
    if n.Dir? && descend {
      EntriesMatch(dir, ext, descend, path, n.entries);
    }
  }

  lemma {:induction false} EntriesMatch(dir: Path, ext: string, descend: bool, parent: Path, es: seq<Node>)
    requires |dir| <= |parent|
    ensures (set p | p in WalkEntries(dir, ext, descend, parent, es)) ==
            ParallelWalkEntriesFixed(ext, descend, parent, es)
    decreases es, 0
  {
    if es != [] {
      var p := Join(parent, es[0].name);
      NestedMatch(dir, ext, descend, p, es[0]);
      EntriesMatch(dir, ext, descend, parent, es[1..]);
      assert WalkEntries(dir, ext, descend, parent, es) ==
        Walk(dir, ext, descend, p, es[0]) + WalkEntries(dir, ext, descend, parent, es[1..]);
    }
  }

  /** As written, the parallel walk misses nothing the corrected one emits. */
  lemma {:induction false} ParallelWalkCoversFixed(ext: string, descend: bool, nested: bool, dir: Path, n: Node)
    ensures ParallelWalkFixed(ext, descend, nested, dir, n) <= ParallelWalk(ext, descend, dir, n)
    decreases n, 1
  {
    if n.Dir? {
      ParallelEntriesCoverFixed(ext, descend, dir, n.entries);
    }
  }

  lemma {:induction false} ParallelEntriesCoverFixed(ext: string, descend: bool, dir: Path, es: seq<Node>)
    ensures ParallelWalkEntriesFixed(ext, descend, dir, es) <= ParallelWalkEntries(ext, descend, dir, es)
    decreases es, 0
  {
    if es != [] {
      var p := Join(dir, es[0].name);
      ParallelWalkCoversFixed(ext, descend, true, p, es[0]);
      ParallelEntriesCoverFixed(ext, descend, dir, es[1..]);
    }
  }

  /** As written, the parallel walk emits every path `WalkDir` emits, and
      without descending it emits exactly those. */
  lemma ParallelWalkAsWritten(dir: Path, suffix: string, descend: bool, n: Node)
    ensures (set p | p in WalkDir(dir, suffix, descend, Some(n)).value) <=
            ParallelWalk(TargetExt(suffix), descend, dir, n)
    ensures !descend ==>
      ((set p | p in WalkDir(dir, suffix, descend, Some(n)).value) ==
       ParallelWalk(TargetExt(suffix), descend, dir, n))
  {
    ParallelWalkFixedMatchesWalkDir(dir, suffix, descend, n);
    ParallelWalkCoversFixed(TargetExt(suffix), descend, false, dir, n);
    if !descend && n.Dir? {
      ShallowEntriesSame(TargetExt(suffix), dir, n.entries);
    }
  }

  /** As written, the parallel walk adds to the corrected one only directories
      of the tree whose extension is the target. */
  lemma {:induction false} ParallelWalkExtras(ext: string, descend: bool, nested: bool, dir: Path, n: Node)
    ensures forall p :: p in ParallelWalk(ext, descend, dir, n) ==>
      p in ParallelWalkFixed(ext, descend, nested, dir, n) ||
      (Selected(p, ext) && Entry(p, true) in Listing(dir, n))
    decreases n, 1
  {
    if n.Dir? {
      ParallelEntriesExtras(ext, descend, dir, n.entries);
    }
  }

  lemma {:induction false} ParallelEntriesExtras(ext: string, descend: bool, dir: Path, es: seq<Node>)
    ensures forall p :: p in ParallelWalkEntries(ext, descend, dir, es) ==>
      p in ParallelWalkEntriesFixed(ext, descend, dir, es) ||
      (Selected(p, ext) && Entry(p, true) in ListingEntries(dir, es))
    decreases es, 0
  {
    if es != [] {
      var p := Join(dir, es[0].name);
      ParallelWalkExtras(ext, descend, true, p, es[0]);
      ParallelEntriesExtras(ext, descend, dir, es[1..]);
    }
  }

  /** Between the two bounds: the parallel walk as written emits every path
      `WalkDir` emits, and besides those only subdirectories whose extension is
      the target. */
  lemma ParallelWalkBounds(dir: Path, suffix: string, descend: bool, n: Node)
    ensures var walked := set p | p in WalkDir(dir, suffix, descend, Some(n)).value;
      walked <= ParallelWalk(TargetExt(suffix), descend, dir, n) &&
      forall p :: p in ParallelWalk(TargetExt(suffix), descend, dir, n) && p !in walked ==>
        Selected(p, TargetExt(suffix)) && p != dir && Entry(p, true) in Listing(dir, n)
  {
    ParallelWalkAsWritten(dir, suffix, descend, n);
    ParallelWalkFixedMatchesWalkDir(dir, suffix, descend, n);
    ParallelWalkExtras(TargetExt(suffix), descend, false, dir, n);
  }

  lemma {:induction false} ShallowEntriesSame(ext: string, dir: Path, es: seq<Node>)
    ensures ParallelWalkEntries(ext, false, dir, es) == ParallelWalkEntriesFixed(ext, false, dir, es)
    decreases es
  {
    if es != [] {
      ShallowEntriesSame(ext, dir, es[1..]);
    }
  }
}
