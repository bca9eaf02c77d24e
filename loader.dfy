/** The file rules loader: its settings and the options that change them, and
    `Load`, which walks the rules folder and appends one rule for every candidate
    file that can be read, parsed, and decoded into the variant its `type` names. */
module Loader {
  import opened Wrappers
  import opened Rules
  import opened Util

  // ---------------------------------------------------------------------------
  // Settings and options

  datatype LoaderSettings = LoaderSettings(path: Path, suffix: string, descend: bool)

  /** A loader option: the closures `SetSuffix(s)` and `SetDescend(d)` return. */
  datatype LoaderOption = SetSuffix(suffix: string) | SetDescend(descend: bool)

  /** A fresh loader's settings before any option: suffix "yaml", descending. */
  function Defaults(path: Path): LoaderSettings {
    LoaderSettings(path, "yaml", true)
  }

  /** One option changes its own field and no other. */
  function ApplyOption(s: LoaderSettings, o: LoaderOption): (s': LoaderSettings)
    ensures s'.path == s.path
    ensures o.SetSuffix? ==> s'.suffix == o.suffix && s'.descend == s.descend
    ensures o.SetDescend? ==> s'.descend == o.descend && s'.suffix == s.suffix
  {
    match o
    case SetSuffix(x) => s.(suffix := x)
    case SetDescend(d) => s.(descend := d)
  }

  /** The options applied left to right: the path stays, and each other field
      keeps its default or takes the value one of the options sets. */
  function Configure(s: LoaderSettings, opts: seq<LoaderOption>): (c: LoaderSettings)
    ensures c.path == s.path
    ensures c.suffix == s.suffix || exists i :: 0 <= i < |opts| && opts[i] == SetSuffix(c.suffix)
    ensures c.descend == s.descend || exists i :: 0 <= i < |opts| && opts[i] == SetDescend(c.descend)
    decreases |opts|
  {
    if opts == [] then s else Configure(ApplyOption(s, opts[0]), opts[1..])
  }

  /** The suffix the last `SetSuffix` among `opts` sets, if any. */
  function LastSuffix(opts: seq<LoaderOption>): Option<string> {
    if opts == [] then None
    else if opts[|opts| - 1].SetSuffix? then Some(opts[|opts| - 1].suffix)
    else LastSuffix(opts[..|opts| - 1])
  }

  /** The flag the last `SetDescend` among `opts` sets, if any. */
  function LastDescend(opts: seq<LoaderOption>): Option<bool> {
    if opts == [] then None
    else if opts[|opts| - 1].SetDescend? then Some(opts[|opts| - 1].descend)
    else LastDescend(opts[..|opts| - 1])
  }

  lemma {:induction false} LastSuffixCons(o: LoaderOption, opts: seq<LoaderOption>)
    ensures LastSuffix([o] + opts) ==
      if LastSuffix(opts).Some? then LastSuffix(opts)
      else if o.SetSuffix? then Some(o.suffix) else None
    decreases |opts|
  {
    if opts != [] {
      assert ([o] + opts)[..|opts|] == [o] + opts[..|opts| - 1];
      LastSuffixCons(o, opts[..|opts| - 1]);
    }
  }

  lemma {:induction false} LastDescendCons(o: LoaderOption, opts: seq<LoaderOption>)
    ensures LastDescend([o] + opts) ==
      if LastDescend(opts).Some? then LastDescend(opts)
      else if o.SetDescend? then Some(o.descend) else None
    decreases |opts|
  {
    if opts != [] {
      assert ([o] + opts)[..|opts|] == [o] + opts[..|opts| - 1];
      LastDescendCons(o, opts[..|opts| - 1]);
    }
  }

  /** The last option of each kind wins; the path is never changed. */
  lemma {:induction false} ConfigureLastWins(s: LoaderSettings, opts: seq<LoaderOption>)
    ensures Configure(s, opts) ==
      LoaderSettings(s.path, LastSuffix(opts).GetOr(s.suffix), LastDescend(opts).GetOr(s.descend))
    decreases |opts|
  {
    if opts != [] {
      ConfigureLastWins(ApplyOption(s, opts[0]), opts[1..]);
      assert opts == [opts[0]] + opts[1..];
      LastSuffixCons(opts[0], opts[1..]);
      LastDescendCons(opts[0], opts[1..]);
    }
  }

  // ---------------------------------------------------------------------------
  // Reading one candidate file

  /** What parsing a readable file gives. */
  datatype FileContent = Unparseable | Parsed(doc: Document)

  /** The files a load can read: a path that is not a key cannot be read. */
  type FileStore = map<Path, FileContent>

  /** The kind the file's `type` names, when it is one of the known strings. */
  function Discriminator(doc: Document): Option<RuleKind> {
    if "type" in doc && doc["type"].VStr? then KindOf(doc["type"].s) else None
  }

  /** A file names a kind exactly when its `type` is one of the known strings,
      and the kind is the one that string names. */
  lemma DiscriminatorByType(doc: Document)
    ensures Discriminator(doc).Some? <==> "type" in doc && doc["type"].VStr? && doc["type"].s in KnownTypes
    ensures Discriminator(doc).Some? ==> TypeName(Discriminator(doc).value) == doc["type"].s
  {
  }

  /** The rule one candidate file yields, or None when it is skipped. */
  function LoadOne(store: FileStore, file: Path): (r: Option<Rule>)
    ensures r.Some? ==> file in store && store[file].Parsed?
    ensures r.Some? ==> "type" in store[file].doc && store[file].doc["type"] == VStr(r.value.GetType())
    ensures r.Some? ==> r.value.GetType() in KnownTypes && TagAgrees(r.value)
    ensures r.Some? ==> r.value.base.initialStartTime == ZeroTime
    ensures file in store && store[file].Parsed? && Discriminator(store[file].doc).None? ==> r.None?
  {
    if file !in store then None
    else match store[file]
      case Unparseable => None
      case Parsed(doc) =>
        match Discriminator(doc)
        case None => None
        case Some(k) => DecodeRule(k, doc)
  }

  /** The rules a list of candidate files yields, in file order: at most one per file. */
  function LoadAll(store: FileStore, files: seq<Path>): (rules: seq<Rule>)
    ensures |rules| <= |files|
  {
    if files == [] then []
    else
      var init := LoadAll(store, files[..|files| - 1]);
      match LoadOne(store, files[|files| - 1])
      case None => init
      case Some(r) => init + [r]
  }

  /** Loading one more file appends what that file yields. */
  lemma LoadAllStep(store: FileStore, files: seq<Path>, i: nat)
    requires i < |files|
    ensures LoadOne(store, files[i]).None? ==> LoadAll(store, files[..i + 1]) == LoadAll(store, files[..i])
    ensures LoadOne(store, files[i]).Some? ==>
      LoadAll(store, files[..i + 1]) == LoadAll(store, files[..i]) + [LoadOne(store, files[i]).value]
  {
    assert files[..i + 1][..i] == files[..i];
  }

  /** How many candidate files are skipped. */
  function Skipped(store: FileStore, files: seq<Path>): nat {
    if files == [] then 0
    else Skipped(store, files[..|files| - 1]) + if LoadOne(store, files[|files| - 1]).None? then 1 else 0
  }

  /** The positions, in increasing order, of the files that yield a rule. */
  function Survivors(store: FileStore, files: seq<Path>): seq<nat> {
    if files == [] then []
    else
      var init := Survivors(store, files[..|files| - 1]);
      if LoadOne(store, files[|files| - 1]).Some? then init + [|files| - 1] else init
  }

  /** Skipping a file never stops the files after it: loading a concatenation
      loads each part independently. */
  lemma {:induction false} LoadAllAppend(store: FileStore, a: seq<Path>, b: seq<Path>)
    ensures LoadAll(store, a + b) == LoadAll(store, a) + LoadAll(store, b)
    decreases |b|
  {
    if b == [] {
      assert a + b == a;
    } else {
      var b' := b[..|b| - 1];
      assert (a + b)[..|a + b| - 1] == a + b';
      LoadAllAppend(store, a, b');
    }
  }

  /** A file that yields nothing contributes nothing, wherever it stands. */
  lemma SkipOnlyThatFile(store: FileStore, a: seq<Path>, file: Path, b: seq<Path>)
    requires LoadOne(store, file).None?
    ensures LoadAll(store, a + [file] + b) == LoadAll(store, a) + LoadAll(store, b)
  {
    LoadAllAppend(store, a + [file], b);
    LoadAllAppend(store, a, [file]);
    assert [file][..0] == [];
  }

  /** Loading compacts the files in order: one rule per surviving file, in the
      files' order, and nothing for the others; the count is the files less the
      skipped ones. */
  lemma {:induction false} LoadAllCompacts(store: FileStore, files: seq<Path>)
    ensures |LoadAll(store, files)| == |Survivors(store, files)| == |files| - Skipped(store, files)
    ensures forall j :: 0 <= j < |Survivors(store, files)| ==>
      Survivors(store, files)[j] < |files| &&
      LoadOne(store, files[Survivors(store, files)[j]]) == Some(LoadAll(store, files)[j])
    ensures forall j, j' :: 0 <= j < j' < |Survivors(store, files)| ==>
      Survivors(store, files)[j] < Survivors(store, files)[j']
    ensures forall i :: 0 <= i < |files| && i !in Survivors(store, files) ==> LoadOne(store, files[i]).None?
    decreases |files|
  {
    SurvivorsOrdered(store, files);
    OthersYieldNothing(store, files);
    if files != [] {
      var n := |files| - 1;
      var init := files[..n];
      LoadAllCompacts(store, init);
      forall i | 0 <= i < |init| ensures files[i] == init[i] { }
      var one := LoadOne(store, files[n]);
      if one.Some? {
        assert Survivors(store, files) == Survivors(store, init) + [n];
        assert LoadAll(store, files) == LoadAll(store, init) + [one.value];
      } else {
        assert Survivors(store, files) == Survivors(store, init);
        assert LoadAll(store, files) == LoadAll(store, init);
      }
    }
  }

  /** The files at positions that do not survive yield nothing. */
  lemma {:induction false} OthersYieldNothing(store: FileStore, files: seq<Path>)
    ensures forall i :: 0 <= i < |files| && i !in Survivors(store, files) ==> LoadOne(store, files[i]).None?
    decreases |files|
  {
    if files != [] {
      var init := files[..|files| - 1];
      OthersYieldNothing(store, init);
      forall i | 0 <= i < |init| ensures files[i] == init[i] { }
    }
  }

  /** The surviving positions are positions of `files`, in increasing order. */
  lemma {:induction false} SurvivorsOrdered(store: FileStore, files: seq<Path>)
    ensures forall j :: 0 <= j < |Survivors(store, files)| ==> Survivors(store, files)[j] < |files|
    ensures forall j, j' :: 0 <= j < j' < |Survivors(store, files)| ==>
      Survivors(store, files)[j] < Survivors(store, files)[j']
    decreases |files|
  {
    if files != [] {
      SurvivorsOrdered(store, files[..|files| - 1]);
    }
  }

  /** Every loaded rule names its own variant with one of the known strings and
      carries the zero start time. */
  lemma {:induction false} LoadAllAgrees(store: FileStore, files: seq<Path>)
    ensures forall r :: r in LoadAll(store, files) ==>
      r.GetType() in KnownTypes && TagAgrees(r) && r.base.initialStartTime == ZeroTime
    decreases |files|
  {
    if files != [] {
      LoadAllAgrees(store, files[..|files| - 1]);
    }
  }

  /** Unreadable, unparseable, untyped, unknown-typed and undecodable files add
      nothing: a file yields a rule exactly when each step succeeds. */
  lemma LoadOneSucceeds(store: FileStore, file: Path)
    ensures LoadOne(store, file).Some? <==>
      && file in store && store[file].Parsed?
      && "type" in store[file].doc && store[file].doc["type"].VStr?
      && store[file].doc["type"].s in KnownTypes
      && DecodeRule(KindOf(store[file].doc["type"].s).value, store[file].doc).Some?
  {
  }

  // ---------------------------------------------------------------------------
  // The loader

  /** One pass of `Load`'s loop body: read, parse, look up the discriminator and
      decode, skipping the file at the first step that fails. */
  method LoadFile(store: FileStore, file: Path) returns (rule: Option<Rule>)
    ensures rule == LoadOne(store, file)
  {
    if file !in store {
      return None;
    }
    if store[file].Unparseable? {
      return None;
    }
    var doc := store[file].doc;
    match Discriminator(doc) {
      case None =>
        return None;
      case Some(k) =>
        rule := DecodeRule(k, doc);
    }
  }

  class FileRulesLoader {
    var path: Path
    var suffix: string
    var descend: bool
    var rules: seq<Rule>

    function Settings(): LoaderSettings
      reads this
    {
      LoaderSettings(path, suffix, descend)
    }

    /** `NewFileRulesLoader(path, options...)`: the defaults, then each option in turn. */
    constructor (path: Path, options: seq<LoaderOption>)
      ensures Settings() == Configure(Defaults(path), options)
      ensures rules == []
    {
      this.path := path;
      this.suffix := "yaml";
      this.descend := true;
      this.rules := [];
      new;
      for i := 0 to |options|
        invariant Configure(Settings(), options[i..]) == Configure(Defaults(path), options)
        invariant rules == []
      {
        assert options[i..] == [options[i]] + options[i + 1..];
        Apply(options[i]);
      }
    }

    /** Calls one option closure on this loader. */
    method Apply(o: LoaderOption)
      modifies this
      ensures Settings() == ApplyOption(old(Settings()), o)
      ensures rules == old(rules)
    {
      match o
      case SetSuffix(x) => suffix := x;
      case SetDescend(d) => descend := d;
    }

    /** Walks the rules folder (whose tree is `root`, absent when it cannot be
        walked) and appends the rule of every candidate file, in order. */
    method Load(root: Option<Node>, store: FileStore) returns (err: Option<WalkError>)
      modifies this`rules
      ensures WalkDir(path, suffix, descend, root).Failure? ==>
        err == Some(WalkDir(path, suffix, descend, root).error) && rules == old(rules)
      ensures WalkDir(path, suffix, descend, root).Success? ==>
        err == None && rules == old(rules) + LoadAll(store, WalkDir(path, suffix, descend, root).value)
    {
      var walk := WalkDir(path, suffix, descend, root);
      if walk.Failure? {
        return Some(walk.error);
      }
      LoadFiles(walk.value, store);
      err := None;
    }

    /** The loop of `Load`: appends the rule of each file in turn. */
    method LoadFiles(files: seq<Path>, store: FileStore)
      modifies this`rules
      ensures rules == old(rules) + LoadAll(store, files)
    {
      for i := 0 to |files|
        invariant rules == old(rules) + LoadAll(store, files[..i])
      {
        LoadAllStep(store, files, i);
        var rule := LoadFile(store, files[i]);
        if rule.Some? {
          rules := rules + [rule.value];
        }
      }
      assert files[..|files|] == files;
    }

    method GetRules() returns (rs: seq<Rule>)
      ensures rs == rules
    {
      rs := rules;
    }
  }

  /** A file holding only `type` and `name` among the base's keys decodes to a
      base with those two and every other field at its zero value. */
  lemma TypedNamedBase(doc: Document, t: string, n: string)
    requires "type" in doc && doc["type"] == VStr(t) && "name" in doc && doc["name"] == VStr(n)
    requires "index" !in doc && "description" !in doc && "num_events" !in doc && "timeframe" !in doc
    requires "filter" !in doc && "alert" !in doc && "email" !in doc
    ensures DecodeBase(doc) == Some(RuleBase(n, t, "", "", 0, "", VNull, [], [], ZeroTime))
  {
  }

  lemma FrequencyFileLoads(store: FileStore, f: Path, n: string)
    requires f in store && store[f] == Parsed(map["type" := VStr("frequency"), "name" := VStr(n)])
    ensures LoadOne(store, f) == Some(FrequencyRule(RuleBase(n, "frequency", "", "", 0, "", VNull, [], [], ZeroTime)))
  {
    TypedNamedBase(store[f].doc, "frequency", n);
    RegistryRoundTrip(Frequency, "frequency");
  }

  lemma SpikeFileLoads(store: FileStore, f: Path, n: string, cur: int)
    requires f in store
    requires store[f] == Parsed(map["type" := VStr("spike"), "name" := VStr(n), "threshold_cur" := VInt(cur)])
    ensures LoadOne(store, f) == Some(SpikeRule(RuleBase(n, "spike", "", "", 0, "", VNull, [], [], ZeroTime), cur, 0, 0, ""))
  {
    TypedNamedBase(store[f].doc, "spike", n);
    RegistryRoundTrip(Spike, "spike");
  }

  lemma UnknownTypeSkipped(store: FileStore, f: Path, t: string)
    requires f in store && store[f].Parsed? && "type" in store[f].doc
    requires store[f].doc["type"] == VStr(t) && t !in KnownTypes
    ensures LoadOne(store, f).None?
  {
    assert Discriminator(store[f].doc).None?;
  }

  lemma {:induction false} LoadThree(store: FileStore, fa: Path, fb: Path, fc: Path, ra: Rule, rc: Rule)
    requires LoadOne(store, fa) == Some(ra) && LoadOne(store, fb).None? && LoadOne(store, fc) == Some(rc)
    ensures LoadAll(store, [fa, fb, fc]) == [ra, rc]
  {
    assert [fa][..0] == [] && [fc][..0] == [];
    assert LoadAll(store, [fa]) == [ra];
    assert LoadAll(store, [fc]) == [rc];
    assert [fa] + [fb] + [] == [fa, fb];
    SkipOnlyThatFile(store, [fa], fb, []);
    LoadAllAppend(store, [fa, fb], [fc]);
    assert [fa, fb] + [fc] == [fa, fb, fc];
  }

  /** The example of three files, of which the middle names an unknown type:
      the other two are loaded, in order, and the unknown one is dropped. */
  lemma ThreeFileExample(store: FileStore, fa: Path, fb: Path, fc: Path)
    requires fa != fb && fb != fc && fa != fc
    requires store == map[
      fa := Parsed(map["type" := VStr("frequency"), "name" := VStr("r1")]),
      fb := Parsed(map["type" := VStr("bogus"), "name" := VStr("r2")]),
      fc := Parsed(map["type" := VStr("spike"), "name" := VStr("r3"), "threshold_cur" := VInt(10)])]
    ensures var rules := LoadAll(store, [fa, fb, fc]);
      |rules| == 2 && rules[0].GetName() == "r1" && rules[1].GetName() == "r3" &&
      rules[0].FrequencyRule? && rules[1].SpikeRule? && rules[1].thresholdCur == 10
  {
    var ra := FrequencyRule(RuleBase("r1", "frequency", "", "", 0, "", VNull, [], [], ZeroTime));
    var rc := SpikeRule(RuleBase("r3", "spike", "", "", 0, "", VNull, [], [], ZeroTime), 10, 0, 0, "");
    FrequencyFileLoads(store, fa, "r1");
    UnknownTypeSkipped(store, fb, "bogus");
    SpikeFileLoads(store, fc, "r3", 10);
    LoadThree(store, fa, fb, fc, ra, rc);
  }
}
