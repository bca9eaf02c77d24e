/** The alerter: its search-client options, the choice of rules loader, and
    `Run`, which on every tick offers each loaded rule, in order, to the handler
    its `type` names, and stops for good when cancelled. */
module Alerter {
  import opened Wrappers
  import opened Rules
  import opened Util
  import opened Loader

  /** The configuration values this part of the program reads. */
  datatype Config = Config(
    esUrl: string,
    esUsername: string,
    esPassword: string,
    esSendGetBodyAs: string,
    rulesLoader: string,
    rulesFolder: Path,
    scanSubdirectories: bool,
    runEvery: DurationStr)

  /** The only loader name accepted, also the configuration's default. */
  const FileRulesLoaderName := "FileRulesLoader"

  // ---------------------------------------------------------------------------
  // Search-client options

  /** An option passed to the search-client constructor. */
  datatype ClientOption =
    | SetURL(url: string)
    | SetSniff(enabled: bool)
    | SetHttpClient
    | SetSendGetBodyAs(httpMethod: string)
    | SetBasicAuth(username: string, password: string)

  predicate HasBasicAuth(opts: seq<ClientOption>) {
    exists i :: 0 <= i < |opts| && opts[i].SetBasicAuth?
  }

  /** The options the client is built with: always the URL, no sniffing, the
      HTTP client and the GET-body method; basic auth exactly when a username or
      a password is configured, and then with both. */
  function ClientOptions(cfg: Config): (opts: seq<ClientOption>)
    ensures |opts| == if cfg.esUsername != "" || cfg.esPassword != "" then 5 else 4
    ensures opts[..4] == [SetURL(cfg.esUrl), SetSniff(false), SetHttpClient, SetSendGetBodyAs(cfg.esSendGetBodyAs)]
    ensures HasBasicAuth(opts) <==> cfg.esUsername != "" || cfg.esPassword != ""
    ensures forall i :: 0 <= i < |opts| && opts[i].SetBasicAuth? ==>
      opts[i] == SetBasicAuth(cfg.esUsername, cfg.esPassword)
  {
    var opts := [SetURL(cfg.esUrl), SetSniff(false), SetHttpClient, SetSendGetBodyAs(cfg.esSendGetBodyAs)];
    assert !HasBasicAuth(opts);
    if cfg.esUsername != "" || cfg.esPassword != "" then
      var withAuth := opts + [SetBasicAuth(cfg.esUsername, cfg.esPassword)];
      assert withAuth[4].SetBasicAuth?;
      withAuth
    else opts
  }

  // ---------------------------------------------------------------------------
  // Dispatch

  /** A scheduler event, as the loop's `select` receives it. */
  datatype Event = Tick | Cancel

  /** One call of a `run*` handler: which handler, the rule, and the start time
      handed along with it. */
  datatype Invocation = Invocation(handler: RuleKind, rule: Rule, startTime: Time)

  /** The handler a rule is routed to: the one its `type` names, provided the
      rule is of that variant; otherwise none. */
  function Route(r: Rule): Option<RuleKind> {
    if TagAgrees(r) then Some(r.Kind()) else None
  }

  /** A rule reaches a handler exactly when its `type` string is the name of its
      own variant, and then the handler is the one that string names. */
  lemma RouteByType(r: Rule)
    ensures Route(r).Some? <==> r.GetType() == TypeName(r.Kind())
    ensures Route(r).Some? ==> Route(r).value == r.Kind() && TypeName(Route(r).value) == r.GetType()
  {
    RegistryRoundTrip(r.Kind(), r.GetType());
  }

  /** The handler calls of one tick over `rules`, in order. */
  function TickInvocations(rules: seq<Rule>, t: Time): (ts: seq<Invocation>)
    ensures |ts| <= |rules|
  {
    if rules == [] then []
    else
      var last := rules[|rules| - 1];
      TickInvocations(rules[..|rules| - 1], t) +
      match Route(last)
      case None => []
      case Some(h) => [Invocation(h, last, t)]
  }

  /** `s` repeated `n` times. */
  function Repeat<T>(s: seq<T>, n: nat): seq<T> {
    if n == 0 then [] else Repeat(s, n - 1) + s
  }

  /** The ticks the loop receives before the first cancellation. */
  function TicksBeforeCancel(events: seq<Event>): nat {
    if events == [] || events[0] == Cancel then 0 else 1 + TicksBeforeCancel(events[1..])
  }

  /** A rule that is skipped does not disturb the rules around it: a tick over a
      concatenation is the two ticks one after the other. */
  lemma {:induction false} TickAppend(a: seq<Rule>, b: seq<Rule>, t: Time)
    ensures TickInvocations(a + b, t) == TickInvocations(a, t) + TickInvocations(b, t)
    decreases |b|
  {
    if b == [] {
      assert a + b == a;
    } else {
      var b' := b[..|b| - 1];
      assert (a + b)[..|a + b| - 1] == a + b';
      TickAppend(a, b', t);
    }
  }

  /** A rule whose type is unknown, or whose variant is not the one its type
      names, is skipped and every other rule of the tick is still dispatched. */
  lemma SkippedRuleIsolated(a: seq<Rule>, r: Rule, b: seq<Rule>, t: Time)
    requires !TagAgrees(r)
    ensures TickInvocations(a + [r] + b, t) == TickInvocations(a, t) + TickInvocations(b, t)
  {
    TickAppend(a + [r], b, t);
    TickAppend(a, [r], t);
    SkippedAlone(r, t);
  }

  lemma SkippedAlone(r: Rule, t: Time)
    requires !TagAgrees(r)
    ensures TickInvocations([r], t) == []
  {
    assert [r][..0] == [];
  }

  /** Each call of a tick goes to the handler its rule's `type` names, carries
      the start time, and is for one of the rules. */
  lemma {:induction false} TickInvocationsSound(rules: seq<Rule>, t: Time)
    ensures forall inv :: inv in TickInvocations(rules, t) ==>
      inv.rule in rules && inv.startTime == t &&
      inv.handler == inv.rule.Kind() && TypeName(inv.handler) == inv.rule.GetType()
    decreases |rules|
  {
    if rules != [] {
      TickInvocationsSound(rules[..|rules| - 1], t);
      var last := rules[|rules| - 1];
      if TagAgrees(last) {
        RegistryRoundTrip(last.Kind(), last.GetType());
      }
    }
  }

  /** When every rule names its own variant, a tick calls one handler per rule,
      in the rules' order. */
  lemma {:induction false} TickDispatchesAll(rules: seq<Rule>, t: Time)
    requires forall r :: r in rules ==> TagAgrees(r)
    ensures |TickInvocations(rules, t)| == |rules|
    ensures forall i :: 0 <= i < |rules| ==>
      TickInvocations(rules, t)[i] == Invocation(rules[i].Kind(), rules[i], t)
    decreases |rules|
  {
    if rules != [] {
      var init := rules[..|rules| - 1];
      assert forall r :: r in init ==> r in rules;
      TickDispatchesAll(init, t);
    }
  }

  lemma {:induction false} TicksBeforeCancelAt(events: seq<Event>, i: nat)
    requires i <= |events|
    requires forall k :: 0 <= k < i ==> events[k] == Tick
    ensures i == |events| ==> TicksBeforeCancel(events) == i
    ensures i < |events| && events[i] == Cancel ==> TicksBeforeCancel(events) == i
    decreases i
  {
    if i > 0 {
      TicksBeforeCancelAt(events[1..], i - 1);
    }
  }

  // ---------------------------------------------------------------------------
  // The alerter

  /** What ends (or has not yet ended) the scheduling loop. */
  datatype RunOutcome =
    | BadRunEvery   // the run interval does not parse: fatal before any tick
    | TickerPanic   // the interval parses but is not positive: the ticker refuses it
    | Cancelled     // the cancel signal was received: fatal, no further tick
    | Waiting       // the events so far are exhausted; the loop waits for more

  /** The rules `initRules` ends up with when the loader name is accepted. */
  function InitialRules(cfg: Config, root: Option<Node>, store: FileStore): seq<Rule> {
    match WalkDir(cfg.rulesFolder, "yaml", cfg.scanSubdirectories, root)
    case Failure(_) => []
    case Success(files) => LoadAll(store, files)
  }

  /** Every rule `initRules` loads is offered to its own handler on every tick,
      in load order. */
  lemma InitialRulesAllDispatched(cfg: Config, root: Option<Node>, store: FileStore, t: Time)
    ensures var rules := InitialRules(cfg, root, store);
      |TickInvocations(rules, t)| == |rules| &&
      forall i :: 0 <= i < |rules| ==> TickInvocations(rules, t)[i] == Invocation(rules[i].Kind(), rules[i], t)
  {
    var walk := WalkDir(cfg.rulesFolder, "yaml", cfg.scanSubdirectories, root);
    if walk.Success? {
      LoadAllAgrees(store, walk.value);
    }
    TickDispatchesAll(InitialRules(cfg, root, store), t);
  }

  class ElasticAlerter {
    const cfg: Config
    const startTime: Time
    var clientOptions: seq<ClientOption>
    var rulesLoader: FileRulesLoader?
    var rules: seq<Rule>

    /** The alerter as first built: its configuration and the start time, fixed here. */
    constructor (cfg: Config, now: Time)
      ensures this.cfg == cfg && startTime == now
      ensures clientOptions == [] && rulesLoader == null && rules == []
    {
      this.cfg := cfg;
      this.startTime := now;
      clientOptions := [];
      rulesLoader := null;
      rules := [];
    }

    /** Collects the options the search client is built with. */
    method InitEsClient()
      modifies this`clientOptions
      ensures clientOptions == ClientOptions(cfg)
    {
      var opts := [SetURL(cfg.esUrl), SetSniff(false), SetHttpClient, SetSendGetBodyAs(cfg.esSendGetBodyAs)];
      if cfg.esUsername != "" || cfg.esPassword != "" {
        opts := opts + [SetBasicAuth(cfg.esUsername, cfg.esPassword)];
      }
      clientOptions := opts;
    }

    /** Chooses the loader by name (only the file loader is known; any other
        name is fatal), loads, and keeps the loader's rules. */
    method InitRules(root: Option<Node>, store: FileStore) returns (fatal: bool)
      modifies this`rulesLoader, this`rules
      ensures fatal <==> cfg.rulesLoader != FileRulesLoaderName
      ensures fatal ==> rules == old(rules) && rulesLoader == old(rulesLoader)
      ensures !fatal ==> rulesLoader != null && fresh(rulesLoader)
      ensures !fatal ==> rulesLoader.Settings() == LoaderSettings(cfg.rulesFolder, "yaml", cfg.scanSubdirectories)
      ensures !fatal ==> rules == rulesLoader.rules == InitialRules(cfg, root, store)
    {
      if cfg.rulesLoader != FileRulesLoaderName {
        return true;
      }
      var loader := new FileRulesLoader(cfg.rulesFolder, [SetDescend(cfg.scanSubdirectories)]);
      assert [SetDescend(cfg.scanSubdirectories)][1..] == [];
      rulesLoader := loader;
      var _ := loader.Load(root, store);
      rules := loader.GetRules();
      fatal := false;
    }

    /** The type switch of one rule: the handler its `type` names is called when
        the rule is of that variant; otherwise nothing is called. */
    method Dispatch(rule: Rule) returns (call: Option<Invocation>)
      ensures call.Some? <==> TagAgrees(rule)
      ensures call.Some? ==> call.value == Invocation(rule.Kind(), rule, startTime)
    {
      call := None;
      match rule.GetType() {
        case "cardinality" =>
          if rule.CardinalityRule? { call := Some(Invocation(Cardinality, rule, startTime)); }
        case "change" =>
          if rule.ChangeRule? { call := Some(Invocation(Change, rule, startTime)); }
        case "frequency" =>
          if rule.FrequencyRule? { call := Some(Invocation(Frequency, rule, startTime)); }
        case "new_term" =>
          if rule.NewTermRule? { call := Some(Invocation(NewTerm, rule, startTime)); }
        case "percentage_match" =>
          if rule.PercentageMatchRule? { call := Some(Invocation(PercentageMatch, rule, startTime)); }
        case "metric_aggregation" =>
          if rule.MetricAggregationRule? { call := Some(Invocation(MetricAggregation, rule, startTime)); }
        case "spike_aggregation" =>
          if rule.SpikeAggregationRule? { call := Some(Invocation(SpikeAggregation, rule, startTime)); }
        case "spike" =>
          if rule.SpikeRule? { call := Some(Invocation(Spike, rule, startTime)); }
        case _ =>
      }
    }

    /** One tick: every rule, in order, is handed to the handler its type names. */
    method OnTick() returns (tick: seq<Invocation>)
      ensures tick == TickInvocations(rules, startTime)
    {
      tick := [];
      for j := 0 to |rules|
        invariant tick == TickInvocations(rules[..j], startTime)
      {
        assert rules[..j + 1][..j] == rules[..j];
        var call := Dispatch(rules[j]);
        if call.Some? {
          tick := tick + [call.value];
        }
      }
      assert rules[..|rules|] == rules;
    }

    /** The scheduling loop over the events it receives: each tick is one full
        ordered pass over the rules before the next event is taken; a cancel
        ends the loop. `parseDuration` is the interval parser. */
    method Run(parseDuration: DurationStr -> Option<int>, events: seq<Event>)
      returns (dispatched: seq<Invocation>, outcome: RunOutcome)
      ensures parseDuration(cfg.runEvery).None? ==> outcome == BadRunEvery && dispatched == []
      ensures parseDuration(cfg.runEvery).Some? && parseDuration(cfg.runEvery).value <= 0 ==>
        outcome == TickerPanic && dispatched == []
      ensures parseDuration(cfg.runEvery).Some? && parseDuration(cfg.runEvery).value > 0 ==>
        && dispatched == Repeat(TickInvocations(rules, startTime), TicksBeforeCancel(events))
        && (outcome == Cancelled <==> Cancel in events)
        && (outcome == Cancelled || outcome == Waiting)
    {
      dispatched := [];
      var duration := parseDuration(cfg.runEvery);
      if duration.None? {
        return [], BadRunEvery;
      }
      if duration.value <= 0 {
        return [], TickerPanic;
      }
      var i := 0;
      while i < |events|
        invariant 0 <= i <= |events|
        invariant forall k :: 0 <= k < i ==> events[k] == Tick
        invariant dispatched == Repeat(TickInvocations(rules, startTime), i)
      {
        if events[i] == Cancel {
          TicksBeforeCancelAt(events, i);
          return dispatched, Cancelled;
        }
        var tick := OnTick();
        dispatched := dispatched + tick;
        i := i + 1;
      }
      TicksBeforeCancelAt(events, i);
      outcome := Waiting;
    }
  }

  /** `NewElasticAlerter`: fixes the start time, builds the client options and
      loads the rules. */
  method NewElasticAlerter(cfg: Config, now: Time, root: Option<Node>, store: FileStore)
    returns (e: ElasticAlerter, fatal: bool)
    ensures fresh(e) && e.cfg == cfg && e.startTime == now
    ensures e.clientOptions == ClientOptions(cfg)
    ensures fatal <==> cfg.rulesLoader != FileRulesLoaderName
    ensures !fatal ==> e.rules == InitialRules(cfg, root, store)
  {
    e := new ElasticAlerter(cfg, now);
    e.InitEsClient();
    fatal := e.InitRules(root, store);
  }
}
