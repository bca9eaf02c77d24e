/** Rule definitions: a base record that every rule variant embeds, the eight
    variants, the registry of `type` discriminators, and the decoding of a parsed
    rule file into the variant its discriminator names (the `mapstructure` tags of
    rule.go, with the base squashed into the top level of the file). */
module Rules {
  import opened Wrappers

  /** A duration kept as written ("30s", "1h"); it is resolved only where used. */
  type DurationStr = string

  /** An instant; `ZeroTime` stands for Go's zero `time.Time`. */
  type Time = int
  const ZeroTime: Time := 0

  /** A float64 field, never computed with: either a bit pattern read as a float
      or an integer literal that the decoder converts to the nearest float. */
  datatype Float64 = Bits(bits: bv64) | OfInt(i: int)

  /** A value of a parsed rule file, as the structured-data parser hands it on. */
  datatype Value =
    | VNull
    | VStr(s: string)
    | VInt(i: int)
    | VBool(b: bool)
    | VFloat(f: bv64)
    | VList(items: seq<Value>)
    | VMap(entries: map<string, Value>)

  /** A parsed rule file: its top-level keys and their values. */
  type Document = map<string, Value>

  /** The fields every rule variant shares. */
  datatype RuleBase = RuleBase(
    name: string,
    typ: string,
    index: string,
    description: string,
    numEvents: int,
    timeFrame: DurationStr,
    filter: Value,
    alert: seq<string>,
    email: seq<string>,
    initialStartTime: Time)

  /** The eight kinds of rule, one per discriminator and per evaluator. */
  datatype RuleKind =
    | Cardinality | Change | Frequency | NewTerm
    | PercentageMatch | MetricAggregation | SpikeAggregation | Spike

  /** A loaded rule: one of eight variants, each embedding a `RuleBase`. */
  datatype Rule =
    | CardinalityRule(base: RuleBase, cardinalityField: string, minCardinality: int)
    | ChangeRule(base: RuleBase, compareKey: string, ignoreNull: bool, queryKey: string)
    | FrequencyRule(base: RuleBase)
    | NewTermRule(base: RuleBase, fields: seq<string>, termsWindowSize: DurationStr)
    | PercentageMatchRule(
        base: RuleBase, bufferTime: DurationStr, queryKey: string, docType: string,
        minPercentage: int, maxPercentage: int, bucketInterval: DurationStr,
        syncBucketInterval: bool, allowBufferTimeOverlap: bool, useRunEveryQuerySize: bool)
    | MetricAggregationRule(
        base: RuleBase, bufferTime: DurationStr, metricAggKey: string, metricAggType: string,
        queryKey: string, docType: string, bucketInterval: DurationStr,
        syncBucketInterval: bool, allowBufferTimeOverlap: bool, useRunEveryQuerySize: bool,
        minThreshold: Float64, maxThreshold: Float64)
    | SpikeRule(
        base: RuleBase, thresholdCur: int, thresholdRef: int, spikeHeight: int, spikeType: string)
    | SpikeAggregationRule(
        base: RuleBase, bufferTime: DurationStr, metricAggKey: string, metricAggType: string,
        queryKey: string, docType: string, thresholdCur: int, thresholdRef: int,
        spikeHeight: int, spikeType: string)
  {
    function GetName(): string { base.name }

    function GetType(): string { base.typ }

    function GetIndex(): string { base.index }

    /** The concrete variant, what a Go type assertion on the rule inspects. */
    function Kind(): RuleKind {
      match this
      case CardinalityRule(_, _, _) => Cardinality
      case ChangeRule(_, _, _, _) => Change
      case FrequencyRule(_) => Frequency
      case NewTermRule(_, _, _) => NewTerm
      case PercentageMatchRule(_, _, _, _, _, _, _, _, _, _) => PercentageMatch
      case MetricAggregationRule(_, _, _, _, _, _, _, _, _, _, _, _) => MetricAggregation
      case SpikeRule(_, _, _, _, _) => Spike
      case SpikeAggregationRule(_, _, _, _, _, _, _, _, _, _) => SpikeAggregation
    }
  }

  /** The discriminator string of each kind. */
  function TypeName(k: RuleKind): string {
    match k
    case Cardinality => "cardinality"
    case Change => "change"
    case Frequency => "frequency"
    case NewTerm => "new_term"
    case PercentageMatch => "percentage_match"
    case MetricAggregation => "metric_aggregation"
    case SpikeAggregation => "spike_aggregation"
    case Spike => "spike"
  }

  const KnownTypes: set<string> :=
    {"cardinality", "change", "frequency", "new_term",
     "percentage_match", "metric_aggregation", "spike_aggregation", "spike"}

  /** The registry: the kind a discriminator string names, if any. */
  function KindOf(s: string): (k: Option<RuleKind>)
    ensures k.Some? <==> s in KnownTypes
    ensures k.Some? ==> TypeName(k.value) == s
  {
    match s
    case "cardinality" => Some(Cardinality)
    case "change" => Some(Change)
    case "frequency" => Some(Frequency)
    case "new_term" => Some(NewTerm)
    case "percentage_match" => Some(PercentageMatch)
    case "metric_aggregation" => Some(MetricAggregation)
    case "spike_aggregation" => Some(SpikeAggregation)
    case "spike" => Some(Spike)
    case _ => None
  }

  /** A rule agrees with its tag when its `type` string names its own variant. */
  predicate TagAgrees(r: Rule) {
    KindOf(r.GetType()) == Some(r.Kind())
  }

  // Field decoders. A key that is absent or null leaves the field at its zero
  // value; a value of another shape makes the whole decode fail. `Fits…` says
  // when a key can fill a field of that type, `…At` what the field becomes.

  predicate FitsString(doc: Document, key: string) {
    key !in doc || doc[key].VNull? || doc[key].VStr?
  }

  function StringAt(doc: Document, key: string): string {
    if key in doc && doc[key].VStr? then doc[key].s else ""
  }

  predicate FitsInt(doc: Document, key: string) {
    key !in doc || doc[key].VNull? || doc[key].VInt?
  }

  function IntAt(doc: Document, key: string): int {
    if key in doc && doc[key].VInt? then doc[key].i else 0
  }

  predicate FitsBool(doc: Document, key: string) {
    key !in doc || doc[key].VNull? || doc[key].VBool?
  }

  function BoolAt(doc: Document, key: string): bool {
    key in doc && doc[key].VBool? && doc[key].b
  }

  /** A float field also takes an integer, converted to a float. */
  predicate FitsFloat(doc: Document, key: string) {
    key !in doc || doc[key].VNull? || doc[key].VFloat? || doc[key].VInt?
  }

  function FloatAt(doc: Document, key: string): Float64 {
    if key in doc && doc[key].VFloat? then Bits(doc[key].f)
    else if key in doc && doc[key].VInt? then OfInt(doc[key].i)
    else Bits(0)
  }

  /** A list item that can fill a string element: a string, or null, which
      leaves the element "". */
  predicate TextItem(v: Value) {
    v.VStr? || v.VNull?
  }

  function Text(v: Value): string {
    if v.VStr? then v.s else ""
  }

  function Texts(items: seq<Value>): seq<string> {
    seq(|items|, i requires 0 <= i < |items| => Text(items[i]))
  }

  predicate FitsStrings(doc: Document, key: string) {
    key !in doc || doc[key].VNull? || (doc[key].VList? && forall v :: v in doc[key].items ==> TextItem(v))
  }

  function StringsAt(doc: Document, key: string): seq<string> {
    if key in doc && doc[key].VList? then Texts(doc[key].items) else []
  }

  function DecodeString(doc: Document, key: string): (r: Option<string>)
    ensures r.Some? <==> FitsString(doc, key)
    ensures r.Some? ==> r.value == StringAt(doc, key)
  {
    if key !in doc then Some("") else
    match doc[key]
    case VNull => Some("")
    case VStr(s) => Some(s)
    case _ => None
  }

  function DecodeInt(doc: Document, key: string): (r: Option<int>)
    ensures r.Some? <==> FitsInt(doc, key)
    ensures r.Some? ==> r.value == IntAt(doc, key)
  {
    if key !in doc then Some(0) else
    match doc[key]
    case VNull => Some(0)
    case VInt(i) => Some(i)
    case _ => None
  }

  function DecodeBool(doc: Document, key: string): (r: Option<bool>)
    ensures r.Some? <==> FitsBool(doc, key)
    ensures r.Some? ==> r.value == BoolAt(doc, key)
  {
    if key !in doc then Some(false) else
    match doc[key]
    case VNull => Some(false)
    case VBool(b) => Some(b)
    case _ => None
  }

  function DecodeFloat(doc: Document, key: string): (r: Option<Float64>)
    ensures r.Some? <==> FitsFloat(doc, key)
    ensures r.Some? ==> r.value == FloatAt(doc, key)
  {
    if key !in doc then Some(Bits(0)) else
    match doc[key]
    case VNull => Some(Bits(0))
    case VFloat(f) => Some(Bits(f))
    case VInt(i) => Some(OfInt(i))
    case _ => None
  }

  /** Decodes list items one by one into string elements. */
  function StringItems(items: seq<Value>): (r: Option<seq<string>>)
    ensures r.Some? <==> forall v :: v in items ==> TextItem(v)
    ensures r.Some? ==> r.value == Texts(items)
  {
    if items == [] then Some([])
    else if !TextItem(items[0]) then None
    else
      var rest :- StringItems(items[1..]);
      assert forall v :: v in items <==> v == items[0] || v in items[1..];
      assert Texts(items) == [Text(items[0])] + Texts(items[1..]);
      Some([Text(items[0])] + rest)
  }

  function DecodeStrings(doc: Document, key: string): (r: Option<seq<string>>)
    ensures r.Some? <==> FitsStrings(doc, key)
    ensures r.Some? ==> r.value == StringsAt(doc, key)
  {
    if key !in doc then Some([]) else
    match doc[key]
    case VNull => Some([])
    case VList(items) => StringItems(items)
    case _ => None
  }

  /** An `interface{}` field takes whatever value is there, nil when absent. */
  function DecodeAny(doc: Document, key: string): Value {
    if key in doc then doc[key] else VNull
  }

  /** The keys the base's tags name; `InitialStartTime` has none (tag "-"). */
  const BaseKeys: set<string> :=
    {"name", "type", "index", "description", "num_events", "timeframe", "filter", "alert", "email"}

  /** Every base tag of `doc` holds a value its field can take. */
  predicate BaseFits(doc: Document) {
    FitsString(doc, "name") && FitsString(doc, "type") && FitsString(doc, "index") &&
    FitsString(doc, "description") && FitsInt(doc, "num_events") &&
    FitsString(doc, "timeframe") && FitsStrings(doc, "alert") && FitsStrings(doc, "email")
  }

  /** Decodes the squashed base fields from the top level of a rule file. */
  function DecodeBase(doc: Document): (r: Option<RuleBase>)
    ensures r.Some? <==> BaseFits(doc)
    ensures r.Some? ==> r.value == RuleBase(StringAt(doc, "name"), StringAt(doc, "type"),
      StringAt(doc, "index"), StringAt(doc, "description"), IntAt(doc, "num_events"),
      StringAt(doc, "timeframe"), DecodeAny(doc, "filter"), StringsAt(doc, "alert"),
      StringsAt(doc, "email"), ZeroTime)
  {
    var name :- DecodeString(doc, "name");
    var typ :- DecodeString(doc, "type");
    var index :- DecodeString(doc, "index");
    var description :- DecodeString(doc, "description");
    var numEvents :- DecodeInt(doc, "num_events");
    var timeFrame :- DecodeString(doc, "timeframe");
    var alert :- DecodeStrings(doc, "alert");
    var email :- DecodeStrings(doc, "email");
    Some(RuleBase(name, typ, index, description, numEvents, timeFrame,
                  DecodeAny(doc, "filter"), alert, email, ZeroTime))
  }

  /** The keys the tags of variant `k` name, beyond the base's. */
  function VariantKeys(k: RuleKind): set<string> {
    match k
    case Cardinality => {"cardinality_field", "min_cardinality"}
    case Change => {"compare_key", "ignore_null", "query_key"}
    case Frequency => {}
    case NewTerm => {"fields", "terms_window_size"}
    case PercentageMatch =>
      {"buffer_time", "query_key", "doc_type", "min_percentage", "max_percentage",
       "bucket_interval", "sync_bucket_interval", "allow_buffer_time_overlap",
       "use_run_every_query_size"}
    case MetricAggregation =>
      {"buffer_time", "metric_agg_key", "metric_agg_type", "query_key", "doc_type",
       "bucket_interval", "sync_bucket_interval", "allow_buffer_time_overlap",
       "use_run_every_query_size", "min_threshold", "max_threshold"}
    case Spike => {"threshold_cur", "threshold_ref", "spike_height", "spike_type"}
    case SpikeAggregation =>
      {"buffer_time", "metric_agg_key", "metric_agg_type", "query_key", "doc_type",
       "threshold_cur", "threshold_ref", "spike_height", "spike_type"}
  }

  /** Every tag of variant `k` holds a value its field can take. */
  predicate VariantFits(k: RuleKind, doc: Document) {
    match k
    case Cardinality => FitsString(doc, "cardinality_field") && FitsInt(doc, "min_cardinality")
    case Change =>
      FitsString(doc, "compare_key") && FitsBool(doc, "ignore_null") && FitsString(doc, "query_key")
    case Frequency => true
    case NewTerm => FitsStrings(doc, "fields") && FitsString(doc, "terms_window_size")
    case PercentageMatch =>
      FitsString(doc, "buffer_time") && FitsString(doc, "query_key") && FitsString(doc, "doc_type") &&
      FitsInt(doc, "min_percentage") && FitsInt(doc, "max_percentage") &&
      FitsString(doc, "bucket_interval") && FitsBool(doc, "sync_bucket_interval") &&
      FitsBool(doc, "allow_buffer_time_overlap") && FitsBool(doc, "use_run_every_query_size")
    case MetricAggregation =>
      FitsString(doc, "buffer_time") && FitsString(doc, "metric_agg_key") &&
      FitsString(doc, "metric_agg_type") && FitsString(doc, "query_key") &&
      FitsString(doc, "doc_type") && FitsString(doc, "bucket_interval") &&
      FitsBool(doc, "sync_bucket_interval") && FitsBool(doc, "allow_buffer_time_overlap") &&
      FitsBool(doc, "use_run_every_query_size") && FitsFloat(doc, "min_threshold") &&
      FitsFloat(doc, "max_threshold")
    case Spike =>
      FitsInt(doc, "threshold_cur") && FitsInt(doc, "threshold_ref") &&
      FitsInt(doc, "spike_height") && FitsString(doc, "spike_type")
    case SpikeAggregation =>
      FitsString(doc, "buffer_time") && FitsString(doc, "metric_agg_key") &&
      FitsString(doc, "metric_agg_type") && FitsString(doc, "query_key") &&
      FitsString(doc, "doc_type") && FitsInt(doc, "threshold_cur") &&
      FitsInt(doc, "threshold_ref") && FitsInt(doc, "spike_height") &&
      FitsString(doc, "spike_type")
  }

  /** Decodes the fields of `RuleCardinality` beyond its squashed base `b`. */
  function DecodeCardinality(b: RuleBase, doc: Document): (r: Option<Rule>)
    ensures r.Some? <==> VariantFits(Cardinality, doc)
    ensures r.Some? ==> r.value == CardinalityRule(b, StringAt(doc, "cardinality_field"),
      IntAt(doc, "min_cardinality"))
  {
    var cardinalityField :- DecodeString(doc, "cardinality_field");
    var minCardinality :- DecodeInt(doc, "min_cardinality");
    Some(CardinalityRule(b, cardinalityField, minCardinality))
  }

  /** Decodes the fields of `RuleChange` beyond its squashed base `b`. */
  function DecodeChange(b: RuleBase, doc: Document): (r: Option<Rule>)
    ensures r.Some? <==> VariantFits(Change, doc)
    ensures r.Some? ==> r.value == ChangeRule(b, StringAt(doc, "compare_key"),
      BoolAt(doc, "ignore_null"), StringAt(doc, "query_key"))
  {
    var compareKey :- DecodeString(doc, "compare_key");
    var ignoreNull :- DecodeBool(doc, "ignore_null");
    var queryKey :- DecodeString(doc, "query_key");
    Some(ChangeRule(b, compareKey, ignoreNull, queryKey))
  }

  /** `RuleFrequency` has no fields beyond its squashed base `b`. */
  function DecodeFrequency(b: RuleBase, doc: Document): (r: Option<Rule>)
    ensures r == Some(FrequencyRule(b))
  {
    Some(FrequencyRule(b))
  }

  /** Decodes the fields of `RuleNewTerm` beyond its squashed base `b`. */
  function DecodeNewTerm(b: RuleBase, doc: Document): (r: Option<Rule>)
    ensures r.Some? <==> VariantFits(NewTerm, doc)
    ensures r.Some? ==> r.value == NewTermRule(b, StringsAt(doc, "fields"),
      StringAt(doc, "terms_window_size"))
  {
    var fields :- DecodeStrings(doc, "fields");
    var termsWindowSize :- DecodeString(doc, "terms_window_size");
    Some(NewTermRule(b, fields, termsWindowSize))
  }

  /** Decodes the fields of `RulePercentageMatch` beyond its squashed base `b`. */
  function DecodePercentageMatch(b: RuleBase, doc: Document): (r: Option<Rule>)
    ensures r.Some? <==> VariantFits(PercentageMatch, doc)
    ensures r.Some? ==> r.value == PercentageMatchRule(b, StringAt(doc, "buffer_time"),
      StringAt(doc, "query_key"), StringAt(doc, "doc_type"), IntAt(doc, "min_percentage"),
      IntAt(doc, "max_percentage"), StringAt(doc, "bucket_interval"),
      BoolAt(doc, "sync_bucket_interval"), BoolAt(doc, "allow_buffer_time_overlap"),
      BoolAt(doc, "use_run_every_query_size"))
  {
    var bufferTime :- DecodeString(doc, "buffer_time");
    var queryKey :- DecodeString(doc, "query_key");
    var docType :- DecodeString(doc, "doc_type");
    var minPercentage :- DecodeInt(doc, "min_percentage");
    var maxPercentage :- DecodeInt(doc, "max_percentage");
    var bucketInterval :- DecodeString(doc, "bucket_interval");
    var syncBucketInterval :- DecodeBool(doc, "sync_bucket_interval");
    var allowOverlap :- DecodeBool(doc, "allow_buffer_time_overlap");
    var useRunEvery :- DecodeBool(doc, "use_run_every_query_size");
    Some(PercentageMatchRule(b, bufferTime, queryKey, docType, minPercentage, maxPercentage,
                             bucketInterval, syncBucketInterval, allowOverlap, useRunEvery))
  }

  /** Decodes the fields of `RuleMetricAggregation` beyond its squashed base `b`. */
  function DecodeMetricAggregation(b: RuleBase, doc: Document): (r: Option<Rule>)
    ensures r.Some? <==> VariantFits(MetricAggregation, doc)
    ensures r.Some? ==> r.value == MetricAggregationRule(b, StringAt(doc, "buffer_time"),
      StringAt(doc, "metric_agg_key"), StringAt(doc, "metric_agg_type"),
      StringAt(doc, "query_key"), StringAt(doc, "doc_type"), StringAt(doc, "bucket_interval"),
      BoolAt(doc, "sync_bucket_interval"), BoolAt(doc, "allow_buffer_time_overlap"),
      BoolAt(doc, "use_run_every_query_size"), FloatAt(doc, "min_threshold"),
      FloatAt(doc, "max_threshold"))
  {
    var bufferTime :- DecodeString(doc, "buffer_time");
    var metricAggKey :- DecodeString(doc, "metric_agg_key");
    var metricAggType :- DecodeString(doc, "metric_agg_type");
    var queryKey :- DecodeString(doc, "query_key");
    var docType :- DecodeString(doc, "doc_type");
    var bucketInterval :- DecodeString(doc, "bucket_interval");
    var syncBucketInterval :- DecodeBool(doc, "sync_bucket_interval");
    var allowOverlap :- DecodeBool(doc, "allow_buffer_time_overlap");
    var useRunEvery :- DecodeBool(doc, "use_run_every_query_size");
    var minThreshold :- DecodeFloat(doc, "min_threshold");
    var maxThreshold :- DecodeFloat(doc, "max_threshold");
    Some(MetricAggregationRule(b, bufferTime, metricAggKey, metricAggType, queryKey, docType,
                               bucketInterval, syncBucketInterval, allowOverlap, useRunEvery,
                               minThreshold, maxThreshold))
  }

  /** Decodes the fields of `RuleSpike` beyond its squashed base `b`. */
  function DecodeSpike(b: RuleBase, doc: Document): (r: Option<Rule>)
    ensures r.Some? <==> VariantFits(Spike, doc)
    ensures r.Some? ==> r.value == SpikeRule(b, IntAt(doc, "threshold_cur"),
      IntAt(doc, "threshold_ref"), IntAt(doc, "spike_height"), StringAt(doc, "spike_type"))
  {
    var thresholdCur :- DecodeInt(doc, "threshold_cur");
    var thresholdRef :- DecodeInt(doc, "threshold_ref");
    var spikeHeight :- DecodeInt(doc, "spike_height");
    var spikeType :- DecodeString(doc, "spike_type");
    Some(SpikeRule(b, thresholdCur, thresholdRef, spikeHeight, spikeType))
  }

  /** Decodes the fields of `RuleSpikeAggregation` beyond its squashed base `b`. */
  function DecodeSpikeAggregation(b: RuleBase, doc: Document): (r: Option<Rule>)
    ensures r.Some? <==> VariantFits(SpikeAggregation, doc)
    ensures r.Some? ==> r.value == SpikeAggregationRule(b, StringAt(doc, "buffer_time"),
      StringAt(doc, "metric_agg_key"), StringAt(doc, "metric_agg_type"),
      StringAt(doc, "query_key"), StringAt(doc, "doc_type"), IntAt(doc, "threshold_cur"),
      IntAt(doc, "threshold_ref"), IntAt(doc, "spike_height"), StringAt(doc, "spike_type"))
  {
    var bufferTime :- DecodeString(doc, "buffer_time");
    var metricAggKey :- DecodeString(doc, "metric_agg_key");
    var metricAggType :- DecodeString(doc, "metric_agg_type");
    var queryKey :- DecodeString(doc, "query_key");
    var docType :- DecodeString(doc, "doc_type");
    var thresholdCur :- DecodeInt(doc, "threshold_cur");
    var thresholdRef :- DecodeInt(doc, "threshold_ref");
    var spikeHeight :- DecodeInt(doc, "spike_height");
    var spikeType :- DecodeString(doc, "spike_type");
    Some(SpikeAggregationRule(b, bufferTime, metricAggKey, metricAggType, queryKey, docType,
                              thresholdCur, thresholdRef, spikeHeight, spikeType))
  }

  /** Unmarshals a parsed rule file into the variant of kind `k`. */
  function DecodeRule(k: RuleKind, doc: Document): (r: Option<Rule>)
    ensures r.Some? <==> BaseFits(doc) && VariantFits(k, doc)
    ensures r.Some? ==> r.value.Kind() == k
    ensures r.Some? ==> DecodeBase(doc) == Some(r.value.base)
    ensures r.Some? ==> r.value.base.initialStartTime == ZeroTime
  {
    var b :- DecodeBase(doc);
    DecodeFields(k, b, doc)
  }

  /** Decodes the fields of variant `k` beyond its squashed base `b`. */
  function DecodeFields(k: RuleKind, b: RuleBase, doc: Document): (r: Option<Rule>)
    ensures r.Some? <==> VariantFits(k, doc)
    ensures r.Some? ==> r.value.Kind() == k && r.value.base == b
  {
    match k
    case Cardinality => DecodeCardinality(b, doc)
    case Change => DecodeChange(b, doc)
    case Frequency => DecodeFrequency(b, doc)
    case NewTerm => DecodeNewTerm(b, doc)
    case PercentageMatch => DecodePercentageMatch(b, doc)
    case MetricAggregation => DecodeMetricAggregation(b, doc)
    case Spike => DecodeSpike(b, doc)
    case SpikeAggregation => DecodeSpikeAggregation(b, doc)
  }

  /** The three getters of every variant read the embedded base and nothing else. */
  lemma GettersReadBase(r: Rule)
    ensures r.GetName() == r.base.name && r.GetType() == r.base.typ && r.GetIndex() == r.base.index
    ensures forall r': Rule :: r'.base == r.base ==>
      r'.GetName() == r.GetName() && r'.GetType() == r.GetType() && r'.GetIndex() == r.GetIndex()
  {
  }

  /** A frequency rule is its base and nothing more. */
  lemma FrequencyIsBaseOnly(r: Rule)
    requires r.FrequencyRule?
    ensures r == FrequencyRule(r.base)
    ensures VariantKeys(Frequency) == {}
  {
  }

  /** Each discriminator names exactly one kind, and each kind has its own name. */
  lemma RegistryRoundTrip(k: RuleKind, s: string)
    ensures KindOf(TypeName(k)) == Some(k)
    ensures KindOf(s) == Some(k) <==> s == TypeName(k)
  {
  }

  /** A decoded rule carries the zero start time and the file's `type` string,
      whatever other keys the file holds. */
  lemma DecodedRuleAgrees(k: RuleKind, doc: Document)
    requires "type" in doc && doc["type"] == VStr(TypeName(k))
    requires DecodeRule(k, doc).Some?
    ensures TagAgrees(DecodeRule(k, doc).value)
    ensures DecodeRule(k, doc).value.GetType() == TypeName(k)
    ensures DecodeRule(k, doc).value.base.initialStartTime == ZeroTime
  {
    RegistryRoundTrip(k, TypeName(k));
  }

  /** Two parsed files agree on `keys` when they hold the same values there. */
  predicate AgreeOn(doc: Document, doc': Document, keys: set<string>) {
    forall key :: key in keys ==>
      (key in doc <==> key in doc') && (key in doc ==> doc[key] == doc'[key])
  }

  // Two files that agree on `keys` give a field decoder the same answer at each of them.

  lemma StringAgrees(doc: Document, doc': Document, keys: set<string>, key: string)
    requires AgreeOn(doc, doc', keys) && key in keys
    ensures DecodeString(doc, key) == DecodeString(doc', key)
  {
  }

  lemma IntAgrees(doc: Document, doc': Document, keys: set<string>, key: string)
    requires AgreeOn(doc, doc', keys) && key in keys
    ensures DecodeInt(doc, key) == DecodeInt(doc', key)
  {
  }

  lemma BoolAgrees(doc: Document, doc': Document, keys: set<string>, key: string)
    requires AgreeOn(doc, doc', keys) && key in keys
    ensures DecodeBool(doc, key) == DecodeBool(doc', key)
  {
  }

  lemma FloatAgrees(doc: Document, doc': Document, keys: set<string>, key: string)
    requires AgreeOn(doc, doc', keys) && key in keys
    ensures DecodeFloat(doc, key) == DecodeFloat(doc', key)
  {
  }

  lemma StringsAgree(doc: Document, doc': Document, keys: set<string>, key: string)
    requires AgreeOn(doc, doc', keys) && key in keys
    ensures DecodeStrings(doc, key) == DecodeStrings(doc', key)
  {
  }

  lemma AnyAgrees(doc: Document, doc': Document, keys: set<string>, key: string)
    requires AgreeOn(doc, doc', keys) && key in keys
    ensures DecodeAny(doc, key) == DecodeAny(doc', key)
  {
  }

  /** Two files holding the same values at the base's keys decode to the same base. */
  lemma DecodeBaseReadsOnlyBaseKeys(doc: Document, doc': Document)
    requires AgreeOn(doc, doc', BaseKeys)
    ensures DecodeBase(doc) == DecodeBase(doc')
  {
    StringAgrees(doc, doc', BaseKeys, "name");
    StringAgrees(doc, doc', BaseKeys, "type");
    StringAgrees(doc, doc', BaseKeys, "index");
    StringAgrees(doc, doc', BaseKeys, "description");
    IntAgrees(doc, doc', BaseKeys, "num_events");
    StringAgrees(doc, doc', BaseKeys, "timeframe");
    AnyAgrees(doc, doc', BaseKeys, "filter");
    StringsAgree(doc, doc', BaseKeys, "alert");
    StringsAgree(doc, doc', BaseKeys, "email");
  }

  /** Agreeing on a union of keys is agreeing on each part. */
  lemma AgreeOnParts(doc: Document, doc': Document, keys: set<string>, keys': set<string>)
    requires AgreeOn(doc, doc', keys + keys')
    ensures AgreeOn(doc, doc', keys) && AgreeOn(doc, doc', keys')
  {
  }

  /** Decoding reads only the keys the tags name: keys that no tag of the variant
      names are ignored, including any meant for the untagged start time. */
  lemma {:induction false} DecodeReadsOnlyTaggedKeys(k: RuleKind, doc: Document, doc': Document)
    requires AgreeOn(doc, doc', BaseKeys + VariantKeys(k))
    ensures DecodeRule(k, doc) == DecodeRule(k, doc')
  {
    AgreeOnParts(doc, doc', BaseKeys, VariantKeys(k));
    DecodeBaseReadsOnlyBaseKeys(doc, doc');
    var b := DecodeBase(doc);
    if b.Some? {
      FieldsReadOnlyTaggedKeys(k, b.value, doc, doc');
    }
  }

  /** The fields beyond the base are read from the variant's tags alone. */
  lemma {:induction false} FieldsReadOnlyTaggedKeys(k: RuleKind, b: RuleBase, doc: Document, doc': Document)
    requires AgreeOn(doc, doc', VariantKeys(k))
    ensures DecodeFields(k, b, doc) == DecodeFields(k, b, doc')
  {
    match k {
        case Cardinality => CardinalityReadsOnlyTaggedKeys(b, doc, doc');
        case Change => ChangeReadsOnlyTaggedKeys(b, doc, doc');
        case Frequency =>
        case NewTerm => NewTermReadsOnlyTaggedKeys(b, doc, doc');
        case PercentageMatch => PercentageMatchReadsOnlyTaggedKeys(b, doc, doc');
        case MetricAggregation => MetricAggregationReadsOnlyTaggedKeys(b, doc, doc');
        case Spike => SpikeReadsOnlyTaggedKeys(b, doc, doc');
        case SpikeAggregation => SpikeAggregationReadsOnlyTaggedKeys(b, doc, doc');
      }
  }

  lemma CardinalityReadsOnlyTaggedKeys(b: RuleBase, doc: Document, doc': Document)
    requires AgreeOn(doc, doc', VariantKeys(Cardinality))
    ensures DecodeCardinality(b, doc) == DecodeCardinality(b, doc')
  {
    StringAgrees(doc, doc', VariantKeys(Cardinality), "cardinality_field");
    IntAgrees(doc, doc', VariantKeys(Cardinality), "min_cardinality");
  }

  lemma ChangeReadsOnlyTaggedKeys(b: RuleBase, doc: Document, doc': Document)
    requires AgreeOn(doc, doc', VariantKeys(Change))
    ensures DecodeChange(b, doc) == DecodeChange(b, doc')
  {
    StringAgrees(doc, doc', VariantKeys(Change), "compare_key");
    BoolAgrees(doc, doc', VariantKeys(Change), "ignore_null");
    StringAgrees(doc, doc', VariantKeys(Change), "query_key");
  }

  lemma NewTermReadsOnlyTaggedKeys(b: RuleBase, doc: Document, doc': Document)
    requires AgreeOn(doc, doc', VariantKeys(NewTerm))
    ensures DecodeNewTerm(b, doc) == DecodeNewTerm(b, doc')
  {
    StringsAgree(doc, doc', VariantKeys(NewTerm), "fields");
    StringAgrees(doc, doc', VariantKeys(NewTerm), "terms_window_size");
  }

  lemma PercentageMatchReadsOnlyTaggedKeys(b: RuleBase, doc: Document, doc': Document)
    requires AgreeOn(doc, doc', VariantKeys(PercentageMatch))
    ensures DecodePercentageMatch(b, doc) == DecodePercentageMatch(b, doc')
  {
    StringAgrees(doc, doc', VariantKeys(PercentageMatch), "buffer_time");
    StringAgrees(doc, doc', VariantKeys(PercentageMatch), "query_key");
    StringAgrees(doc, doc', VariantKeys(PercentageMatch), "doc_type");
    IntAgrees(doc, doc', VariantKeys(PercentageMatch), "min_percentage");
    IntAgrees(doc, doc', VariantKeys(PercentageMatch), "max_percentage");
    StringAgrees(doc, doc', VariantKeys(PercentageMatch), "bucket_interval");
    BoolAgrees(doc, doc', VariantKeys(PercentageMatch), "sync_bucket_interval");
    BoolAgrees(doc, doc', VariantKeys(PercentageMatch), "allow_buffer_time_overlap");
    BoolAgrees(doc, doc', VariantKeys(PercentageMatch), "use_run_every_query_size");
  }

  lemma MetricAggregationReadsOnlyTaggedKeys(b: RuleBase, doc: Document, doc': Document)
    requires AgreeOn(doc, doc', VariantKeys(MetricAggregation))
    ensures DecodeMetricAggregation(b, doc) == DecodeMetricAggregation(b, doc')
  {
    StringAgrees(doc, doc', VariantKeys(MetricAggregation), "buffer_time");
    StringAgrees(doc, doc', VariantKeys(MetricAggregation), "metric_agg_key");
    StringAgrees(doc, doc', VariantKeys(MetricAggregation), "metric_agg_type");
    StringAgrees(doc, doc', VariantKeys(MetricAggregation), "query_key");
    StringAgrees(doc, doc', VariantKeys(MetricAggregation), "doc_type");
    StringAgrees(doc, doc', VariantKeys(MetricAggregation), "bucket_interval");
    BoolAgrees(doc, doc', VariantKeys(MetricAggregation), "sync_bucket_interval");
    BoolAgrees(doc, doc', VariantKeys(MetricAggregation), "allow_buffer_time_overlap");
    BoolAgrees(doc, doc', VariantKeys(MetricAggregation), "use_run_every_query_size");
    FloatAgrees(doc, doc', VariantKeys(MetricAggregation), "min_threshold");
    FloatAgrees(doc, doc', VariantKeys(MetricAggregation), "max_threshold");
  }

  lemma SpikeReadsOnlyTaggedKeys(b: RuleBase, doc: Document, doc': Document)
    requires AgreeOn(doc, doc', VariantKeys(Spike))
    ensures DecodeSpike(b, doc) == DecodeSpike(b, doc')
  {
    IntAgrees(doc, doc', VariantKeys(Spike), "threshold_cur");
    IntAgrees(doc, doc', VariantKeys(Spike), "threshold_ref");
    IntAgrees(doc, doc', VariantKeys(Spike), "spike_height");
    StringAgrees(doc, doc', VariantKeys(Spike), "spike_type");
  }

  lemma SpikeAggregationReadsOnlyTaggedKeys(b: RuleBase, doc: Document, doc': Document)
    requires AgreeOn(doc, doc', VariantKeys(SpikeAggregation))
    ensures DecodeSpikeAggregation(b, doc) == DecodeSpikeAggregation(b, doc')
  {
    StringAgrees(doc, doc', VariantKeys(SpikeAggregation), "buffer_time");
    StringAgrees(doc, doc', VariantKeys(SpikeAggregation), "metric_agg_key");
    StringAgrees(doc, doc', VariantKeys(SpikeAggregation), "metric_agg_type");
    StringAgrees(doc, doc', VariantKeys(SpikeAggregation), "query_key");
    StringAgrees(doc, doc', VariantKeys(SpikeAggregation), "doc_type");
    IntAgrees(doc, doc', VariantKeys(SpikeAggregation), "threshold_cur");
    IntAgrees(doc, doc', VariantKeys(SpikeAggregation), "threshold_ref");
    IntAgrees(doc, doc', VariantKeys(SpikeAggregation), "spike_height");
    StringAgrees(doc, doc', VariantKeys(SpikeAggregation), "spike_type");
  }

  /** Setting a key that no tag of the variant names leaves the decoded rule as it was. */
  lemma UntaggedKeyIgnored(k: RuleKind, doc: Document, key: string, v: Value)
    requires key !in BaseKeys && key !in VariantKeys(k)
    ensures DecodeRule(k, doc[key := v]) == DecodeRule(k, doc)
  {
    DecodeReadsOnlyTaggedKeys(k, doc[key := v], doc);
  }

  // Encoding: a rule file written back from a rule, each field under its tag.

  function Strs(ss: seq<string>): seq<Value> {
    seq(|ss|, i requires 0 <= i < |ss| => VStr(ss[i]))
  }

  function EncodeFloat(f: Float64): Value {
    match f
    case Bits(bits) => VFloat(bits)
    case OfInt(i) => VInt(i)
  }

  /** The base's fields under the base's tags. */
  function EncodeBase(b: RuleBase): (doc: Document)
    ensures doc.Keys == BaseKeys
  {
    map["name" := VStr(b.name), "type" := VStr(b.typ), "index" := VStr(b.index),
        "description" := VStr(b.description), "num_events" := VInt(b.numEvents),
        "timeframe" := VStr(b.timeFrame), "filter" := b.filter,
        "alert" := VList(Strs(b.alert)), "email" := VList(Strs(b.email))]
  }

  /** The fields of `r` beyond its base, under the tags of its variant. */
  function EncodeVariant(r: Rule): (doc: Document)
    ensures doc.Keys == VariantKeys(r.Kind())
  {
    match r
    case CardinalityRule(_, _, _) => EncodeCardinality(r)
    case ChangeRule(_, _, _, _) => EncodeChange(r)
    case FrequencyRule(_) => map[]
    case NewTermRule(_, _, _) => EncodeNewTerm(r)
    case PercentageMatchRule(_, _, _, _, _, _, _, _, _, _) => EncodePercentageMatch(r)
    case MetricAggregationRule(_, _, _, _, _, _, _, _, _, _, _, _) => EncodeMetricAggregation(r)
    case SpikeRule(_, _, _, _, _) => EncodeSpike(r)
    case SpikeAggregationRule(_, _, _, _, _, _, _, _, _, _) => EncodeSpikeAggregation(r)
  }

  function EncodeCardinality(r: Rule): (doc: Document)
    requires r.CardinalityRule?
    ensures doc.Keys == VariantKeys(Cardinality)
  {
    map["cardinality_field" := VStr(r.cardinalityField), "min_cardinality" := VInt(r.minCardinality)]
  }

  function EncodeChange(r: Rule): (doc: Document)
    requires r.ChangeRule?
    ensures doc.Keys == VariantKeys(Change)
  {
    map["compare_key" := VStr(r.compareKey), "ignore_null" := VBool(r.ignoreNull),
      "query_key" := VStr(r.queryKey)]
  }

  function EncodeNewTerm(r: Rule): (doc: Document)
    requires r.NewTermRule?
    ensures doc.Keys == VariantKeys(NewTerm)
  {
    map["fields" := VList(Strs(r.fields)), "terms_window_size" := VStr(r.termsWindowSize)]
  }

  function EncodePercentageMatch(r: Rule): (doc: Document)
    requires r.PercentageMatchRule?
    ensures doc.Keys == VariantKeys(PercentageMatch)
  {
    map["buffer_time" := VStr(r.bufferTime), "query_key" := VStr(r.queryKey),
      "doc_type" := VStr(r.docType), "min_percentage" := VInt(r.minPercentage),
      "max_percentage" := VInt(r.maxPercentage), "bucket_interval" := VStr(r.bucketInterval),
      "sync_bucket_interval" := VBool(r.syncBucketInterval),
      "allow_buffer_time_overlap" := VBool(r.allowBufferTimeOverlap),
      "use_run_every_query_size" := VBool(r.useRunEveryQuerySize)]
  }

  function EncodeMetricAggregation(r: Rule): (doc: Document)
    requires r.MetricAggregationRule?
    ensures doc.Keys == VariantKeys(MetricAggregation)
  {
    map["buffer_time" := VStr(r.bufferTime), "metric_agg_key" := VStr(r.metricAggKey),
      "metric_agg_type" := VStr(r.metricAggType), "query_key" := VStr(r.queryKey),
      "doc_type" := VStr(r.docType), "bucket_interval" := VStr(r.bucketInterval),
      "sync_bucket_interval" := VBool(r.syncBucketInterval),
      "allow_buffer_time_overlap" := VBool(r.allowBufferTimeOverlap),
      "use_run_every_query_size" := VBool(r.useRunEveryQuerySize),
      "min_threshold" := EncodeFloat(r.minThreshold), "max_threshold" := EncodeFloat(r.maxThreshold)]
  }

  function EncodeSpike(r: Rule): (doc: Document)
    requires r.SpikeRule?
    ensures doc.Keys == VariantKeys(Spike)
  {
    map["threshold_cur" := VInt(r.thresholdCur), "threshold_ref" := VInt(r.thresholdRef),
      "spike_height" := VInt(r.spikeHeight), "spike_type" := VStr(r.spikeType)]
  }

  function EncodeSpikeAggregation(r: Rule): (doc: Document)
    requires r.SpikeAggregationRule?
    ensures doc.Keys == VariantKeys(SpikeAggregation)
  {
    map["buffer_time" := VStr(r.bufferTime), "metric_agg_key" := VStr(r.metricAggKey),
      "metric_agg_type" := VStr(r.metricAggType), "query_key" := VStr(r.queryKey),
      "doc_type" := VStr(r.docType), "threshold_cur" := VInt(r.thresholdCur),
      "threshold_ref" := VInt(r.thresholdRef), "spike_height" := VInt(r.spikeHeight),
      "spike_type" := VStr(r.spikeType)]
  }

  /** A whole rule file for `r`: its base and its variant's fields side by side. */
  function Encode(r: Rule): Document {
    EncodeBase(r.base) + EncodeVariant(r)
  }

  /** No tag of a variant repeats a tag of the base. */
  lemma {:induction false} TagsDisjoint(k: RuleKind)
    ensures BaseKeys !! VariantKeys(k)
  {
    match k {
      case Cardinality => CardinalityTagsDisjoint();
      case Change => ChangeTagsDisjoint();
      case NewTerm => NewTermTagsDisjoint();
      case PercentageMatch => PercentageMatchTagsDisjoint();
      case MetricAggregation => MetricAggregationTagsDisjoint();
      case Spike => SpikeTagsDisjoint();
      case SpikeAggregation => SpikeAggregationTagsDisjoint();
      case Frequency =>
    }
  }

  lemma CardinalityTagsDisjoint()
    ensures BaseKeys !! VariantKeys(Cardinality)
  {
  }

  lemma ChangeTagsDisjoint()
    ensures BaseKeys !! VariantKeys(Change)
  {
  }

  lemma NewTermTagsDisjoint()
    ensures BaseKeys !! VariantKeys(NewTerm)
  {
  }

  lemma PercentageMatchTagsDisjoint()
    ensures BaseKeys !! VariantKeys(PercentageMatch)
  {
  }

  lemma MetricAggregationTagsDisjoint()
    ensures BaseKeys !! VariantKeys(MetricAggregation)
  {
  }

  lemma SpikeTagsDisjoint()
    ensures BaseKeys !! VariantKeys(Spike)
  {
  }

  lemma SpikeAggregationTagsDisjoint()
    ensures BaseKeys !! VariantKeys(SpikeAggregation)
  {
  }

  // Each field decoder reads back the value its encoder wrote.

  lemma StringReadBack(doc: Document, key: string, s: string)
    requires key in doc && doc[key] == VStr(s)
    ensures DecodeString(doc, key) == Some(s)
  {
  }

  lemma IntReadBack(doc: Document, key: string, i: int)
    requires key in doc && doc[key] == VInt(i)
    ensures DecodeInt(doc, key) == Some(i)
  {
  }

  lemma BoolReadBack(doc: Document, key: string, b: bool)
    requires key in doc && doc[key] == VBool(b)
    ensures DecodeBool(doc, key) == Some(b)
  {
  }

  lemma FloatReadBack(doc: Document, key: string, f: Float64)
    requires key in doc && doc[key] == EncodeFloat(f)
    ensures DecodeFloat(doc, key) == Some(f)
  {
  }

  lemma StringsReadBack(doc: Document, key: string, ss: seq<string>)
    requires key in doc && doc[key] == VList(Strs(ss))
    ensures DecodeStrings(doc, key) == Some(ss)
  {
    StrsDecode(ss);
  }

  lemma StrsDecode(ss: seq<string>)
    ensures forall v :: v in Strs(ss) ==> TextItem(v)
    ensures Texts(Strs(ss)) == ss
  {
  }

  /** The base written out decodes to itself, but for the untagged start time. */
  lemma DecodeEncodeBase(b: RuleBase)
    requires b.initialStartTime == ZeroTime
    ensures DecodeBase(EncodeBase(b)) == Some(b)
  {
    StrsDecode(b.alert);
    StrsDecode(b.email);
  }

  /** The variant's fields written out decode to the same rule over its base. */
  lemma {:induction false} DecodeEncodeVariant(r: Rule)
    ensures DecodeFields(r.Kind(), r.base, EncodeVariant(r)) == Some(r)
  {
    match r {
      case CardinalityRule(_, _, _) => DecodeEncodeCardinality(r);
      case ChangeRule(_, _, _, _) => DecodeEncodeChange(r);
      case NewTermRule(_, _, _) => DecodeEncodeNewTerm(r);
      case PercentageMatchRule(_, _, _, _, _, _, _, _, _, _) => DecodeEncodePercentageMatch(r);
      case MetricAggregationRule(_, _, _, _, _, _, _, _, _, _, _, _) =>
        DecodeEncodeMetricAggregation(r);
        assert EncodeVariant(r) == EncodeMetricAggregation(r);
      case SpikeRule(_, _, _, _, _) => DecodeEncodeSpike(r);
      case SpikeAggregationRule(_, _, _, _, _, _, _, _, _, _) => DecodeEncodeSpikeAggregation(r);
      case FrequencyRule(_) =>
    }
  }

  lemma DecodeEncodeCardinality(r: Rule)
    requires r.CardinalityRule?
    ensures DecodeCardinality(r.base, EncodeCardinality(r)) == Some(r)
    ensures DecodeFields(r.Kind(), r.base, EncodeVariant(r)) == Some(r)
  {
  }

  lemma DecodeEncodeChange(r: Rule)
    requires r.ChangeRule?
    ensures DecodeChange(r.base, EncodeChange(r)) == Some(r)
    ensures DecodeFields(r.Kind(), r.base, EncodeVariant(r)) == Some(r)
  {
  }

  lemma DecodeEncodeNewTerm(r: Rule)
    requires r.NewTermRule?
    ensures DecodeNewTerm(r.base, EncodeNewTerm(r)) == Some(r)
    ensures DecodeFields(r.Kind(), r.base, EncodeVariant(r)) == Some(r)
  {
    StrsDecode(r.fields);
  }

  lemma DecodeEncodePercentageMatch(r: Rule)
    requires r.PercentageMatchRule?
    ensures DecodePercentageMatch(r.base, EncodePercentageMatch(r)) == Some(r)
    ensures DecodeFields(r.Kind(), r.base, EncodeVariant(r)) == Some(r)
  {
    var doc := EncodePercentageMatch(r);
    StringReadBack(doc, "buffer_time", r.bufferTime);
    StringReadBack(doc, "query_key", r.queryKey);
    StringReadBack(doc, "doc_type", r.docType);
    IntReadBack(doc, "min_percentage", r.minPercentage);
    IntReadBack(doc, "max_percentage", r.maxPercentage);
    StringReadBack(doc, "bucket_interval", r.bucketInterval);
    BoolReadBack(doc, "sync_bucket_interval", r.syncBucketInterval);
    BoolReadBack(doc, "allow_buffer_time_overlap", r.allowBufferTimeOverlap);
    BoolReadBack(doc, "use_run_every_query_size", r.useRunEveryQuerySize);
  }

  lemma DecodeEncodeMetricAggregation(r: Rule)
    requires r.MetricAggregationRule?
    ensures DecodeMetricAggregation(r.base, EncodeMetricAggregation(r)) == Some(r)
  {
    var doc := EncodeMetricAggregation(r);
    StringReadBack(doc, "buffer_time", r.bufferTime);
    StringReadBack(doc, "metric_agg_key", r.metricAggKey);
    StringReadBack(doc, "metric_agg_type", r.metricAggType);
    StringReadBack(doc, "query_key", r.queryKey);
    StringReadBack(doc, "doc_type", r.docType);
    StringReadBack(doc, "bucket_interval", r.bucketInterval);
    BoolReadBack(doc, "sync_bucket_interval", r.syncBucketInterval);
    BoolReadBack(doc, "allow_buffer_time_overlap", r.allowBufferTimeOverlap);
    BoolReadBack(doc, "use_run_every_query_size", r.useRunEveryQuerySize);
    FloatReadBack(doc, "min_threshold", r.minThreshold);
    FloatReadBack(doc, "max_threshold", r.maxThreshold);
  }

  lemma DecodeEncodeSpike(r: Rule)
    requires r.SpikeRule?
    ensures DecodeSpike(r.base, EncodeSpike(r)) == Some(r)
    ensures DecodeFields(r.Kind(), r.base, EncodeVariant(r)) == Some(r)
  {
    var doc := EncodeSpike(r);
    IntReadBack(doc, "threshold_cur", r.thresholdCur);
    IntReadBack(doc, "threshold_ref", r.thresholdRef);
    IntReadBack(doc, "spike_height", r.spikeHeight);
    StringReadBack(doc, "spike_type", r.spikeType);
  }

  lemma DecodeEncodeSpikeAggregation(r: Rule)
    requires r.SpikeAggregationRule?
    ensures DecodeSpikeAggregation(r.base, EncodeSpikeAggregation(r)) == Some(r)
    ensures DecodeFields(r.Kind(), r.base, EncodeVariant(r)) == Some(r)
  {
    var doc := EncodeSpikeAggregation(r);
    StringReadBack(doc, "buffer_time", r.bufferTime);
    StringReadBack(doc, "metric_agg_key", r.metricAggKey);
    StringReadBack(doc, "metric_agg_type", r.metricAggType);
    StringReadBack(doc, "query_key", r.queryKey);
    StringReadBack(doc, "doc_type", r.docType);
    IntReadBack(doc, "threshold_cur", r.thresholdCur);
    IntReadBack(doc, "threshold_ref", r.thresholdRef);
    IntReadBack(doc, "spike_height", r.spikeHeight);
    StringReadBack(doc, "spike_type", r.spikeType);
  }

  /** Decoding a rule file written from `r` gives `r` back: every field goes out
      under its tag and comes back from it. */
  lemma {:induction false} DecodeEncode(r: Rule)
    requires r.base.initialStartTime == ZeroTime
    ensures DecodeRule(r.Kind(), Encode(r)) == Some(r)
  {
    var k, doc := r.Kind(), Encode(r);
    TagsDisjoint(k);
    assert AgreeOn(doc, EncodeBase(r.base), BaseKeys);
    DecodeBaseReadsOnlyBaseKeys(doc, EncodeBase(r.base));
    DecodeEncodeBase(r.base);
    assert AgreeOn(doc, EncodeVariant(r), VariantKeys(k));
    FieldsReadOnlyTaggedKeys(k, r.base, doc, EncodeVariant(r));
    DecodeEncodeVariant(r);
  }
}
