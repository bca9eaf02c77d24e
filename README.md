# go-elastalert rule pipeline, modelled in Dafny

This project models the core of go-elastalert, an alerter that polls Elasticsearch on a fixed interval and evaluates alerting rules. The modelled core is the rule pipeline without its I/O:

- **Rules** (`rule.dfy`, from `rule.go`). One `Rule` datatype has eight variants: cardinality, change, frequency, new_term, percentage_match, metric_aggregation, spike and spike_aggregation. Each variant embeds a `RuleBase` record. The registry maps each `type` discriminator string to its kind. Decoding turns a parsed rule file into the variant its discriminator names, following the `mapstructure` tags. The base fields are squashed into the top level of the file. `InitialStartTime` is never decoded.
- **Directory scan** (`util.dfy`, from `util.go`). `Concat` joins strings. The extension filter compares the lower-cased extension with `"." + lower(suffix)`. `WalkDir` and `parallelWalkDir` are recursive functions over a directory-tree datatype. The first returns the emitted paths in walk order. The second returns the set of paths emitted by the call and by every call it spawns.
- **File rules loader** (`loader.dfy`, from `rules_loader.go`). `FileRulesLoader` is a class with fields `path`, `suffix`, `descend` and `rules`. Its constructor applies the option closures left to right over the defaults. `Load` walks the folder and loops over the candidate files. A file that cannot be read, parsed or decoded, or whose `type` is missing or unknown, is skipped. Every other file appends its rule to `rules`.
- **Alerter** (`alerter.dfy`, from `elastic_alerter.go`). It covers the search-client option list and its basic-auth condition, and `initRules`' choice of loader. `Run` is a loop over the events its `select` receives (`Tick` or `Cancel`). On each tick it makes one ordered pass over the rules and routes each rule, by its `GetType()`, to one of eight handlers.

File reading and parsing are a `FileStore`: a map from path to `Unparseable` or `Parsed(document)`, where a missing key means the read failed. A parsed document maps keys to values. The directory is a `Node` tree, absent when the walk cannot start. The duration parser is a function parameter of `Run`. A handler call is recorded as an `Invocation(handler, rule, startTime)`.

Three facts about the code that the model keeps:

- `Load` never clears `rules`, so a second call appends the rules again. It is not idempotent.
- Files are parsed one after another in a single loop, not by a bounded worker pool.
- The handlers only log, so the model has no failing evaluator to isolate. Isolation is shown for rules that no handler accepts.

As written, the source does not type-check in three places. The model follows the evident intent:

- `Load` returns an error and fills `rules`, and `initRules` then reads them with `GetRules`. The error is ignored.
- `WalkDir` yields a list of paths or an error.
- The start time is handed to each handler call rather than set on the rule.

## Model

| member | source | states |
|---|---|---|
| `Rules.GettersReadBase` | rule.go:32-42 | `GetName`, `GetType` and `GetIndex` of every variant return the embedded base's `Name`, `Typ` and `Index`. Two rules with the same base give the same answers. |
| `Rules.FrequencyIsBaseOnly` | rule.go:57-59 | A frequency rule is its base and nothing more, and its tags name no key of their own. |
| `Rules.KindOf` | rules_loader.go:78-142 | The registry knows exactly the eight discriminator strings, and the kind it returns has that string as its name. |
| `Rules.RegistryRoundTrip` | rules_loader.go:78-142 | Each kind's name maps back to that kind. A string maps to a kind exactly when it is that kind's name. |
| `Rules.DecodeString` | rule.go:19-22 | A string field decodes exactly when its key is absent, null or a string, and it is then that string, or `""` for absent or null. |
| `Rules.DecodeInt` | rule.go:23 | An `int` field decodes exactly when its key is absent, null or an integer, and it is then that integer, or 0 for absent or null. |
| `Rules.DecodeBool` | rule.go:53 | A `bool` field decodes exactly when its key is absent, null or a boolean, and it is then that boolean, or false for absent or null. |
| `Rules.DecodeFloat` | rule.go:91-92 | A `float64` field decodes exactly when its key is absent, null, a float or an integer. An integer is converted, and absent or null gives 0. |
| `Rules.StringItems` | rule.go:26-27 | A list decodes into `[]string` exactly when every item is a string or null. Each element is then its item's string, with `""` for null. |
| `Rules.DecodeStrings` | rule.go:26-27 | A `[]string` field decodes exactly when its key is absent, null or such a list, and it is then those elements, or empty for absent or null. |
| `Rules.DecodeBase` | rule.go:18-30 | The base decodes exactly when each of its eight typed tags holds a value its field can take. Each field is then the value under its tag, `Filter` is whatever value is there, and the start time is zero. |
| `Rules.DecodeRule` | rule.go:44-114 | A decode succeeds exactly when the base's tags and the variant's tags all hold values their fields can take. The rule is then of the requested variant, its base is the base decoding of the same file, and its start time is zero. |
| `Rules.DecodeFields` | rule.go:44-114 | The fields beyond the base decode exactly when the variant's tags all hold values their fields can take. The rule is then of the requested variant, over the given base. |
| `Rules.DecodeCardinality` | rule.go:44-48 | Succeeds exactly when `cardinality_field` and `min_cardinality` can fill a string and an `int`. The rule then carries the values under those tags, over the given base. |
| `Rules.DecodeChange` | rule.go:50-55 | Succeeds exactly when `compare_key`, `ignore_null` and `query_key` can fill a string, a `bool` and a string. The rule then carries the values under those tags in those fields, over the given base. |
| `Rules.DecodeFrequency` | rule.go:57-59 | Always succeeds, with the given base and nothing else. |
| `Rules.DecodeNewTerm` | rule.go:61-65 | Succeeds exactly when `fields` can fill a `[]string` and `terms_window_size` a string. The rule then carries those values, over the given base. |
| `Rules.DecodePercentageMatch` | rule.go:67-78 | Succeeds exactly when each of its nine tags can fill its field. The rule then carries the value under each tag in that tag's field, over the given base. |
| `Rules.DecodeMetricAggregation` | rule.go:80-93 | Succeeds exactly when each of its eleven tags can fill its field, the two thresholds taking a float or an integer. The rule then carries the value under each tag in that tag's field, over the given base. |
| `Rules.DecodeSpike` | rule.go:95-101 | Succeeds exactly when the three `int` tags and `spike_type` can fill their fields. The rule then carries the values under those tags, over the given base. |
| `Rules.DecodeSpikeAggregation` | rule.go:103-114 | Succeeds exactly when each of its nine tags can fill its field. The rule then carries the value under each tag in that tag's field, over the given base. |
| `Rules.EncodeBase` | rule.go:18-30 | Writing a base out uses exactly the base's nine tags, and never one for the start time. |
| `Rules.EncodeVariant` | rule.go:44-114 | Writing a rule's own fields out uses exactly its variant's tags. |
| `Rules.DecodeEncodeBase` | rule.go:18-30 | A base written out under its tags decodes back to itself when its start time is zero. |
| `Rules.DecodeEncodeVariant` | rule.go:44-114 | A rule's own fields written out under its variant's tags decode back to the same rule over its base. |
| `Rules.DecodeEncode` | rule.go:18-114 | A rule with zero start time, written out with every field under its tag, decodes back to the same rule for its own kind. |
| `Rules.TagsDisjoint` | rule.go:44-114 | No variant's tag repeats one of the base's tags, so squashing the base into the top level is unambiguous. |
| `Rules.DecodedRuleAgrees` | rule.go:29 | A rule decoded for the kind its file's `type` names agrees with that tag and has the zero start time, whatever else the file holds. |
| `Rules.DecodeReadsOnlyTaggedKeys` | rule.go:18-114 | Two files that agree on the keys the variant's tags name decode to the same result. |
| `Rules.DecodeBaseReadsOnlyBaseKeys` | rule.go:18-30 | Two files that agree on the base's tagged keys decode to the same base. |
| `Rules.CardinalityReadsOnlyTaggedKeys` | rule.go:44-48 | Two files that agree on the keys the cardinality fields' tags name decode to the same cardinality rule over a given base. |
| `Rules.ChangeReadsOnlyTaggedKeys` | rule.go:50-55 | Two files that agree on the keys the change fields' tags name decode to the same change rule over a given base. |
| `Rules.NewTermReadsOnlyTaggedKeys` | rule.go:61-65 | Two files that agree on the keys the new-term fields' tags name decode to the same new-term rule over a given base. |
| `Rules.PercentageMatchReadsOnlyTaggedKeys` | rule.go:67-78 | Two files that agree on the keys the percentage-match fields' tags name decode to the same percentage-match rule over a given base. |
| `Rules.MetricAggregationReadsOnlyTaggedKeys` | rule.go:80-93 | Two files that agree on the keys the metric-aggregation fields' tags name decode to the same metric-aggregation rule over a given base. |
| `Rules.SpikeReadsOnlyTaggedKeys` | rule.go:95-101 | Two files that agree on the keys the spike fields' tags name decode to the same spike rule over a given base. |
| `Rules.SpikeAggregationReadsOnlyTaggedKeys` | rule.go:103-114 | Two files that agree on the keys the spike-aggregation fields' tags name decode to the same spike-aggregation rule over a given base. |
| `Rules.UntaggedKeyIgnored` | rule.go:29 | Setting any key that no tag names leaves the decoded rule unchanged. This includes a key meant for the start time. |
| `Util.Concat` | util.go:18-24 | The buffer loop returns the in-order concatenation of its arguments, and `""` for none. |
| `Util.FlattenAppend` | util.go:18-24 | Concatenating two argument lists concatenates their results. |
| `Util.Ext` | util.go:38 | The extension is a suffix of the path that starts with '.' and holds no other '.' or '/'. It is empty exactly when the last path element has no '.'. |
| `Util.ExtOfEnding` | util.go:38 | A path ending in '.' and a run of characters other than '.' and '/' has that ending as its extension. |
| `Util.ExtWithoutDot` | util.go:38 | A path with no '.' has the empty extension. |
| `Util.TargetExt` | util.go:27 | The target extension is "." followed by the lower-cased suffix. |
| `Util.Selected` | util.go:38 | A selected path ends with the target extension, in upper or lower case, and a non-empty target then starts with '.'. |
| `Util.SuffixCaseInsensitive` | util.go:27 | Suffixes that differ only in case select the same paths. |
| `Util.SelectedExamples` | util.go:38 | `YAML` and `yaml` give the same target. `a.YAML` matches suffix `yaml`, and neither `a.yml` nor `rules.yaml/a` does. |
| `Util.TargetExtExamples` | util.go:27 | Suffixes `YAML` and `yaml` both give the target `.yaml`. |
| `Util.Join` | util.go:31 | A joined child path is longer than its directory, so it never equals the walk's root. |
| `Util.Choose` | util.go:31-40 | The filter keeps exactly the entries that are files, or the root itself, whose extension is the target. |
| `Util.Walk` | util.go:30-42 | Every path the walk emits from a subtree has the target extension. |
| `Util.WalkEntries` | util.go:30-42 | Every path the walk emits from a directory's entries has the target extension. |
| `Util.WalkDir` | util.go:26-46 | The walk fails exactly when its root cannot be walked, and the error names that root. Otherwise every emitted path has the target extension. |
| `Util.WalkDescending` | util.go:30-42 | When descending, `WalkDir` emits, in pre-order, every file of the tree whose extension is the target, plus the root if it matches, and never a subdirectory. |
| `Util.WalkShallow` | util.go:31-35 | When not descending, every directory below the root is skipped. Only the root and the files directly under it can be emitted. |
| `Util.WalkDirChoosesFiles` | util.go:26-46 | Every emitted path matches the target and is the root or a file of the tree. When descending, every matching file is emitted. |
| `Util.ParallelWalk` | util.go:64-88 | Every path a call and the calls it spawns emit has the target extension. |
| `Util.ParallelWalkEntries` | util.go:73-87 | Every path emitted for a directory's entries, or by the calls spawned for them, has the target extension. |
| `Util.NoSpawnWithoutDescend` | util.go:75-79 | When not descending, the parallel walk spawns no child walk. |
| `Util.ParallelWalkEmitsSubdirectory` | util.go:73-84 | As written, an empty subdirectory whose name matches is emitted by the parallel walk but not by `WalkDir`. |
| `Util.SubdirectoryExample` | util.go:82 | The directory `rules/old.yaml` under `rules` meets that lemma's conditions for suffix `yaml`. |
| `Util.ParallelWalkAsWritten` | util.go:64-88 | As written, the parallel walk emits every path `WalkDir` emits. When not descending, it emits exactly those. |
| `Util.ParallelWalkBounds` | util.go:73-85 | As written, the only extra paths the parallel walk emits are subdirectories of the tree whose extension is the target. |
| `Util.ParallelWalkFixedMatchesWalkDir` | util.go:64-88 | The corrected parallel walk, with one recursive call per subdirectory and the same filter, emits exactly the set `WalkDir` emits. |
| `Loader.ApplyOption` | rules_loader.go:46-57 | `SetSuffix` changes only the suffix and `SetDescend` changes only the descend flag. The path is never changed. |
| `Loader.Configure` | rules_loader.go:38-40 | Applying the options keeps the path. The suffix and the descend flag each keep their default or take a value that one of the options sets. |
| `Loader.ConfigureLastWins` | rules_loader.go:38-40 | When the options are applied left to right, the last `SetSuffix` and the last `SetDescend` win. Without them the defaults stay. |
| `Loader.FileRulesLoader.constructor` | rules_loader.go:31-43 | A new loader has the settings that the options give when applied over `path`, `"yaml"` and descend, and it has no rules. |
| `Loader.FileRulesLoader.Apply` | rules_loader.go:38-40 | Calling one option closure changes the settings as that option says and keeps the rules. |
| `Loader.DiscriminatorByType` | rules_loader.go:78 | A file names a kind exactly when its `type` is a string among the eight known ones, and that kind's name is that string. |
| `Loader.LoadOne` | rules_loader.go:68-142 | A file yields a rule only if it is read and parsed. Its `type` is then the rule's `GetType()`, one of the known strings, naming the rule's own variant. The start time is zero. A missing or unknown `type` yields nothing. |
| `Loader.LoadOneSucceeds` | rules_loader.go:68-142 | A file yields a rule exactly when it is read and parsed, its `type` is a known string, and the decode for that kind succeeds. |
| `Loader.UnknownTypeSkipped` | rules_loader.go:78-142 | A file whose `type` is not one of the known strings yields nothing, because no case of the switch matches it. |
| `Loader.LoadAll` | rules_loader.go:67-143 | Loading yields at most one rule per candidate file. |
| `Loader.LoadFile` | rules_loader.go:68-142 | One pass of the loop body yields exactly what the file yields: nothing when it cannot be read or parsed, has no known `type`, or does not decode. |
| `Loader.LoadAllStep` | rules_loader.go:67-143 | One more iteration of the loop appends exactly what that file yields. |
| `Loader.LoadAllAppend` | rules_loader.go:67-143 | Loading a concatenation of file lists loads each part independently, so a skipped file never stops the files after it. |
| `Loader.SkipOnlyThatFile` | rules_loader.go:68-76 | A file that yields nothing contributes nothing, and the files around it are loaded as without it. |
| `Loader.LoadAllCompacts` | rules_loader.go:67-143 | There is at most one rule per file, in file order. The surviving positions strictly increase, every other file yields nothing, and the count is the number of files less the skipped ones. |
| `Loader.LoadAllAgrees` | rules_loader.go:78-141 | Every loaded rule's `GetType()` is a known string naming its own variant, and every start time is zero. |
| `Loader.ThreeFileExample` | rules_loader.go:78-142 | Files typed `frequency`, `bogus` and `spike` load as the first and the third rule, in order. |
| `Loader.FileRulesLoader.Load` | rules_loader.go:59-146 | On a walk error, the error is returned and `rules` is unchanged. Otherwise the candidate files' rules are appended after the existing ones, so a second load appends again. |
| `Loader.FileRulesLoader.LoadFiles` | rules_loader.go:67-143 | The loop over the candidate files appends, after the existing rules, exactly the rules those files yield, in order. |
| `Loader.FileRulesLoader.GetRules` | rules_loader.go:148-150 | Returns exactly the accumulated rules. |
| `Alerter.ClientOptions` | elastic_alerter.go:82-90 | The URL, no-sniff, HTTP-client and GET-body options always come first. A basic-auth option is present exactly when the username or the password is non-empty, it carries both, and it is the only other option: five options with it, four without. |
| `Alerter.ElasticAlerter.InitEsClient` | elastic_alerter.go:81-97 | The alerter keeps exactly those client options. |
| `Alerter.ElasticAlerter.constructor` | elastic_alerter.go:30-31 | The start time is fixed when the alerter is built. |
| `Alerter.ElasticAlerter.InitRules` | elastic_alerter.go:99-109 | It is fatal exactly when the loader name is not `FileRulesLoader`. Otherwise a new file loader is used, with suffix `yaml` and descend set to `ScanSubdirectories`, and the alerter's rules are that loader's rules after loading. |
| `Alerter.NewElasticAlerter` | elastic_alerter.go:30-40 | Builds the alerter with the start time and the client options, and loads the rules unless the loader name is fatal. |
| `Alerter.ElasticAlerter.Dispatch` | elastic_alerter.go:128-178 | The type switch calls a handler exactly when the rule's type names its own variant. It calls that variant's handler with the alerter's start time. |
| `Alerter.ElasticAlerter.OnTick` | elastic_alerter.go:126-180 | One tick's pass over the rules makes exactly the calls the tick specification gives: one per rule whose type names its variant, in order, with the start time. |
| `Alerter.RouteByType` | elastic_alerter.go:129-177 | A rule reaches a handler exactly when its `GetType()` is the name of its own variant. The handler is then that variant's, the one the string names. |
| `Alerter.TickInvocations` | elastic_alerter.go:127-178 | One tick makes at most one handler call per rule. |
| `Alerter.TickAppend` | elastic_alerter.go:127-180 | A tick over concatenated rule lists is the two ticks in sequence. |
| `Alerter.SkippedRuleIsolated` | elastic_alerter.go:130-178 | A rule with an unknown type, or of a variant other than its type names, is skipped. The rules before and after it are dispatched as without it. |
| `Alerter.TickInvocationsSound` | elastic_alerter.go:127-178 | A tick makes at most one call per rule. Every call goes to the handler the rule's `GetType()` names, carries the start time, and is for one of the rules. |
| `Alerter.TickDispatchesAll` | elastic_alerter.go:127-180 | When every rule names its own variant, a tick makes one call per rule, in the stored order. |
| `Alerter.InitialRulesAllDispatched` | elastic_alerter.go:99-109 | Every rule `initRules` loads is offered to its own handler on every tick, in load order. |
| `Alerter.ElasticAlerter.Run` | elastic_alerter.go:111-183 | An unparseable interval is fatal before any tick. So is a non-positive one, which the ticker refuses. Otherwise the calls made are one full tick pass per `Tick` received before the first `Cancel`, back to back, with nothing after it. The loop ends as cancelled exactly when a `Cancel` arrives. |

## Left out

- The goroutines, channels, `WaitGroup` and the capacity-1000 admission semaphore of `ParallelWalkDir` are concurrency. Only the set of emitted paths is modelled, so neither order nor deadlock freedom is stated.
- `filepath.Join`'s path cleaning is not modelled: entries are joined with a single "/".
- A directory's entries are taken in the order the tree lists them, which stands for the sorted order `filepath.Walk` reads them in.
- `WalkDir` has no error return. When the root cannot be walked, `filepath.Walk` calls the visitor with a nil `FileInfo`, and `fi.IsDir()` (util.go:31) panics in the walking goroutine. The model replaces that panic with the `RootMissing` error. `Load` returns it, and `initRules` ignores it, so the alerter goes on with no rules. The same nil dereference for an entry below the root whose Lstat fails is not modelled, and neither are symbolic links.
- `strings.ToLower` is modelled for ASCII letters only. Unicode case mapping is not part of this model.
- `ioutil.ReadFile`, `viper.SetConfigType`/`ReadConfig` and the global viper instance are the `FileStore` oracle. Parsing with the loader's suffix as the format is folded into it.
- Viper's case-insensitive keys are not modelled: documents are taken with their keys already lower-cased.
- Rules.DecodeRule: decodes a field only from a value of its own shape, from null, or from an absent key. A null list item becomes `""`, as mapstructure leaves the element at its zero value. mapstructure always truncates a float written for an `int` field, whatever the weak-typing setting. Floats are opaque bit patterns here, so the model cannot truncate them and treats such a file as undecodable. viper's weakly typed input, which is on by default, and its decode hooks are not modelled either. A number written as a string, a boolean written as a number, or a string to be split into a list are all decode failures in the model. Go's 64-bit integer range is not modelled.
- The float64 thresholds are opaque values and are never computed with. `time.Time` is an integer instant with 0 as the zero time.
- `str2duration.ParseDuration` is the `parseDuration` parameter of `Run`. `time.Ticker` is the event sequence: when the timer fires faster than ticks are handled, the coalesced events are simply what the sequence holds. When both channels are ready, `select`'s random choice is folded into the order of that sequence.
- The `run*` handlers only log. Each call is recorded as an invocation, and logging in general is not modelled.
- TLS and HTTP client construction (`getHttpClient`) and `elastic.NewClient` with its fatal error are foreign libraries. Only the option list and its basic-auth condition are modelled.
- config.go (viper configuration loading) and cmd/main.go (signal handling and context cancellation) are not part of this model. Cancellation appears as the `Cancel` event.

## Findings

| source | as written | input that shows it | evidently intended | confidence | as-written member | corrected member |
|---|---|---|---|---|---|---|
| util.go:73-84 | A call spawned for a subdirectory walks that subdirectory as its own root. `path != dir` is false for it, so the subdirectory's own name is tested against the extension and emitted when it matches. | A tree `rules` holding an empty directory `old.yaml`, with suffix `yaml` and descend on. `ParallelWalkDir` emits `rules/old.yaml`, while `WalkDir` emits nothing. | The same paths as `WalkDir`: below the root, only files. | not executed | `Util.ParallelWalkEmitsSubdirectory` | `Util.ParallelWalkFixedMatchesWalkDir` |
