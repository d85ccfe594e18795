# yard-lint core, modelled in Dafny

yard-lint runs YARD documentation checks ("validators") over a Ruby code base
and reports offenses. This project models its core as pure functions over
immutable values and proves properties of them:

- **Configuration loading** (`ConfigLoader`). The built-in validator tables.
  The recursive `merge_configs`. Loading a `.yard-lint.yml` together with
  everything it inherits through `inherit_from` and `inherit_gem`: the circular
  check, skipped missing files, gem warnings, and the order of precedence.
- **Configuration** (`Config`, `ConfigValue`). Building the per-validator
  configuration from the defaults, the department blocks and the validator
  blocks. The getters with their fallbacks, and the setters.
- **Command cache** (`CommandCache`). Whitespace-normalised cache keys,
  hit/miss accounting, and the results a sequence of executions returns.
- **Orchestration** (`Runner`). Running the enabled validators, and building
  composite and standard results from their raw output.
- **Offense aggregation** (`LintResult`, `ValidatorResults`). The offense
  families of `Yard::Lint::Result`, counts, statistics and the exit code. The
  per-validator result classes of the warnings, option-tags, API-tags and
  example-syntax validators.
- **Output parsers** (`Parsers`, `LineRegex`, `ParserProperties`). The line
  regexes, read as predicates over split points, with matchers that find the
  first reading in Ruby's backtracking order. The parsers for undocumented
  objects, undocumented method arguments, meaningless tags, tag type position
  and example syntax. Each parser has a round-trip proof: printing a list of
  reports and parsing the text gives the list back.
- **Message builders** (`Messages`, `MessageExamples`). The offense messages,
  including the collection-type rewrite `Hash<K, V>` to `Hash{K => V}`.

How the model stands in for the parts it cannot see:

- Configuration values are `Value`s. Ruby hashes are ordered association
  lists, because hash order matters to `inherit_gem`.
- Records are maps from symbol names to `Field`s.
- The file system, YAML and RubyGems become a `Store` of parsed documents and
  path functions.
- Running a shell command becomes a function parameter.
- The validator class registry becomes a `Registry` from names to modules.
  The runner and builder are proved for any registry. `ValidatorRegistry.Shipped`
  fixes the one composite the gem ships and keeps the other modules as a
  parameter.
- `warn` writes to standard error at once, so a warning survives a later
  raise. The loader keeps its warnings in a list, and a failed load returns
  them with the error, as a `Failure`.

## Model

| member | source | states |
|---|---|---|
| ConfigLoader.AllValidatorsShape | lib/yard/lint/config_loader.rb:12-38 | ALL_VALIDATORS lists 14 distinct names, each of the form Department/Name |
| ConfigLoader.MergeConfigs | lib/yard/lint/config_loader.rb:225-243 | a merge keeps every base key, keeps keys distinct, and adds no inherit_from/inherit_gem key |
| ConfigLoader.MergeConfigsLookup | lib/yard/lint/config_loader.rb:225-243 | key by key: inheritance keys and keys the override lacks keep the base value; a hash merges recursively into a hash; anything else is replaced |
| ConfigLoader.MergeConfigsEmpty | lib/yard/lint/config_loader.rb:225-243 | merging an empty override gives the base back |
| ConfigLoader.PathList | lib/yard/lint/config_loader.rb:183-186 | Array(inherit_from): nil gives no entries, a list keeps its entries in order, a hash gives its [key, value] pairs, and any other value becomes a one-element list; entries are not checked here |
| ConfigLoader.EmptyHashInheritsNothing | lib/yard/lint/config_loader.rb:183-192 | inherit_from: {} is truthy but Array({}) is empty, so nothing is inherited and nothing raises |
| ConfigLoader.HashInheritFromRaises | lib/yard/lint/config_loader.rb:184-186 | a non-empty hash under inherit_from gives [key, value] entries, and expanding the first one raises |
| ConfigLoader.NonPathRaisesWhenReached | lib/yard/lint/config_loader.rb:185-191 | each entry is checked when the loop reaches it: missing files before a non-string entry are skipped, then that entry raises with the warnings printed so far |
| ConfigLoader.LoadFile | lib/yard/lint/config_loader.rb:160-173 | a successful load marks the path visited, only grows the visited list and the warnings, and yields a map with distinct keys and no inheritance keys; a failure keeps every warning printed before it |
| ConfigLoader.LoadFileList | lib/yard/lint/config_loader.rb:183-192 | the inherit_from loop only grows the visited list and the warnings, keeps the merged map well formed, and a failure keeps the warnings printed before it |
| ConfigLoader.LoadGem | lib/yard/lint/config_loader.rb:209-219 | a non-string gem name raises; an unknown gem adds one warning and loads nothing; a known gem whose file File.join refuses raises; a joined path that does not exist loads nothing and changes nothing; a configuration found is well formed and has no inheritance keys; the visited list only grows; a failure keeps the warnings printed before it |
| ConfigLoader.JoinArg | lib/yard/lint/config_loader.rb:211 | File.join takes a string as it is and refuses anything that is neither a string nor an array |
| ConfigLoader.JoinArgStrings | lib/yard/lint/config_loader.rb:211 | an array of strings is joined component by component, the same path as the fold JoinStrings |
| ConfigLoader.JoinItemsRejects | lib/yard/lint/config_loader.rb:211 | one item File.join cannot use, anywhere in an array, makes File.join refuse the whole array |
| ConfigLoader.GemFileArray | lib/yard/lint/config_loader.rb:209-215 | a gem file given as an array of strings is looked up at the joined path, skipped without error when that path does not exist, and loaded when it does |
| ConfigLoader.WarningsSurviveRaise | lib/yard/lint/config_loader.rb:195-218 | the warning printed for an unknown gem is kept when a later gem pair raises |
| ConfigLoader.LoadInherited | lib/yard/lint/config_loader.rb:179-203 | the inherited configuration is well formed and has no inheritance keys, the visited list and the warnings only grow, and a failure keeps the warnings printed before it |
| ConfigLoader.BlockPair | lib/yard/lint/config_loader.rb:195-196 | an array item of two or more entries gives the gem name and file; any other item is the name, with a nil file |
| ConfigLoader.GemPairs | lib/yard/lint/config_loader.rb:194-200 | a hash yields its entries as (name, file) pairs in order, an array yields its items spread over the block's two parameters, and any other value has no each |
| ConfigLoader.GemArrayMatchesHash | lib/yard/lint/config_loader.rb:194-200 | an array of [name, file] pairs yields the same pairs, in order, as the hash with those entries |
| ConfigLoader.LoadGemList | lib/yard/lint/config_loader.rb:195-200 | the inherit_gem loop only grows the visited list and the warnings, keeps the merged map well formed, and a failure keeps the warnings printed before it |
| ConfigLoader.Load | lib/yard/lint/config_loader.rb:139-153 | a loaded configuration comes from an existing file and has no inheritance keys left, and the load fails exactly when loading the file fails |
| ConfigLoader.SecondLoadCircular | lib/yard/lint/config_loader.rb:160-164 | the visited list is never popped: a path that loaded once raises a circular-dependency error on any later request in the same run |
| ConfigLoader.OwnKeysWin | lib/yard/lint/config_loader.rb:166-172 | a non-hash value a file sets itself beats anything it inherits |
| ConfigLoader.MissingFilesSkipped | lib/yard/lint/config_loader.rb:186-191 | inherit_from string entries that do not exist change neither the configuration nor the loader state |
| ConfigLoader.UnknownGemsSkipped | lib/yard/lint/config_loader.rb:195-212 | unknown gems leave the configuration unchanged and print one warning each, in order |
| ConfigLoader.EmptyDocument | lib/yard/lint/config_loader.rb:165-166 | an empty YAML document loads as an empty map |
| ConfigLoader.DiamondIsCircular | lib/yard/lint/config_loader.rb:160-164 | on an example store: two files inheriting one shared ancestor make the load fail as circular, although there is no cycle |
| LoaderExamples.InheritancePrecedence | lib/yard/lint/config_loader.rb:166-200 | on an example store: the later inherit_from file beats the earlier one, a gem file beats every inherit_from file, and the file's own keys beat the gem |
| LoaderLayers.LayerSets | lib/yard/lint/config_loader.rb:225-243 | a merge layer that sets a non-inheritance key to a non-hash value decides it |
| LoaderLayers.LayerSkips | lib/yard/lint/config_loader.rb:225-243 | a merge layer that lacks a key passes the base's value through |
| LoaderLayers.FoldAppend | lib/yard/lint/config_loader.rb:179-203 | merging two runs of layers one after the other is merging their concatenation |
| LoaderLayers.FoldUntouched | lib/yard/lint/config_loader.rb:179-203 | layers that do not mention a key leave its value as it was |
| LoaderLayers.FoldLastSetterWins | lib/yard/lint/config_loader.rb:179-203 | the last layer that sets a non-inheritance key to a non-hash value decides it, whatever the starting map and the earlier layers held |
| LoaderLayers.FileLayers | lib/yard/lint/config_loader.rb:183-192 | the inherit_from layers, one per existing file and no more than the files listed, are well formed, and the visited list only grows |
| LoaderLayers.GemLayers | lib/yard/lint/config_loader.rb:194-200 | the inherit_gem layers, one per gem file found and no more than the pairs, are well formed, and the visited list only grows |
| LoaderLayers.FileListFold | lib/yard/lint/config_loader.rb:183-192 | the inherit_from loop merges exactly its file layers, in list order, onto whatever configuration it started from |
| LoaderLayers.GemListFold | lib/yard/lint/config_loader.rb:194-200 | the inherit_gem loop merges exactly the gem files found, in order, onto whatever configuration it started from |
| LoaderLayers.InheritedFold | lib/yard/lint/config_loader.rb:179-203 | load_inherited_configs merges the file layers and then the gem layers onto an empty hash |
| LoaderLayers.LaterFileWins | lib/yard/lint/config_loader.rb:183-192 | an inherit_from file that sets a key to a non-hash value decides it unless a later file sets it again, whatever came before the loop |
| LoaderLayers.LaterGemWins | lib/yard/lint/config_loader.rb:194-200 | a gem file that sets a key to a non-hash value decides it unless a later gem file sets it again, whatever the inherit_from files set |
| LoaderLayers.GemsBeatFiles | lib/yard/lint/config_loader.rb:179-203 | in load_inherited_configs, a gem file's non-hash value for a key beats every inherit_from file, unless a later gem file sets the key |
| LoaderLayers.InheritedLayerWins | lib/yard/lint/config_loader.rb:179-203 | the last inherited layer that sets a key to a non-hash value decides the inherited configuration's value |
| LoaderLayers.InheritedUnlessOwn | lib/yard/lint/config_loader.rb:166-172 | a key the file itself does not set keeps the value it inherits |
| Config.DepartmentSeverity | lib/yard/lint/config.rb:337-340 | the default severity is "error" exactly for the Warnings department, and "warning" otherwise |
| Config.DefaultEntry | lib/yard/lint/config.rb:324-332 | a validator's default entry always has a truthy Severity |
| Config.MergeValidatorConfig | lib/yard/lint/config.rb:346-363 | the merge keeps every base key and never writes a metadata key |
| Config.MergeValidatorConfigLookup | lib/yard/lint/config.rb:346-363 | key by key: metadata keys and keys the override lacks keep the base value; the others take the merged value |
| Config.ValidatorMergeIsShallow | lib/yard/lint/config.rb:353-359 | a hash value in a validator override is merged only one level deep: its own keys win outright |
| Config.BuildLookup | lib/yard/lint/config.rb:287-319 | every registered validator gets defaults, then its department block, then its own block; an unregistered name gets nothing |
| Config.BuildKeys | lib/yard/lint/config.rb:281-293 | the built configuration has exactly the registered validators as keys, in order |
| Config.BuildFrame | lib/yard/lint/config.rb:296-316 | a validator's entry depends only on its own block and its department's block |
| Config.RawKeyFrame | lib/yard/lint/config.rb:296-316 | changing an unrelated top-level key changes no validator's entry |
| Config.SetSection | lib/yard/lint/config.rb:157-231 | writing one key of a section succeeds exactly when the section is a hash or absent; the value reads back and nothing else changes |
| Config.New | lib/yard/lint/config.rb:57-62 | a new configuration keeps the raw hash and builds an entry for every registered validator |
| Config.Options | lib/yard/lint/config.rb:105-107 | YardOptions, or [] when it is not set |
| Config.Exclude | lib/yard/lint/config.rb:111-113 | Exclude, or DEFAULT_EXCLUDE when it is not set |
| Config.FailOnSeverity | lib/yard/lint/config.rb:117-119 | FailOnSeverity, or "warning" when it is not set; never nil |
| Config.ValidatorSeverity | lib/yard/lint/config.rb:132-135 | the validator's Severity, or its department's severity; never nil |
| Config.ValidatorExclude | lib/yard/lint/config.rb:140-143 | the validator's Exclude, or [] |
| Config.ValidatorConfig | lib/yard/lint/config.rb:149-151 | an unknown validator reads nil for every key |
| Config.SettingOrDefault | lib/yard/lint/config.rb:236-268 | each compatibility getter returns the validator setting, or the built-in default when it is not set |
| Config.SetGlobal | lib/yard/lint/config.rb:157-174 | writing a global setting leaves the validator configuration as it was |
| Config.SetValidatorKey | lib/yard/lint/config.rb:178-231 | writing a validator setting rebuilds the validator configuration from the updated raw hash |
| Config.SetGlobalKeepsValid | lib/yard/lint/config.rb:157-174 | after a global write, the validator configuration still equals what the raw hash builds |
| Config.SetGlobalReadBack | lib/yard/lint/config.rb:105-174 | options=, exclude= and fail_on_severity= read back through their getters, with the getters' fallbacks |
| Config.SetGlobalFrame | lib/yard/lint/config.rb:157-174 | a global write changes no other global setting |
| Config.SetValidatorKeyBuilds | lib/yard/lint/config.rb:178-231 | a validator write is a raw-hash write followed by a rebuild |
| Config.SetValidatorKeyVisible | lib/yard/lint/config.rb:178-231 | a written setting is visible through validator_config, merged over the department layer |
| Config.SetValidatorKeyScalar | lib/yard/lint/config.rb:178-231 | a written non-hash setting reads back unchanged |
| Config.SetValidatorKeyFrame | lib/yard/lint/config.rb:178-231 | writing one validator's setting leaves every other validator's entry unchanged |
| Config.SetValidatorKeyKeepsGlobals | lib/yard/lint/config.rb:178-231 | writing a validator setting leaves the AllValidators section unchanged |
| Config.DefaultsEnabled | lib/yard/lint/config_loader.rb:56-134 | with an empty configuration, every validator except Tags/ApiTags is enabled |
| Config.DefaultSeverityFromBlock | lib/yard/lint/config.rb:287-293 | with an empty configuration, a validator's severity is the one in its built-in defaults |
| Config.DefaultSeverityExample | lib/yard/lint/config_loader.rb:56-134 | with an empty configuration, Tags/Order has severity "convention" |
| CommandCache.SqueezeShape | lib/yard/lint/command_cache.rb:53-57 | collapsing whitespace leaves no two spaces in a row and no other whitespace, and keeps the first character's kind |
| CommandCache.SqueezeOfSqueezed | lib/yard/lint/command_cache.rb:53-57 | a string already collapsed is left as it is |
| CommandCache.CacheKeyIsNormal | lib/yard/lint/command_cache.rb:53-57 | a cache key has no leading or trailing space and no runs of whitespace |
| CommandCache.CacheKeyIdempotent | lib/yard/lint/command_cache.rb:53-57 | normalising a key again changes nothing |
| CommandCache.SameKeyForRun | lib/yard/lint/command_cache.rb:53-57 | any run of whitespace between two words gives the same key as one space |
| CommandCache.SameKeyForPadding | lib/yard/lint/command_cache.rb:53-57 | leading and trailing whitespace do not change the key |
| CommandCache.Execute | lib/yard/lint/command_cache.rb:22-34 | a hit returns the stored result without running anything; a miss runs the command once and stores the result; entries are only added |
| CommandCache.CacheStats | lib/yard/lint/command_cache.rb:38-45 | total is hits plus misses, and saved executions equal hits |
| CommandCache.ExecuteAll | lib/yard/lint/command_cache.rb:22-34 | one result per command |
| CommandCache.ExecuteAllAccounts | lib/yard/lint/command_cache.rb:22-34 | from an empty cache, every distinct key is run exactly once, and each repeat is a hit |
| CommandCache.ExecuteAllResults | lib/yard/lint/command_cache.rb:22-34 | each command returns what the first command with the same key produced |
| Runner.RawResults | lib/yard/lint/runner.rb:30-61 | raw results hold exactly the ids of the enabled, registered validators, each with its own output |
| Runner.RawEntryIffEnabled | lib/yard/lint/runner.rb:30-47 | a validator has raw output exactly when it is enabled |
| Runner.ParseOutput | lib/yard/lint/result_builder.rb:101-109 | absent output or nil stdout parses to nothing; otherwise every parser runs on stdout, in order |
| Runner.ParseOutputsContain | lib/yard/lint/result_builder.rb:58-73 | every child's records appear in the concatenation |
| Runner.ChildModuleListed | lib/yard/lint/result_builder.rb:58-66 | every registered child is among the child modules |
| Runner.BuildComposite | lib/yard/lint/result_builder.rb:58-73 | a composite result is the parent's records followed by its children's, under the parent's id; there is none when both are empty |
| Runner.BuildStandard | lib/yard/lint/result_builder.rb:80-95 | a standard result is absent exactly when the output is missing, stdout is nil, there are no parsers, or nothing parses |
| Runner.Build | lib/yard/lint/result_builder.rb:20-52 | an unknown validator or a composite's child builds nothing; a built result is non-empty and named by the module |
| Runner.ParseResultsEnabledOnly | lib/yard/lint/runner.rb:67-79 | results come only from the enabled validators, in order |
| Runner.RunResultFromEnabled | lib/yard/lint/runner.rb:19-79 | every result belongs to some enabled validator |
| Runner.ResultNeedsEnabled | lib/yard/lint/runner.rb:19-79 | a validator with a result is enabled |
| Runner.DisabledChildContributesNothing | lib/yard/lint/runner.rb:30-47 | a disabled child has no output for its parent to collect |
| Runner.ChildRecordsReachParent | lib/yard/lint/result_builder.rb:58-73 | a record an enabled child parses reaches the result of its enabled composite parent |
| Runner.ChildRecordInComposite | lib/yard/lint/result_builder.rb:58-73 | a child's parsed record is in the composite result |
| ValidatorRegistry.ShippedCompositeChildren | lib/yard/lint/result_builder.rb:41-52 | with Documentation/UndocumentedObjects as the one composite, a validator is a composite child exactly when it is Documentation/UndocumentedBooleanMethods |
| ValidatorRegistry.BooleanMethodsNeverBuilt | lib/yard/lint/result_builder.rb:20-27 | build returns nil for Documentation/UndocumentedBooleanMethods, whatever its output |
| ValidatorRegistry.ObjectsFoldsBooleanMethods | lib/yard/lint/result_builder.rb:58-73 | the Documentation/UndocumentedObjects result, under id undocumented_objects, holds its own records followed by the boolean-methods records, and is nil iff both are empty |
| Runner.RunContains | lib/yard/lint/runner.rb:67-79 | every enabled validator's built result is among the results |
| LintResult.Input | lib/yard/lint/result.rb:21-31 | each family reads its own key of the data, or nothing |
| LintResult.ConfiguredSeverity | lib/yard/lint/result.rb:257-261 | without a configuration, the family default; with one, the validator's configured severity |
| LintResult.BuildOffense | lib/yard/lint/result.rb:108-251 | every offense carries the configured severity, the family's kind, and the record's location and line |
| LintResult.FamilyOffenses | lib/yard/lint/result.rb:108-251 | one offense per record, in order |
| LintResult.Count | lib/yard/lint/result.rb:50-52 | the count is the total number of input records |
| LintResult.CleanIffNoInput | lib/yard/lint/result.rb:56-64 | a result is clean exactly when no family has input, exactly when there are no offenses |
| LintResult.SeverityWithoutConfig | lib/yard/lint/result.rb:108-251 | without a configuration, warnings are errors, tag order is a convention, everything else is a warning |
| LintResult.SeverityWithConfig | lib/yard/lint/result.rb:108-123 | with a configuration, a warning's severity follows its name; every other family's severity is the same for all records |
| LintResult.FamilyMessagesAgree | lib/yard/lint/result.rb:127-200 | the aggregated messages are the ones the message builders produce |
| LintResult.Statistics | lib/yard/lint/result.rb:68-83 | the statistics exist when every severity is a string, and their total is the number of offenses plus one more for each offense whose severity is "total", since that key passes the `key?` check |
| LintResult.StatisticsCounts | lib/yard/lint/result.rb:68-83 | each severity's counter is the number of offenses with that severity |
| LintResult.StatisticsTotal | lib/yard/lint/result.rb:68-83 | the three counters plus the number of "total" severities add up to at most the number of offenses, and the three counters reach the total iff every severity is error, warning or convention |
| LintResult.StatisticsTotalCountedTwice | lib/yard/lint/result.rb:76-80 | one offense of severity "total" yields error 0, warning 0, convention 0 and total 2 |
| LintResult.ExitCodeFor | lib/yard/lint/result.rb:88-102 | 0 when clean or "never"; for "error" or "warning", 1 iff some offense is that severe; any other level fails on any offense |
| LintResult.ExitCodeMonotone | lib/yard/lint/result.rb:88-102 | a lower threshold never gives a lower exit code |
| ValidatorResults.BaseSeverity | lib/yard/lint/validators/warnings/stats/result.rb:34-35 | the severity is never nil, and without a configuration it is the default |
| ValidatorResults.BaseSeverityIsConfigured | lib/yard/lint/result.rb:257-261 | the per-validator severity agrees with the aggregate's |
| ValidatorResults.LineOf | lib/yard/lint/validators/warnings/stats/result.rb:43 | line, else location_line, else 0 |
| ValidatorResults.RecordOffense | lib/yard/lint/validators/warnings/stats/result.rb:29-46 | the name falls back to the default, the location to the file, and the line to LineOf |
| ValidatorResults.WarningOffense | lib/yard/lint/validators/warnings/stats/result.rb:29-46 | a warning's severity is looked up under Warnings/ plus its name |
| ValidatorResults.WarningOffenses | lib/yard/lint/validators/warnings/stats/result.rb:29-46 | one offense per record, in order |
| ValidatorResults.WarningAgreesWithAggregate | lib/yard/lint/validators/warnings/stats/result.rb:29-46 | with name, location and line all present, the per-validator offense equals the aggregate's |
| ValidatorResults.WarningFallbacksDifferFromAggregate | lib/yard/lint/validators/warnings/stats/result.rb:32-43 | with one of them missing, the per-validator class falls back where the aggregate gives nil |
| ValidatorResults.WarningSeverityByName | lib/yard/lint/validators/warnings/stats/result.rb:34-35 | warnings with the same name have the same severity |
| ValidatorResults.OptionTagsOffenses | lib/yard/lint/validators/tags/option_tags/result.rb:28-39 | one offense per record, in order |
| ValidatorResults.OptionTagsUniform | lib/yard/lint/validators/tags/option_tags/result.rb:13-22 | every option-tags offense has the same severity, and its message names the method |
| ValidatorResults.ApiTagsOffense | lib/yard/lint/validators/tags/api_tags/result.rb:28-39 | an offense exists except when the status is not a string and there is no value, where the builder fails |
| ValidatorResults.ApiTagsOffenseMessage | lib/yard/lint/validators/tags/api_tags/result.rb:20-22 | the offense message is the builder's message |
| ValidatorResults.ApiTagsOffensesBuild | lib/yard/lint/validators/tags/api_tags/result.rb:28-39 | the list builds exactly when every record builds |
| ValidatorResults.ApiTagsOffensesInOrder | lib/yard/lint/validators/tags/api_tags/result.rb:28-39 | one offense per record, in order |
| ValidatorResults.ExampleSyntaxOffenses | lib/yard/lint/validators/tags/example_syntax/result.rb:25-36 | one offense per record, in order |
| ValidatorResults.ParsedExamplesNamed | lib/yard/lint/validators/tags/example_syntax/parser.rb:62-69 | every offense from parsed example output is named ExampleSyntax |
| ValidatorResults.ExampleSyntaxEndToEnd | lib/yard/lint/validators/tags/example_syntax/result.rb:25-36 | printed example reports parse and build to one offense each, with the report's location, line and message |
| LineRegex.MatchLocation | lib/yard/lint/validators/documentation/undocumented_objects/parser.rb:14 | a match splits the line as location, ':', digits, ': ', rest |
| LineRegex.MatchLocationFirst | lib/yard/lint/validators/documentation/undocumented_objects/parser.rb:14 | there is no match iff no split fits the pattern; otherwise the match is the split with the longest location, as greedy backtracking picks |
| LineRegex.MatchLocationRender | lib/yard/lint/validators/documentation/undocumented_objects/parser.rb:14 | a printed location line matches with the parts it was printed from |
| LineRegex.MatchExampleHeader | lib/yard/lint/validators/tags/example_syntax/parser.rb:31-35 | a header starts with a letter, '.', '/' or '~' and splits like a location line |
| LineRegex.MatchExampleHeaderFirst | lib/yard/lint/validators/tags/example_syntax/parser.rb:31-35 | there is no match iff the lead character is wrong or no split fits; otherwise it is the greedy split |
| LineRegex.MatchExampleHeaderRender | lib/yard/lint/validators/tags/example_syntax/parser.rb:31-35 | a printed header matches with the parts it was printed from |
| LineRegex.NoColonNoHeader | lib/yard/lint/validators/tags/example_syntax/parser.rb:31-35 | a line without ':' matches neither pattern |
| LineRegex.MatchMethod | lib/yard/lint/validators/documentation/undocumented_method_arguments/parser.rb:14 | every group of a method line is non-empty, and the line number is digits |
| LineRegex.MatchMethodFirst | lib/yard/lint/validators/documentation/undocumented_method_arguments/parser.rb:14 | there is no match iff no split fits; otherwise the match is the first reading in backtracking order |
| LineRegex.MatchMethodRender | lib/yard/lint/validators/documentation/undocumented_method_arguments/parser.rb:14 | a printed method line matches with the parts it was printed from |
| Parsers.Pairs | lib/yard/lint/validators/tags/meaningless_tag/parser.rb:24-25 | each_slice(2): consecutive lines pair up, and an odd last line is dropped |
| Parsers.ObjectOfLine | lib/yard/lint/validators/documentation/undocumented_objects/parser.rb:18-33 | a line gives a record iff it matches; the record's location and element rebuild the line |
| Parsers.ParseUndocumentedObjects | lib/yard/lint/validators/documentation/undocumented_objects/parser.rb:18-33 | at most one record per stripped line; empty output gives none |
| Parsers.MethodOfLine | lib/yard/lint/validators/documentation/undocumented_method_arguments/parser.rb:18-39 | a line gives a record iff it matches, with location, method name, line and class name |
| Parsers.ParseUndocumentedMethodArguments | lib/yard/lint/validators/documentation/undocumented_method_arguments/parser.rb:18-39 | at most one record per line; empty output gives none |
| Parsers.MeaninglessOfPair | lib/yard/lint/validators/tags/meaningless_tag/parser.rb:26-43 | a pair gives a record iff the first line matches and the second has a '\|'; type and tag rebuild the second line |
| Parsers.ParseMeaninglessTags | lib/yard/lint/validators/tags/meaningless_tag/parser.rb:18-47 | blank output gives none; at most one record per pair of lines |
| Parsers.TagPositionOfPair | lib/yard/lint/validators/tags/tag_type_position/parser.rb:20-41 | a record needs a matching location and at least three fields; detected_style is nil iff there are exactly three |
| Parsers.ParseTagTypePositions | lib/yard/lint/validators/tags/tag_type_position/parser.rb:14-45 | blank output gives none; at most one record per pair of lines |
| Parsers.ScanExamples | lib/yard/lint/validators/tags/example_syntax/parser.rb:25-70 | every record is named ExampleSyntax and consumes at least two lines |
| Parsers.ParseExampleSyntax | lib/yard/lint/validators/tags/example_syntax/parser.rb:12-73 | empty output gives none; every record is named ExampleSyntax |
| Parsers.MessageLengthUnique | lib/yard/lint/validators/tags/example_syntax/parser.rb:50-60 | the error message runs up to the next header line or the end |
| Parsers.ParseExampleSyntaxLoop | lib/yard/lint/validators/tags/example_syntax/parser.rb:12-73 | the index-driven loop computes the same records as the recursive reading |
| ParserProperties.UndocumentedObjectsRoundTrip | lib/yard/lint/validators/documentation/undocumented_objects/parser.rb:18-33 | printing undocumented-object reports one per line and parsing gives them back |
| ParserProperties.UndocumentedObjectsIgnorePadding | lib/yard/lint/validators/documentation/undocumented_objects/parser.rb:19-22 | surrounding whitespace does not change what a line parses to |
| ParserProperties.RenderMethodLineParses | lib/yard/lint/validators/documentation/undocumented_method_arguments/parser.rb:18-39 | a printed method line parses to its own fields |
| ParserProperties.UndocumentedMethodArgumentsRoundTrip | lib/yard/lint/validators/documentation/undocumented_method_arguments/parser.rb:18-39 | printing method reports one per line and parsing gives them back |
| ParserProperties.MeaninglessTagsRoundTrip | lib/yard/lint/validators/tags/meaningless_tag/parser.rb:18-47 | printing meaningless-tag reports as line pairs and parsing gives them back |
| ParserProperties.TagTypePositionsRoundTrip | lib/yard/lint/validators/tags/tag_type_position/parser.rb:14-45 | printing tag-position reports as line pairs and parsing gives them back, with or without a style |
| ParserProperties.ShortDetailsSkipped | lib/yard/lint/validators/tags/tag_type_position/parser.rb:28-31 | a details line with fewer than three fields gives no record |
| ParserProperties.BadLocationSkipsPair | lib/yard/lint/validators/tags/meaningless_tag/parser.rb:28-30 | a pair whose first line does not match is skipped without disturbing its neighbours |
| ParserProperties.BadLocationSkipsPosition | lib/yard/lint/validators/tags/tag_type_position/parser.rb:24-26 | the same for tag-position pairs |
| ParserProperties.PairsDropOdd | lib/yard/lint/validators/tags/meaningless_tag/parser.rb:24-25 | an unpaired last line is ignored |
| ParserProperties.ExampleSyntaxRoundTrip | lib/yard/lint/validators/tags/example_syntax/parser.rb:12-73 | printing example-syntax reports as header, status, name and message lines and parsing gives them back |
| ParserProperties.ExampleWithoutStatusSkipped | lib/yard/lint/validators/tags/example_syntax/parser.rb:41-44 | a header not followed by syntax_error is skipped, and scanning resumes on the next line |
| ParserProperties.ExampleWithoutName | lib/yard/lint/validators/tags/example_syntax/parser.rb:46-69 | a report with no name line gives a nil example name and an empty message |
| Messages.UndocumentedObjectMessage | lib/yard/lint/validators/documentation/undocumented_objects/messages_builder.rb:13-14 | "Documentation required for `…`" |
| Messages.UndocumentedObjectMessageInjective | lib/yard/lint/validators/documentation/undocumented_objects/messages_builder.rb:13-14 | two messages are equal iff the elements are |
| Messages.UndocumentedArgumentsMessage | lib/yard/lint/validators/documentation/undocumented_method_arguments/messages_builder.rb:14-16 | "The `…` method is missing documentation for some of the arguments." |
| Messages.InvalidTypesMessage | lib/yard/lint/validators/tags/invalid_types/messages_builder.rb:13-15 | "The `…` has at least one tag with an invalid type definition." |
| Messages.OptionTagsMessage | lib/yard/lint/validators/tags/option_tags/messages_builder.rb:13-15 | "Method `…` has options parameter but no @option tags documenting the available options" |
| Messages.AbstractMethodMessage | lib/yard/lint/validators/semantic/abstract_methods/messages_builder.rb:14-16 | "Abstract method `…` has implementation (should only raise NotImplementedError or be empty)" |
| Messages.MeaninglessTagMessage | lib/yard/lint/validators/tags/meaningless_tag/messages_builder.rb:14-20 | "The @… ). This tag only makes sense on methods." |
| Messages.MeaninglessTagMessageReads | lib/yard/lint/validators/tags/meaningless_tag/messages_builder.rb:14-20 | the message reads only the object type, tag name and object name |
| Messages.TypeSyntaxMessage | lib/yard/lint/validators/tags/type_syntax/messages_builder.rb:14-19 | "Invalid type syntax in @… )" |
| Messages.TypeSyntaxMessageReads | lib/yard/lint/validators/tags/type_syntax/messages_builder.rb:14-19 | the message reads only the tag name, type string and error message |
| Messages.ExampleSyntaxMessage | lib/yard/lint/validators/tags/example_syntax/messages_builder.rb:14-20 | "Object `…" ending with the error message |
| Messages.ExampleSyntaxMessageReads | lib/yard/lint/validators/tags/example_syntax/messages_builder.rb:14-20 | the message reads only the object name, example name and error message |
| Messages.TagTypePositionMessage | lib/yard/lint/validators/tags/tag_type_position/messages_builder.rb:14-29 | "Type should appear …" |
| Messages.TagTypePositionMirror | lib/yard/lint/validators/tags/tag_type_position/messages_builder.rb:20-29 | the two styles give mirror-image advice: "before" with the type first, "after" with the name first |
| Messages.ApiTagsMessage | lib/yard/lint/validators/tags/api_tags/messages_builder.rb:15-20 | the missing-tag message, the invalid-value message from api_value, or the status without its "invalid:" prefix; it fails iff the status is not a string and there is no value |
| Messages.OrderMessage | lib/yard/lint/validators/tags/order/messages_builder.rb:14-22 | "The `…" ending with "." |
| Messages.OrderPiecesRoundTrip | lib/yard/lint/validators/tags/order/messages_builder.rb:16-18 | splitting the order on ',' and joining again gives it back |
| Messages.OrderListEmpty | lib/yard/lint/validators/tags/order/messages_builder.rb:16-18 | a nil or empty order lists no tags |
| Messages.MatchHashAt | lib/yard/lint/validators/tags/collection_type/messages_builder.rb:30-35 | a match of Hash<…> covers a well-formed occurrence |
| Messages.HashCloseFirst | lib/yard/lint/validators/tags/collection_type/messages_builder.rb:30-35 | the lazy `.+?` stops at the first '>' on the line |
| Messages.ArrowAtFirstComma | lib/yard/lint/validators/tags/collection_type/messages_builder.rb:30-35 | the rewrite splits at the first comma and drops the spaces after it |
| Messages.SuggestCorrectionNoHash | lib/yard/lint/validators/tags/collection_type/messages_builder.rb:30-35 | a type without Hash< is left unchanged |
| Messages.CollectionTypeMessage | lib/yard/lint/validators/tags/collection_type/messages_builder.rb:14-22 | a message exists iff the type string is a string, and it ends with the Hash{K => V} advice |
| MessageExamples.CollectionTypeExample | lib/yard/lint/validators/tags/collection_type/messages_builder.rb:30-35 | Hash<Symbol, String> is rewritten to Hash{Symbol => String} |
| MessageExamples.OrderThreeTagsExample | lib/yard/lint/validators/tags/order/messages_builder.rb:14-22 | the order message lists three tags, quoted and comma-separated |
| MessageExamples.ApiStatusExample | lib/yard/lint/validators/tags/api_tags/messages_builder.rb:15-20 | an "invalid:" status loses its prefix in the message |

## Left out

- Running `yard` and the validator command builders: a validator's raw output is a parameter (`exec`) of the runner.
- Open3 and the process exit status: `CommandCache.Execute` takes the command runner as a function.
- SHA256: the cache is keyed by the normalised command string. That is equivalent as long as SHA256 has no collisions.
- `deep_clone`: values are immutable, so a copy and the original cannot diverge.
- YAML parsing, `Config.from_file`, `Config.load` and `find_config_file`: the loader reads parsed documents from a `Store`.
- `File.expand_path`, `File.dirname`, `File.join` and `Gem::Specification`: these are fields of the `Store`.
- `discover_parsers` and `validator_module` (constant lookup by reflection): replaced by a registry from names to modules with their parser lists. `ValidatorRegistry.Shipped` fixes only the composite entry; which other validators have a module, and their ids, stay a parameter, because `validator_module` is not part of this model.
- Validator selection and `run_validator`'s arguments: a validator's output depends on its module only.
- `Results::Aggregate`, `Results::Base` and the formatters are not part of this model.
- The warnings stats parsers and `OneLineBase` are not part of this model. Warning records enter the model already parsed.
- Per-validator `Exclude` filtering of files: `ValidatorExclude` is read, but never applied to a file list.
- `Config#[]` is not modelled.
- `Config.SetSection`: a section that is truthy but not a hash is `Err(NotAHash)`. Ruby would raise, or for a String call `String#[]=`.
- `Config.AllValidatorsSection`: a truthy non-hash AllValidators section is read as `{}`. Ruby would index into the value.
- `ConfigLoader.LoadFileList`: `Err(NotAPath)` stands for the TypeError `File.expand_path` raises on an `inherit_from` entry that is not a string, when the loop reaches it.
- `ConfigLoader.LoadGem`: `Err(NotAGemName)` stands for the ArgumentError the gem lookup raises on a name that is not a string, and `Err(NotAPath)` for the TypeError `File.join` raises on a file that is neither a string nor an array of them. How `File.join` combines two components, separators included, is the store's `joinPath` parameter.
- `ConfigLoader.Load`: returns only the error. The warnings printed before it are in the `Failure` that `ConfigLoader.LoadFile` returns.
- `ConfigLoader.GemPairs`: `Err(NotEnumerable)` stands for the NoMethodError of calling `each` on a truthy `inherit_gem` that is neither a hash nor an array.
- `Runner.RawResults`: the per-entry statement assumes distinct module ids (`UniqueIds`). With a shared id, a later validator overwrites an earlier entry, as in Ruby.
- `ValidatorResults.ApiTagsOffense`: `None` stands for the NoMethodError the builder raises on a non-string status without a value.
- `Messages.CollectionTypeMessage`: `None` stands for the NoMethodError the builder raises on a type string that is not a String.
- `LintResult.Statistics`: `None` stands for the NoMethodError that `to_sym` raises on a severity that is not a string.
- `LintResult.ExitCodeFor`: the configured level is taken as it is. Levels other than never, error and warning fail on any offense, as the code does.
- The parser examples of the repository's tests are instances of the round-trip lemmas. They are not restated as separate lemmas, except the collection-type, order and API-status message examples.
- `Parsers.ParseUndocumentedObjects`, `ParseMeaninglessTags`, `ParseTagTypePositions`: lines fed to the matchers contain no newline, because they come from splitting on "\n". The round trips assume the printed fields contain none either.
