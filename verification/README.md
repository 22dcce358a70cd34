# ToolDelta core in Dafny

This project models two parts of ToolDelta, a plugin host for a Minecraft
Bedrock server bot, and proves properties of them.

- **`PluginGroup`** (`tooldelta/plugin_load/PluginGroup.py`) is the registry and
  dispatcher that plugins talk to. It holds:
  - the packet handlers, by packet id;
  - the broadcast listeners, by event name;
  - the API plugins, by API name;
  - the set of packet ids to listen for;
  - the staging cache that plugin decorators fill.

  It routes packets to handlers, publishes broadcasts, runs the lifecycle hooks
  (`on_def`, `on_inject`, `on_player_*`), looks up API plugins with a version
  gate, and runs the legacy DotCS repeating tasks. It is modelled as the class
  `PluginGroupModel.PluginGroup`. Its registries are fields that the
  registration methods update. Dispatch is a set of loop methods proved against
  specification functions. Plugin callables are opaque: each is a `FuncRef`, and
  a `behave` parameter says how each call ends: it returns a truthy or falsy
  value, returns `(interrupt, *extras)`, raises an `Exception`, or raises a
  `BaseException` that is not an `Exception` (`SystemExit`, `KeyboardInterrupt`).
  A hook loop guarded by `except Exception` does not catch that last kind, so the
  loop ends there.
- **`Cfg`**, the JSON configuration validator, exists in two diverging copies.
  `libs/cfg.py` tracks the error path (`fromkey`) and catches only
  `ConfigError` among alternatives. `tooldelta/cfg.py` has no path, does not
  type-check dicts, and catches every exception among alternatives. Both are
  modelled as pure recursive functions over `CfgTypes.Json` documents and
  `CfgTypes.Schema` patterns:
  - `LibsCfg.CheckAuto` returns `Ok`, `ConfigErr(kind, errPos)` or `ProgErr`;
  - `ToolDeltaCfg.CheckAuto` returns `Ok`, `KeyErr`, `ValueErr` or `ProgErr`.

  `ProgErr` stands for any exception that is not a `ConfigError`. Each checker
  is tied to an independent predicate `Conforms` by an if-and-only-if lemma.
  The `.json` path normalisation and the version join/split of
  `getPluginConfigAndVersion` are modelled in `ConfigFiles`.

The Python quirks the model keeps:
- `bool` is an `int`, so `true` is a `PInt`.
- A member whose value is the string `"%FindNone"` counts as absent.
- `NNFloat` also accepts anything equal to `0`.
- Floats are only compared by sign, so they are modelled as `real`.
- Tuples compare lexicographically.
- `str.strip(chars)` strips a character set, not a prefix.
- `int("")` fails.

Modules: `Wrappers` (Option), `PyText` (Python string helpers), `Versions`
(tuple `<`), `CfgTypes` (documents, patterns, `_CfgIsinstance`),
`LibsCfg`, `ToolDeltaCfg`, `ConfigFiles`, `PlayerMessage` (the chat-prefix
cleanup), and `PluginGroupModel`.

## Model

| member | source | states |
|---|---|---|
| Versions.LessIsLexicographic | tooldelta/plugin_load/PluginGroup.py:159 | Python's tuple `<` on versions is exactly textbook lexicographic order: a proper prefix, or the first differing component smaller |
| Versions.LessIrreflexive | tooldelta/plugin_load/PluginGroup.py:159 | no version is below itself |
| Versions.LessTransitive | tooldelta/plugin_load/PluginGroup.py:159 | version order is transitive |
| Versions.LessTotal | tooldelta/plugin_load/PluginGroup.py:164-165 | any two versions are equal or ordered one way, never both ways |
| PyText.DigitChar | tooldelta/cfg.py:147 | the digit character of a value below ten |
| PyText.NatToDecimal | tooldelta/cfg.py:147 | `str(n)` of a natural is all digits, and reading the digits back gives `n` |
| PyText.IntToDecimal | tooldelta/cfg.py:147 | `str(i)` is non-empty, has no '.', and starts with '-' or a digit |
| PyText.ParseInt | tooldelta/cfg.py:153 | `int(s)` succeeds only on a non-empty string |
| PyText.ParseIntOfDecimal | tooldelta/cfg.py:147-153 | `int(str(i)) == i` for every integer |
| PyText.Join | tooldelta/cfg.py:147 | `sep.join(parts)` is "" for no parts; otherwise it starts with the first part, ends with the last, and is as long as the parts plus one separator between each two |
| PyText.Split | tooldelta/cfg.py:153 | `str.split` always yields at least one part |
| PyText.SplitNoSep | tooldelta/cfg.py:153 | a string without the separator splits into itself |
| PyText.SplitAfterPart | tooldelta/cfg.py:153 | splitting `a + sep + t` gives `a` followed by the parts of `t` when `a` has no separator |
| PyText.SplitJoin | tooldelta/cfg.py:147-153 | splitting a join of separator-free parts gives the parts back |
| PyText.RemoveAll | tooldelta/cfg.py:215 | `str.replace(pat, "")` never lengthens the string |
| CfgTypes.Lookup | tooldelta/cfg.py:191 | `dict.get` finds a value exactly when some member has that name, and the value is that member's |
| CfgTypes.Fetch | tooldelta/cfg.py:191-192 | a value is fetched only when present and not `"%FindNone"`; otherwise the key is absent or holds the sentinel |
| CfgTypes.IsInstance | tooldelta/cfg.py:13-21 | a refinement class accepts numbers only; every other class is a plain `isinstance` |
| CfgTypes.TupleInstance | tooldelta/cfg.py:23-36 | a tuple pattern accepts a value exactly when some member type accepts it |
| CfgTypes.CfgIsInstance | tooldelta/cfg.py:11-39 | a type pattern answers by the type rules, a tuple by some member, and any other pattern raises `ValueError` |
| CfgTypes.RefinementRules | libs/cfg.py:14-24 | `PInt` is int > 0 (so `true`), `NNInt` int >= 0, `PFloat` float > 0 only, `NNFloat` float >= 0 or equal to 0, `PNumber`/`NNNumber` int or float > 0 / >= 0, `int` includes bools |
| CfgTypes.RefinementInclusions | libs/cfg.py:14-24 | `PInt` implies `NNInt`, `PNumber` and `int`; `PFloat` implies `NNFloat`; every refinement accepts only numbers; int 1 is not a `PFloat`, int 0 is an `NNFloat` |
| CfgTypes.ListLimit | tooldelta/cfg.py:214-216 | `"%list"` sets no limit and `"%list"` followed by the digits of N limits the list to N items; a tag that is not all digits once `"%list"` is removed sets no limit |
| CfgTypes.TagRemoved | tooldelta/cfg.py:215 | removing `"%list"` from `"%list"` followed by digits leaves exactly the digits |
| CfgTypes.RemoveAllKeepsDigits | tooldelta/cfg.py:215 | a run of digits holds no `"%list"` to remove |
| CfgTypes.ListLimitExamples | libs/cfg.py:181-183 | `"%list"` and `"%list0"` impose no limit, `"%list3"` and `"%list12"` impose 3 and 12 |
| LibsCfg.LocatedInChild | libs/cfg.py:150 | an error located below `path + [k]` is located below `path` |
| LibsCfg.CheckAuto | libs/cfg.py:123-138 | a key or value error always points at the current path or below it |
| LibsCfg.CheckDict | libs/cfg.py:140-168 | the same for `check_dict_2` |
| LibsCfg.CheckEntries | libs/cfg.py:146-168 | the same for the entry loop |
| LibsCfg.CheckEntry | libs/cfg.py:147-168 | the same for one entry |
| LibsCfg.CheckAnyValues | libs/cfg.py:147-150 | the same for a `"%any"` entry |
| LibsCfg.CheckGroup | libs/cfg.py:151-157 | the same for a `Group` entry |
| LibsCfg.CheckList | libs/cfg.py:170-202 | the same for `check_list_2` |
| LibsCfg.CheckElements | libs/cfg.py:189-190 | the same for the element loop |
| LibsCfg.CheckAlternatives | libs/cfg.py:191-202 | the same for the alternatives loop |
| LibsCfg.AutoMeaning | libs/cfg.py:123-138 | on a well-formed pattern the checker passes exactly the documents that conform, and with a non-empty path it never raises a non-config error |
| LibsCfg.DictMeaning | libs/cfg.py:140-168 | a dict pattern passes exactly an object whose entries all conform |
| LibsCfg.EntriesMeaning | libs/cfg.py:146-168 | the entry loop passes exactly when every remaining entry conforms, and on a well-formed pattern never raises anything but a ConfigError |
| LibsCfg.EntriesFold | libs/cfg.py:146-168 | the entry loop passes exactly when every entry passes, and raises a non-ConfigError only when some entry does |
| LibsCfg.EntryMeaning | libs/cfg.py:147-166 | one entry passes exactly when it conforms, and never raises a non-config error |
| LibsCfg.AnyMeaning | libs/cfg.py:147-150 | a `"%any"` entry passes exactly when every document value matches its pattern |
| LibsCfg.GroupMeaning | libs/cfg.py:151-157 | a group passes exactly when every present member matches its pattern |
| LibsCfg.ListMeaning | libs/cfg.py:170-202 | a list pattern passes exactly the conforming values |
| LibsCfg.ElementsMeaning | libs/cfg.py:184-190 | a `"%listN"` value passes exactly when all remaining elements match `pattern[1]` |
| LibsCfg.AlternativesMeaning | libs/cfg.py:191-202 | an alternatives list passes exactly when some remaining alternative conforms |
| LibsCfg.NonObjectRejected | libs/cfg.py:141-145 | a non-object against a dict pattern gives `ConfigValueError` at the current path, or a non-config error when the path is empty |
| LibsCfg.FirstFailingEntry | libs/cfg.py:146-168 | entries are checked in pattern order and the first failing entry's error is the result |
| LibsCfg.MissingRequiredKey | libs/cfg.py:162-166 | an absent or `"%FindNone"` required key raises `ConfigKeyError` with `errPos = path + [key]` |
| LibsCfg.AbsentGroupPasses | libs/cfg.py:151-157 | a group none of whose members is present passes |
| LibsCfg.LookupAppend | libs/cfg.py:159 | members with other names do not change a lookup |
| LibsCfg.GroupIgnoresExtra | libs/cfg.py:151-157 | document members a group does not name do not change its result |
| LibsCfg.EntriesIgnoreExtra | libs/cfg.py:146-168 | document members no entry names do not change the entry loop |
| LibsCfg.ExtraKeysIgnored | libs/cfg.py:146-168 | document keys the pattern does not mention never change the result |
| LibsCfg.ListShapeRejected | libs/cfg.py:175-187 | a `"%listN"` pattern raises `ConfigValueError` at `fromkey` on a non-list and on a list whose length differs from a non-zero limit |
| LibsCfg.AlternativesFailures | libs/cfg.py:191-202 | below the top level, the alternatives raise `ConfigValueError` exactly when every alternative raised a ConfigError, and raise a non-config error exactly when some alternative did after only ConfigErrors before it |
| LibsCfg.UncaughtErrorEndsAlternatives | libs/cfg.py:193-198 | a non-config error in an alternative propagates instead of trying the next one |
| LibsCfg.SelfTest | libs/cfg.py:207-214 | the module's sample `{"%any": {"a": PFloat}}` rejects `{"c": {"a": 1}}` with `ConfigValueError` at `["c", "a"]` |
| ToolDeltaCfg.CheckAuto | tooldelta/cfg.py:156-172 | a `"%FindNone"` key raises a non-config error; a type pattern passes exactly its instances and otherwise raises `ConfigValueError` |
| ToolDeltaCfg.CheckList | tooldelta/cfg.py:204-222 | an empty pattern raises a non-config error; a `"%list"` pattern rejects a non-list with `ConfigValueError` |
| ToolDeltaCfg.CheckAlternatives | tooldelta/cfg.py:223-232 | the alternatives branch only passes or raises `ConfigValueError`: the bare `except` swallows everything else |
| ToolDeltaCfg.CheckDict | tooldelta/cfg.py:174-202 | the empty pattern passes every document; a document that is not an object raises only a non-config error, if anything (`EntriesMeaning` gives the exact condition) |
| ToolDeltaCfg.CheckEntries | tooldelta/cfg.py:182-202 | on a non-object only a non-config error is raised; a `ConfigKeyError` comes from one of the remaining entries (`EntriesMeaning` gives the exact condition) |
| ToolDeltaCfg.CheckEntry | tooldelta/cfg.py:183-202 | a missing required key raises `ConfigKeyError`, a missing optional key passes, and a non-object raises only a non-config error (`EntryMeaning` gives the exact condition) |
| ToolDeltaCfg.CheckAnyValues | tooldelta/cfg.py:183-186 | passing means no member is named `"%FindNone"` (`AnyMeaning` gives the exact condition) |
| ToolDeltaCfg.CheckGroup | tooldelta/cfg.py:187-193 | a group none of whose members is present passes; a non-object raises only a non-config error (`GroupMeaning` gives the exact condition) |
| ToolDeltaCfg.CheckElements | tooldelta/cfg.py:217-222 | a non-empty list under a one-item `"%list"` pattern raises `IndexError`, and passing needs an element pattern or no elements (`ElementsMeaning` gives the exact condition) |
| ToolDeltaCfg.AutoMeaning | tooldelta/cfg.py:156-172 | for every pattern, the checker passes exactly the conforming documents under a key that is not `"%FindNone"` |
| ToolDeltaCfg.EntriesMeaning | tooldelta/cfg.py:182-202 | the entry loop passes exactly when every remaining entry conforms |
| ToolDeltaCfg.EntryMeaning | tooldelta/cfg.py:183-202 | one entry passes exactly when it conforms: a required key present and matching, an optional key or group member absent or matching |
| ToolDeltaCfg.AnyMeaning | tooldelta/cfg.py:183-186 | a `"%any"` entry passes exactly when every document value matches and no member is named `"%FindNone"` |
| ToolDeltaCfg.GroupMeaning | tooldelta/cfg.py:187-193 | a group passes exactly when every present member matches its pattern |
| ToolDeltaCfg.ListMeaning | tooldelta/cfg.py:204-232 | a list pattern passes exactly the conforming values |
| ToolDeltaCfg.ElementsMeaning | tooldelta/cfg.py:217-222 | the element loop passes exactly when all remaining elements match `pattern[1]` |
| ToolDeltaCfg.AlternativesMeaning | tooldelta/cfg.py:223-232 | an alternatives list passes exactly when some remaining alternative conforms |
| ToolDeltaCfg.EmptyDictAcceptsAnything | tooldelta/cfg.py:174-182 | with no dict type test, the empty dict pattern accepts any value |
| ToolDeltaCfg.NonObjectCrashes | tooldelta/cfg.py:182-202 | a non-empty dict pattern on a non-object raises a non-config error |
| ToolDeltaCfg.UnknownPatternCrashes | tooldelta/cfg.py:169-172 | a pattern that is neither a type, a list nor a dict raises `ValueError` |
| ToolDeltaCfg.SentinelKeyCrashes | tooldelta/cfg.py:157-158 | a document member named `"%FindNone"` under `"%any"` raises `ValueError` |
| ToolDeltaCfg.AlternativesCatchEverything | tooldelta/cfg.py:224-229 | an alternative that raises a non-config error is skipped and the next one can pass |
| ToolDeltaCfg.SelfTest | tooldelta/cfg.py:237-246 | the sample `[int, ["%list", str]]` accepts 12 and `["a"]` and rejects `"12"` |
| ConfigFiles.JsonPath | tooldelta/cfg.py:113 | the result ends with ".json", starts with the input, and equals it exactly when the input already ends with ".json" |
| ConfigFiles.JsonPathIdempotent | tooldelta/cfg.py:125 | normalising twice is normalising once |
| ConfigFiles.Decimals | tooldelta/cfg.py:147 | one decimal string per version component |
| ConfigFiles.ParseVersion | tooldelta/cfg.py:153 | a parsed version has one component per dot-separated part |
| ConfigFiles.ParseParts | tooldelta/cfg.py:153 | parsing succeeds exactly when every part is an integer, and gives their values |
| ConfigFiles.VersionString | tooldelta/cfg.py:147 | a non-empty version written with `".".join` reads back as itself, and no version string is `"%FindNone"` |
| ConfigFiles.DecimalsReadBack | tooldelta/cfg.py:147-153 | `int` reads each written component back as itself |
| ConfigFiles.VersionRoundTrip | tooldelta/cfg.py:147-153 | a non-empty version written with `".".join` and read back with `split` and `int` is unchanged |
| ConfigFiles.EmptyVersionUnreadable | tooldelta/cfg.py:147-153 | the empty version is written as "" and cannot be read back |
| ConfigFiles.VersionStringNotSentinel | tooldelta/cfg.py:147 | a version string is never `"%FindNone"` |
| ConfigFiles.PluginConfigPattern | tooldelta/cfg.py:150-151 | every key of the plugin pattern is a plain required key, and the items key carries the plugin's pattern |
| ConfigFiles.DefaultDocument | tooldelta/cfg.py:145-147 | the default document is an object whose items are the plugin's default and whose version is the written version |
| ConfigFiles.StoredVersion | tooldelta/cfg.py:153 | a version read back from a document has at least one component and comes from a version member of the object |
| ConfigFiles.StoredItems | tooldelta/cfg.py:154 | `cfgGet["配置项"]` gives a value exactly when the object has an items member, and then it is that member's value |
| ConfigFiles.PluginPatternMeaning | tooldelta/cfg.py:150-152 | the plugin configuration pattern passes exactly an object with a string version and items that match the plugin's pattern |
| ConfigFiles.DefaultDocumentRoundTrip | tooldelta/cfg.py:144-154 | the default document passes exactly when the default items match; reading it back gives the default items and version |
| PlayerMessage.ChatPrefix | tooldelta/plugin_load/PluginGroup.py:267 | `"[<player>] "` is three characters longer than the name, opens with '[' and ends with a space |
| PlayerMessage.StripLeft | tooldelta/plugin_load/PluginGroup.py:269 | `lstrip` leaves a suffix that does not start with a stripped character, and removes only stripped characters |
| PlayerMessage.StripRight | tooldelta/plugin_load/PluginGroup.py:269 | `rstrip`, symmetrically |
| PlayerMessage.Strip | tooldelta/plugin_load/PluginGroup.py:269 | `strip(chars)` leaves a slice that neither starts nor ends with a character of the set, removing only characters of the set |
| PlayerMessage.MessageAsWritten | tooldelta/plugin_load/PluginGroup.py:267-269 | the message as the source computes it: unchanged without the prefix, never longer |
| PlayerMessage.CleanMessage | tooldelta/plugin_load/PluginGroup.py:267-269 | a message with the chat prefix loses exactly the prefix; any other message is unchanged |
| PlayerMessage.CleanMessageRoundTrip | tooldelta/plugin_load/PluginGroup.py:267-269 | cleaning `prefix + body` gives `body` |
| PlayerMessage.StripEatsMessage | tooldelta/plugin_load/PluginGroup.py:267-269 | as written, `"[Steve] test"` becomes `"s"`; the prefix removal gives `"test"` |
| PlayerMessage.AsWrittenAgreesOnPlainBodies | tooldelta/plugin_load/PluginGroup.py:267-269 | the two agree when the body neither starts nor ends with a character of the prefix |
| PlayerMessage.StripLeftPrefix | tooldelta/plugin_load/PluginGroup.py:269 | `lstrip` removes a leading run of set characters up to the first character outside the set |
| PlayerMessage.Examples | tooldelta/plugin_load/PluginGroup.py:267-269 | `"[Steve] hello"` becomes `"hello"` under the code as written |
| PlayerMessage.PlainExample | tooldelta/plugin_load/PluginGroup.py:267-269 | `"hello"`, which lacks the prefix, stays as it is |
| PlayerMessage.StripParts | tooldelta/plugin_load/PluginGroup.py:269 | an `lstrip` followed by an `rstrip` leaves a slice of the message with only stripped characters cut off on either side |
| PluginGroupModel.Calls | tooldelta/plugin_load/PluginGroup.py:239-296 | one call per hook |
| PluginGroupModel.CallsMeaning | tooldelta/plugin_load/PluginGroup.py:239-296 | the calls follow the hooks in order, each calling its hook's function with the event's arguments |
| PluginGroupModel.Failures | tooldelta/plugin_load/PluginGroup.py:241-244 | never more reports than hooks (which reports there are: `FailuresExact`) |
| PluginGroupModel.HookStep | tooldelta/plugin_load/PluginGroup.py:239-244 | running one more hook adds one call, and a report exactly when that hook raised |
| PluginGroupModel.FailuresAppend | tooldelta/plugin_load/PluginGroup.py:241-244 | hooks are isolated: the reports of a list of hooks are those of its parts |
| PluginGroupModel.FailuresExact | tooldelta/plugin_load/PluginGroup.py:241-244 | a report exists exactly for each hook that raised, with its name and error, and there are no more reports than hooks |
| PluginGroupModel.CallsAppend | tooldelta/plugin_load/PluginGroup.py:239-296 | the calls of a list of hooks are those of its parts |
| PluginGroupModel.FirstExitMeaning | tooldelta/plugin_load/PluginGroup.py:239-244 | no hook before the first escaping one escapes, and the hook at that position does |
| PluginGroupModel.FirstExitAt | tooldelta/plugin_load/PluginGroup.py:239-244 | the first escaping hook is the one before which none escapes |
| PluginGroupModel.Ran | tooldelta/plugin_load/PluginGroup.py:239-244 | when no hook's exception escapes `except Exception`, every hook runs |
| PluginGroupModel.ExitStopsLaterHooks | tooldelta/plugin_load/PluginGroup.py:239-244 | a hook whose exception escapes is the last one called |
| PluginGroupModel.RanAfterExit | tooldelta/plugin_load/PluginGroup.py:239-244 | once a hook escapes, no hook after it changes what ran |
| PluginGroupModel.RanAfterQuiet | tooldelta/plugin_load/PluginGroup.py:239-244 | when no hook of a first part escapes, running both parts is running all of the first, then the second as far as it gets |
| PluginGroupModel.RunHooks | tooldelta/plugin_load/PluginGroup.py:239-244 | hooks are called once each, in order, whatever their `Exception`s, up to and including the first whose exception escapes `except Exception`; each `Exception` of a called hook is reported once, and whether one escaped is returned |
| PluginGroupModel.FirstFatal | tooldelta/plugin_load/PluginGroup.py:224-237 | the first `on_def` hook that raises a dependency error or an exception that is not an `Exception`; no earlier hook does |
| PluginGroupModel.NoFatalBefore | tooldelta/plugin_load/PluginGroup.py:224-237 | every error reported before the first dependency error is an ordinary one |
| PluginGroupModel.CheckSystemVersion | tooldelta/plugin_load/PluginGroup.py:164-168 | passes exactly when the needed version equals the host's or is older |
| PluginGroupModel.Publish | tooldelta/plugin_load/PluginGroup.py:96-108 | publishing to a non-empty listener list never gives `None` |
| PluginGroupModel.PublishStep | tooldelta/plugin_load/PluginGroup.py:101-106 | one listener's reply decides whether the chain raises, stops, skips or collects |
| PluginGroupModel.ExtendPrepend | tooldelta/plugin_load/PluginGroup.py:103-104 | appending an extras list to the collected lists keeps their order |
| PluginGroupModel.PublishCollectsExtras | tooldelta/plugin_load/PluginGroup.py:101-104 | every collected list is non-empty and is some listener's extras, and there are no more lists than listeners |
| PluginGroupModel.StopIndex | tooldelta/plugin_load/PluginGroup.py:101-106 | the number of listeners called: up to and including the first that raises or interrupts with extras, all of them otherwise |
| PluginGroupModel.StopAt | tooldelta/plugin_load/PluginGroup.py:101-106 | when listener `i` is the first to raise or interrupt with extras, `i + 1` listeners are called |
| PluginGroupModel.NonEmptyExtras | tooldelta/plugin_load/PluginGroup.py:103-104 | the non-empty extras of the listeners, at most one list per listener, none empty |
| PluginGroupModel.PublishCollectsAll | tooldelta/plugin_load/PluginGroup.py:101-106 | when no listener raises or interrupts with extras, the result is every non-empty extras list, in listener order |
| PluginGroupModel.PublishStopsAtInterrupt | tooldelta/plugin_load/PluginGroup.py:103-106 | nothing after an interrupting listener with extras matters: the result is the earlier non-empty extras in order, then the interrupting listener's |
| PluginGroupModel.EmptyInterruptContinues | tooldelta/plugin_load/PluginGroup.py:103-106 | an interrupt without extras does not stop the chain |
| PluginGroupModel.PublishRaises | tooldelta/plugin_load/PluginGroup.py:102 | a listener that raises before any interruption makes the broadcast raise |
| PluginGroupModel.Fired | tooldelta/plugin_load/PluginGroup.py:196-218 | a tick always fires at least the 1s bucket, and fires it last |
| PluginGroupModel.Timed | tooldelta/plugin_load/PluginGroup.py:196-217 | the three timed blocks never fire the 1s bucket |
| PluginGroupModel.Later | tooldelta/plugin_load/PluginGroup.py:204-217 | the 30s and 10s blocks fire neither the 1s nor the 1m bucket |
| PluginGroupModel.Block | tooldelta/plugin_load/PluginGroup.py:196-217 | one timed block fires its bucket exactly when that bucket is due, and no other bucket |
| PluginGroupModel.Advance | tooldelta/plugin_load/PluginGroup.py:196-217 | after a tick no 1m, 30s or 10s bucket is still due at the tick's time |
| PluginGroupModel.TickMeaning | tooldelta/plugin_load/PluginGroup.py:194-222 | a tick fires exactly the due buckets, the 1s bucket last, and moves exactly the fired buckets' stamps to now |
| PluginGroupModel.StampNotBefore | tooldelta/plugin_load/PluginGroup.py:194-216 | with a clock that never goes back, a bucket's later stamp is at least the time it last fired |
| PluginGroupModel.NeverEarly | tooldelta/plugin_load/PluginGroup.py:196-216 | two firings of the 1m, 30s or 10s bucket are more than 60, 30 or 10 seconds apart |
| PluginGroupModel.ScheduleExample | tooldelta/plugin_load/PluginGroup.py:184-222 | ticks at 100, 105, 111, 131 fire all buckets, then only 1s, then 10s, then 30s and 10s |
| PluginGroupModel.TickRunsEveryTask | tooldelta/plugin_load/PluginGroup.py:217-222 | every 1s task is among the tasks of every tick |
| PluginGroupModel.TaskListAppend | tooldelta/plugin_load/PluginGroup.py:196-222 | the tasks of consecutive bucket lists are the tasks of each, in order |
| PluginGroupModel.EscapeDecides | tooldelta/plugin_load/PluginGroup.py:193-222 | once a task of the buckets fired so far escapes, the buckets after them change nothing |
| PluginGroupModel.TicksMatchExtend | tooldelta/plugin_load/PluginGroup.py:193-222 | a run whose ticks so far made the calls and reports their stamps demand keeps doing so when the next tick does |
| PluginGroupModel.TicksQuietExtend | tooldelta/plugin_load/PluginGroup.py:193-222 | a run none of whose ticks escaped, each firing what was due, stays so when the next tick does |
| PluginGroupModel.PluginGroup.constructor | tooldelta/plugin_load/PluginGroup.py:23-50 | every registry starts empty, with all seven hook lists and all four task buckets present |
| PluginGroupModel.PluginGroup.AddBroadcastListener | tooldelta/plugin_load/PluginGroup.py:86-94 | the listener is appended to its event's list, which is created when missing or empty; other events are unchanged |
| PluginGroupModel.PluginGroup.AddListenPacketFunc | tooldelta/plugin_load/PluginGroup.py:174-178 | the handler is appended to its packet id's list, created when missing or empty; other ids are unchanged |
| PluginGroupModel.PluginGroup.AddListenPacketId | tooldelta/plugin_load/PluginGroup.py:170-172 | the id joins the interest set and is passed on to the game connection |
| PluginGroupModel.PluginGroup.AddPacketListener | tooldelta/plugin_load/PluginGroup.py:130-139 | one `(id, func)` pair is staged for an int, one per id in order for an iterable; the callable is returned unchanged |
| PluginGroupModel.PluginGroup.AddPlugin | tooldelta/plugin_load/PluginGroup.py:117-128 | a `Plugin` subclass is staged and returned; anything else raises `NotValidPluginError` and stages nothing |
| PluginGroupModel.PluginGroup.AddPluginAsApi | tooldelta/plugin_load/PluginGroup.py:141-152 | an argument that is not a class raises `TypeError` (there is no fallback); a `Plugin` subclass is staged with its API name and returned; any other class raises `NotValidPluginError`; nothing is staged on an error |
| PluginGroupModel.PluginGroup.GetPluginApi | tooldelta/plugin_load/PluginGroup.py:154-162 | an unknown name raises `PluginAPINotFoundError`; a non-empty minimum lexicographically above the plugin's version raises `PluginAPIVersionError`; otherwise the registered plugin is returned |
| PluginGroupModel.PluginGroup.ProcessPacketFunc | tooldelta/plugin_load/PluginGroup.py:298-309 | handlers run in registration order; the result is true exactly when some handler returns truthy; the first truthy one stops the search; raising handlers are skipped; without success every handler ran |
| PluginGroupModel.PluginGroup.BroadcastEvt | tooldelta/plugin_load/PluginGroup.py:96-108 | no listeners gives `None`; otherwise the result is what publishing to the listeners gives, and the listeners called are, in order, those up to and including the first that raises or interrupts with extras, or all of them |
| PluginGroupModel.PluginGroup.ExecuteDef | tooldelta/plugin_load/PluginGroup.py:224-237 | hooks run in order up to and including the first dependency error (which aborts with `SystemExit`) or exception that is not an `Exception` (which escapes); every other error before it is reported, and only such errors are reported |
| PluginGroupModel.PluginGroup.ExecuteInit | tooldelta/plugin_load/PluginGroup.py:239-244 | the `on_inject` hooks run once each in order, up to and including the first whose exception escapes `except Exception`; each `Exception` is reported once |
| PluginGroupModel.PluginGroup.ExecutePlayerPrejoin | tooldelta/plugin_load/PluginGroup.py:246-253 | the same for `on_player_prejoin`, with the player |
| PluginGroupModel.PluginGroup.ExecutePlayerJoin | tooldelta/plugin_load/PluginGroup.py:255-262 | the same for `on_player_join`, with the player |
| PluginGroupModel.PluginGroup.ExecutePlayerMessage | tooldelta/plugin_load/PluginGroup.py:264-274 | the same for `on_player_message`, with `msg.strip("[<player>] ")` when the message starts with that prefix and the message unchanged otherwise |
| PluginGroupModel.PluginGroup.ExecutePlayerLeave | tooldelta/plugin_load/PluginGroup.py:276-283 | the same for `on_player_leave`, with the player |
| PluginGroupModel.PluginGroup.ExecutePlayerDeath | tooldelta/plugin_load/PluginGroup.py:285-296 | the same for `on_player_death`, with player, killer and message |
| PluginGroupModel.PluginGroup.RepeatTick | tooldelta/plugin_load/PluginGroup.py:194-222 | one tick runs the tasks of the due buckets in the order 1m, 30s, 10s, 1s, reporting every `Exception`, up to and including the first task whose exception escapes; a tick where none escapes fires exactly the due buckets and updates exactly their stamps |
| PluginGroupModel.RunBucket | tooldelta/plugin_load/PluginGroup.py:196-203 | one `if` block: a due bucket's tasks extend the calls and reports of the buckets before it, a bucket that is not due changes nothing; when one of its tasks escapes, the calls and reports are those of everything up to that task, whatever buckets would have followed |
| PluginGroupModel.PluginGroup.RunTimed | tooldelta/plugin_load/PluginGroup.py:196-217 | the 1m, 30s and 10s blocks run the due buckets' tasks in that order up to the first task whose exception escapes; when none escapes, exactly the due buckets fire and exactly their stamps move to the clock reading |
| PluginGroupModel.PluginGroup.RunLater | tooldelta/plugin_load/PluginGroup.py:204-217 | the 30s and 10s blocks, after earlier buckets none of whose tasks escaped, continue their calls and reports; when none escapes they move exactly the due buckets' stamps |
| PluginGroupModel.PluginGroup.RunLast | tooldelta/plugin_load/PluginGroup.py:211-217 | the 10s block continues the calls and reports of the earlier buckets, and moves its stamp exactly when it is due and no task escaped |
| PluginGroupModel.PluginGroup.TickAt | tooldelta/plugin_load/PluginGroup.py:193-222 | tick `t` of a run makes the calls and reports that the stamps left by the earlier ticks demand |
| PluginGroupModel.PluginGroup.RunRepeatFuncs | tooldelta/plugin_load/PluginGroup.py:184-222 | with all buckets empty nothing runs; otherwise the `while 1` loop of `RunTicks` |
| PluginGroupModel.PluginGroup.RunTicks | tooldelta/plugin_load/PluginGroup.py:193-222 | every tick, starting from zero stamps, makes the calls and reports its stamps demand and fires what is due; the ticks run for every clock reading unless a task's exception escapes, and then that tick is the last |

## Left out

- Reading and writing files: `get_cfg`, `default_cfg`, `exists`, `ujson` parsing and the file-touching steps of `getPluginConfigAndVersion`. Documents are already parsed `Json` values.
- Duplicate keys in a JSON object: lookup takes the first member with the name.
- Plugin loading and hot reload (`read_all_plugins`, `load_plugin_hot`, `require`): imports, `asyncio`, pip and loader modules that are not part of this model.
- The loader code that moves the staging cache into `plugins_api`, `plugins_funcs`, `packet_funcs` and the task buckets is not part of this model; those registries are fields that start empty.
- The repeating-task thread, `time.sleep` and `time.time()`: clock readings are an abstract sequence of integers, and only finitely many ticks are modelled.
- `PluginGroupModel.PluginGroup.RunRepeatFuncs`: float clock readings are not modelled, so a reading between two whole seconds is not covered.
- `Plugin.__subclasscheck__` in `add_plugin` and `add_plugin_as_api` is reflection; it is abstracted as the flags `isClass` and `isPluginClass`.
- `PluginGroupModel.PluginGroup.ProcessPacketFunc`: the bare `except:` reads `func.__name__` to print the error, so a handler object without `__name__` makes `processPacketFunc` raise `AttributeError`; handlers are taken to have a name.
- `PluginGroupModel.PluginGroup.RunRepeatFuncs` and `PluginGroupModel.PluginGroup.RunTicks`: the buckets listed for the tick whose task escaped are not specified; that tick's calls and reports are.
- `PluginGroupModel.PluginGroup.RepeatTick`: the stamps and fired buckets it returns when a task escapes are not specified, since the scheduler ends there.
- `PluginGroupModel.PluginGroup.RunTimed`, `PluginGroupModel.PluginGroup.RunLater` and `PluginGroupModel.PluginGroup.RunLast`: likewise, their stamps and fired buckets are not specified when a task escapes.
- `test_plugin`, all `Print.*` output, `traceback.format_exc`, the error-message texts and `_CfgShowType`: only error kinds, `errPos` and reported hook names are kept.
- `add_listen_pkt` on the game connection is recorded only in the ghost log `forwardedIds`.
- Class-level attributes shared between instances (`plugins_funcs`, `plugin_added_cache`, `pluginAPI_added_cache`): one instance is assumed.
- A plugin callable's outcome depends only on the callable and its arguments. A callable that changes the registry while a dispatch runs, or that answers differently on a later tick, is not modelled.
- `onerr` itself raising is not modelled; it is taken to return.
- The arguments passed to packet handlers and broadcast listeners (`pkt`, `**kwargs`) are fixed for one dispatch and so folded into `behave`.
- Packet ids are modelled as integers, not the `str(pktID)` keys of `packet_funcs`; `str` is injective on integers, so routing is the same.
- `str.isnumeric` and `int` accept other Unicode digits, surrounding whitespace and underscores; only ASCII digits, with an optional leading '+' or '-' for `int`, are modelled.
- `_CfgIsinstance` on a tuple that contains something other than a type, which raises `ValueError` in the source, is not modelled: tuple patterns hold types only.
- The `getPluginConfigAndVersion` guard `not exists(p) and default` is not modelled, since it reads the file system.

## Findings

| source | as written | input that shows it | evidently intended | confidence | as-written member | corrected member |
|---|---|---|---|---|---|---|
| tooldelta/plugin_load/PluginGroup.py:267-269 | `msg.strip(pat)` removes every leading and trailing character that occurs in `"[<player>] "` | player `"Steve"`, message `"[Steve] test"` reaches the hooks as `"s"` | remove the prefix once, giving `"test"` | not executed; high | PlayerMessage.MessageAsWritten, PlayerMessage.StripEatsMessage | PlayerMessage.CleanMessage, PlayerMessage.CleanMessageRoundTrip |
