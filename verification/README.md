# Bcfg2, modelled and proved in Dafny

Bcfg2 is a configuration management system: a server renders the configuration of each client, a
client compares it with its machine and installs what differs. This project models its most
intricate logic and proves what that logic is for. `dafny verify dfyconfig.toml` checks all of it.

| module | what it is about |
|---|---|
| OptionModel, OptionRuns, OptionLosses, OptionOutcomes, OptionParser | the option parser, whose loops re-parse while components and config files add options and empty the namespace |
| ClientRun, ClientChoices | one run of the client: inventory, important files, decision, installation, notification of bundles, with arbitrary tools; what its lists and options come to |
| RpcQueue | calls from the parent server to its child processes over queues and listeners, and the choice of a child |
| TaggedCache, CacheCoherence, CacheConflicts | the cache seen through views, its expiry broadcast to child processes, and the expiries that conflict |
| Statistics | running statistics and their aggregation over processes |
| XmlTree, XmlEqual, SortXml | unordered comparison of XML trees, and sorting as a canonical form |
| PlaceSource | the migration of package sources into nested groups |
| DateFormat, DateLetters, CalendarGrid | the date printer and parser, what the letters of a format mean, and the calendar of the reports |
| RpmVersions, DebianPkglist, DebianIndices | version ordering with pruning, and package lists that coalesce architectures, from what the indices say |
| PackedRange, LogLayout | ranges of integers as text, and the layout of log messages |
| Common, Text, Ordering | options and results, numbers as text, permutations and the stable sort |

Objects whose methods change their fields are classes, loops are loops, and each such method is tied
to a specification function or relation about which the lemmas speak. The two concurrent components,
RpcQueue and CacheCoherence, are transition systems whose steps interleave in every possible way.

Where the code does not do what is promised for it, the code is modelled as it is:

- A component option that takes its default from the declaration, the environment or a config file, and
  is finalized, loses its value when the namespace is emptied afterwards; the flag that it is final
  stays, so the raw names are all that is left at the end. A second parse does this to every such
  option, and does not read the changed config file again (`OptionParser.Parser.Reparse`). In a first
  parse whose config file options are all predictable, exactly the options that come before one whose
  file is read late lose their value (`OptionParser.Parser.Parse`, `OptionLosses.RoundMakesLate`; an
  example is `OptionParser.LateConfigFileLosesPlugins`). A config file option is predictable if no
  source of a value for it names a file, or if it is known at the start and is either given on the
  command line or names a file in every source; it is read late if it has arguments, is not given, and
  is predictable in the last way.
- Two threads that expire overlapping keys at the same time make one of them fail with a KeyError, and
  a stale entry may stay. `CacheConflicts.DrainedIsFreshExactly` says for which expiries this can
  happen.
- `expire(exact=True)` without tags removes everything, although the documentation of `exact` says
  that nothing is removed unless exactly one item matches; it does as documented exactly if a tag is
  named or nothing tagged is in the cache (`TaggedCache.ExactIsAsDocumentedExactly`).
- Sorting is canonical exactly for documents in which siblings that the sort does not tell apart, by
  equal keys or because keys do not compare, are isomorphic (`SortXml.SortIsCanonicalExactly`);
  elements without a name have no key (`SortXml.NamelessSiblingsKeepTheirOrder`).
- A date format whose last hour is one of twelve and that has no `a` loses half of the day, even if it
  also shows the hour of 24, and years outside 1801 to 2899 do not survive any
  (`DateFormat.RoundTripExactly`, `DateFormat.FormatRoundTripsExactly`); 29 February of the
  year 0000 is accepted and nothing else that is no date (`DateFormat.OnlyDatesAreAccepted`,
  `DateFormat.YearZeroLeapDayIsAccepted`).
- A year that the format does not mention is today's only from 1900 to 1999: it is counted from 1900
  and only the years 0 to 99 are taken for those from 1900 on (`DateLetters.UnmentionedIsToday`).
- For the years 0 to 99 the calendar puts every day under the wrong weekday
  (`CalendarGrid.ColumnsAreWeekdaysExactly`).
- Versions with `rc` or `pre` parts can go in circles (`RpmVersions.PreReleasesGoInCircles`);
  `RpmVersions.VersionsGoInCirclesExactly` says which.
- `list2range` drops 0, and its output for the empty list or for negative numbers cannot be read; nor
  can the brackets around all but a single number (`PackedRange.List2Range`).
- A statistic of the parent that is called `Total:x` takes the place of a total;
  `Statistics.ClashedTotalIsRightExactly` says when that total is right nevertheless.
- A client in several architectures sees the packages of all of them
  (`DebianPkglist.LosslessExactly`).
- A column as wide as the terminal is a division by zero (`LogLayout.FormatColumns`).

## Model

| member | source | states |
|---|---|---|
| OptionParser.Parser.Parse | src/lib/Bcfg2/Options/Parser.py:281-363 | Phases 1 and 3 of `parse` return for every finite universe of components and config files, on a first parse and on any later one; the arguments parsed last are not parsed again. Without an error no argument is left over, every loaded component's options are parsed, and every option is worth what `Settles` says: its argument, else environment, else config files, else declared default, component options resolved and loaded, of a config file option that has been read the file that its default named then, of any other the default; the settings are the merge of the files read, first of all the main one that the argument or else its default names. In plain terms (`AllPlainly`): a boolean option that is given turns its declared default over, and is true without one; a boolean without arguments whose default is a flag ends as that flag; a component option that is given, or has no arguments and a default that names something, stands for the components that its names are mapped to, in their order; every argument belongs to a known option (`AllKnown`); of the config file options known at the start exactly those are newly read that some argument names a file for, if any are given (`ReadsAsGiven`), and of all options those at least (`AllGivenRead`); the reserved places of the namespace keep what they hold (`KeepsReserved`). In a first parse of predictable config file options, every component option with arguments that is not given holds its raw default if it comes before one that is read late, and the resolved one otherwise |
| OptionParser.Parser.Reparse | src/lib/Bcfg2/Options/Parser.py:268-279 | `reparse` empties the namespace and parses again, the earlier arguments unless others are given: no config file is read twice, the main one included, and what the namespace holds for a file that was read stays, unless it is given anew; every component option of the last parse that has arguments and is not given is left raw, and, if no further file is read, the options of components loaded since are resolved |
| OptionLosses.RoundKeepsRead | src/lib/Bcfg2/Options/Parser.py:196-206 | In a round nothing changes that the namespace holds for a file that was read or in a reserved place, except by an argument for it |
| OptionParser.Parser.ReadMain | src/lib/Bcfg2/Options/Parser.py:298-309 | Phase 1 reads the main config file that the argument or else the default names, exactly if none has been read for it |
| OptionParser.Parser.ReadAll | src/lib/Bcfg2/Options/Parser.py:345-348 | The first loop ends and only loads and reads more; in a predictable first parse every config file option without arguments has then been dealt with, and no component option with arguments finalized |
| OptionParser.Parser.ParseAll | src/lib/Bcfg2/Options/Parser.py:349-361 | The second loop ends, with every option settled; in a predictable first parse exactly the options foreseen are stale |
| OptionParser.AfterReparse | src/lib/Bcfg2/Options/Parser.py:278-279 | After a second parse the raw options are told by what was final before it, and with the same config files the settings are the same too |
| OptionParser.ResetKeeps | src/lib/Bcfg2/Options/Parser.py:196-206 | What an emptied namespace still holds stems from the arguments for config files; the invariant is kept with respect to these |
| OptionLosses.FirstFinalize | src/lib/Bcfg2/Options/Parser.py:187-194 | The first `Finalize` resolves the options in turn, and each config file that it reads makes exactly the options before it stale |
| OptionLosses.RoundMakesLate | src/lib/Bcfg2/Options/Parser.py:351-361 | After the first round of the second loop no config file is read any more, and the stale options with arguments that are not given are exactly those that come before a config file option read late |
| OptionLosses.FirstLoop | src/lib/Bcfg2/Options/Parser.py:345-348 | The first loop finalizes no component option with arguments and deals with all config file options without |
| OptionLosses.SettlesAsForeseen | src/lib/Bcfg2/Options/Actions.py:20-28 | A component option that is not given ends as the default itself if it comes before one that is read late, and as what the default stands for otherwise |
| OptionLosses.DefaultNames | src/lib/Bcfg2/Options/Options.py:253-270 | Whether an option's default names a file can be told from environment, declaration and the config files there are, if these agree |
| OptionLosses.RawIsNotResolved | src/lib/Bcfg2/Options/Actions.py:153-166 | A default that is left raw differs from what it stands for, unless it is None |
| OptionParser.PluginsAreForeseen | src/lib/Bcfg2/Options/Actions.py:20-28 | The concrete case meets the conditions of the general result |
| OptionRuns.RoundKeeps | src/lib/Bcfg2/Options/Parser.py:351-361 | One round of the second loop keeps the invariant, only loads and reads more, clears `parsed` only if the number of unloaded components and unread config files went down, and if `parsed` is still set every option is settled and all that can be finalized are final |
| OptionRuns.KnownSettles | src/lib/Bcfg2/Options/Parser.py:187-194 | The state of an entry at the end of a last round decides exactly what the option is worth; a component option's default is left raw if and only if the namespace was emptied after the option was finalized; a config file option that has been read names the file that was read, which is the default that the files before it gave, and any other one holds its default, which names a file only if the option lost its entry that way |
| OptionRuns.FirstReading | src/lib/Bcfg2/Options/Actions.py:174-180 | A config file option that is not given is read as the default that it has at that time |
| OptionRuns.CallKeeps | src/lib/Bcfg2/Options/Actions.py:26-28 | Calling the action of an option, with an argument or with its default, keeps the invariant, changes no other entry unless the namespace is emptied, and obeys an argument (for a boolean flag: the negation of the declared default) |
| OptionRuns.CallComponentKeeps | src/lib/Bcfg2/Options/Actions.py:153-166 | A component action loads every component named by the value, with all its options, and stores what the names stand for |
| OptionRuns.CallConfigFileKeeps | src/lib/Bcfg2/Options/Actions.py:174-180 | A config file action reads its file once, which empties the namespace without breaking any entry that stays |
| OptionRuns.CallStoreKeeps | src/lib/Bcfg2/Options/Options.py:425-431 | A store or boolean action leaves the value that the precedence asks for |
| OptionRuns.LoadEachKeeps | src/lib/Bcfg2/Options/Actions.py:158-162 | After loading a list of names without an error, every component that the names stand for is loaded, with all its options |
| OptionRuns.AddComponentKeeps | src/lib/Bcfg2/Options/Parser.py:150-157 | A loaded component has all its options among the parser's; loading a new one reduces the termination measure |
| OptionRuns.AddOptionKeeps | src/lib/Bcfg2/Options/Parser.py:125-148 | A new option gets the default that environment and the config files read so far give it, and has no entry yet |
| OptionRuns.AddEachKeeps | src/lib/Bcfg2/Options/Parser.py:131-148 | All options of a list end up among the parser's, with up-to-date defaults |
| OptionRuns.ReadingDefaults | src/lib/Bcfg2/Options/Parser.py:259-266 | Reading a file appends its settings, forgets the namespace and computes every option's default anew |
| OptionRuns.ReadingKeepsCore | src/lib/Bcfg2/Options/Parser.py:255-266 | After a config file is read every option's default is environment, else all config files read so far, else the declared default; only entries of config file options survive |
| OptionRuns.AddConfigFileKeeps | src/lib/Bcfg2/Options/Parser.py:255-266 | Reading a further config file keeps the invariant and reduces the termination measure; options finalized before are noted as stale |
| OptionRuns.ResetKeepsEntries | src/lib/Bcfg2/Options/Parser.py:196-206 | What remains in the namespace after it is emptied is still right under the new config files |
| OptionRuns.LaterDefault | src/lib/Bcfg2/Options/Options.py:260-270 | When a further file is read an option keeps what was configured before unless environment or the file say otherwise |
| OptionRuns.FirstDefault | src/lib/Bcfg2/Options/Options.py:253-270 | A new option has the default of the precedence |
| OptionRuns.SetDefaultsSets | src/lib/Bcfg2/Options/Parser.py:159-167 | Exactly the options whose default has not been set get it from environment or config files |
| OptionRuns.SetDefaultsIsIdle | src/lib/Bcfg2/Options/Parser.py:345-348 | In the loops the defaults are always up to date already |
| OptionRuns.ParseConfigOptionsKeeps | src/lib/Bcfg2/Options/Parser.py:169-185 | Every option without arguments gets an entry, no existing entry changes, and the invariant and the measure are kept |
| OptionRuns.PutDefaultKeeps | src/lib/Bcfg2/Options/Parser.py:182-185 | Storing a default that names nothing under an option that has no entry keeps the invariant |
| OptionRuns.FillInKeeps | src/lib/Bcfg2/Options/Parser.py:355-356 | Before any argument is acted on, every option with arguments has an entry, existing ones unchanged |
| OptionRuns.ParseArgsKeeps | src/lib/Bcfg2/Options/Parser.py:351-356 | If nothing empties the namespace, the last argument for each option is obeyed and unnamed entries are unchanged |
| OptionRuns.FinalizeKeeps | src/lib/Bcfg2/Options/Parser.py:187-194 | Finalizing makes every component and config file option final and leaves final and ordinary options alone |
| OptionRuns.FinalizeOptionKeeps | src/lib/Bcfg2/Options/Actions.py:20-24 | A default is finalized at most once, with the entry or else the default |
| OptionRuns.MissingShrinks | src/lib/Bcfg2/Options/Parser.py:345-361 | Loading a component or reading a file for the first time strictly reduces the termination measure |
| OptionParser.LateConfigFileLosesPlugins | src/lib/Bcfg2/Options/Actions.py:20-28 | A concrete run in which the default of a component option is resolved, then lost to a config file read later, and at exit is the raw list of names |
| OptionParser.Parser.Init | src/lib/Bcfg2/Options/Parser.py:103-120 | A new parser with its own options and the given components is ready to parse |
| OptionParser.Parser.AddOptions | src/lib/Bcfg2/Options/Parser.py:125-148 | Adds the options in turn as the specification says, or raises on a duplicate environment variable or config key |
| OptionParser.Parser.AddComponent | src/lib/Bcfg2/Options/Parser.py:150-157 | Adds a component once, with its options |
| OptionParser.Parser.DefaultFromConfig | src/lib/Bcfg2/Options/Options.py:253-270 | The default becomes the environment's value, else the config files', else stays |
| OptionParser.Parser.SetDefaultsFromConfig | src/lib/Bcfg2/Options/Parser.py:159-167 | Refines the specification of the pass over the options |
| OptionParser.Parser.ResetNamespace | src/lib/Bcfg2/Options/Parser.py:196-206 | Drops all entries but the reserved ones and those of config file options |
| OptionParser.Parser.AddConfigFile | src/lib/Bcfg2/Options/Parser.py:255-266 | Refines the specification of reading a further config file |
| OptionParser.Parser.LoadComponents | src/lib/Bcfg2/Options/Actions.py:158-162 | Loads the named components and lists what they stand for, or raises for one that cannot be loaded |
| OptionParser.Parser.Call | src/lib/Bcfg2/Options/Actions.py:153-180 | Refines the specification of the four kinds of action, with their errors |
| OptionParser.Parser.ParseConfigOptions | src/lib/Bcfg2/Options/Parser.py:169-185 | Refines the specification of the pass over the options without arguments |
| OptionParser.Parser.Finalize | src/lib/Bcfg2/Options/Parser.py:187-194 | Refines the specification of the finalizing pass |
| OptionParser.Parser.ParseKnownArgs | src/lib/Bcfg2/Options/Parser.py:351-356 | Refines the specification of argparse's parser; returns the arguments no option takes |
| OptionParser.Parser.ReadConfigFiles | src/lib/Bcfg2/Options/Parser.py:345-348 | One round of the first loop keeps the invariant and makes progress |
| OptionParser.Parser.ParseOnce | src/lib/Bcfg2/Options/Parser.py:351-361 | One round of the second loop refines `Round` |
| OptionOutcomes.SettlesPlainly | src/lib/Bcfg2/Options/Options.py:408-431 | What an option is worth, told without the parser's own notion of truth: the negation of the declared flag, the configured flag, the argument, the default, the components named, the file named |
| OptionOutcomes.ResolvedStandsFor | src/lib/Bcfg2/Options/Actions.py:153-166 | What a component option stores stands for the names it was given: all that are mapped, in their order, the characters of a text that is given for a list, one class or none where no list is asked for |
| OptionOutcomes.ClassesInOrder | src/lib/Bcfg2/Options/Actions.py:158-162 | Each name that is mapped has its component at the place that the number of mapped names before it says, and there are no others |
| OptionOutcomes.CharactersAre | src/lib/Bcfg2/Options/Actions.py:158-162 | A text in place of a list is gone through character by character |
| OptionOutcomes.RoundReadsAsGiven | src/lib/Bcfg2/Options/Actions.py:169-180 | In every round the file of a config file option that is given is read exactly if some argument for it is not the empty text, or it has been read before; its default is never read in its place |
| OptionOutcomes.ArgsRead | src/lib/Bcfg2/Options/Actions.py:169-180 | The arguments in turn read exactly the files that they name |
| OptionOutcomes.FinalizeReadsOthers | src/lib/Bcfg2/Options/Actions.py:20-24 | Finalizing reads no file for an option that is final |
| OptionOutcomes.FirstLoopReadsNoneOf | src/lib/Bcfg2/Options/Parser.py:345-348 | The first loop reads no file of an option that has arguments |
| OptionOutcomes.LastFileCounts | src/lib/Bcfg2/Options/Parser.py:261-262 | A setting is that of the last file read that has it |
| OptionOutcomes.NoFileCounts | src/lib/Bcfg2/Options/Parser.py:261-262 | A setting that no file read has is not there |
| OptionOutcomes.RefusedExactly | src/lib/Bcfg2/Options/Parser.py:133-142 | A new option is refused exactly if an option that is there has its environment variable or its place in the config files |
| OptionOutcomes.NothingRemainsExactly | src/lib/Bcfg2/Options/Parser.py:351-363 | No argument is left over exactly if each belongs to some option with arguments |
| XmlEqual.AssertXMLEqual | testsuite/common.py:172-210 | Succeeds exactly when the trees are isomorphic up to sibling order (tag, stripped text, attributes, some pairing of the children); the check for extra elements never fails |
| XmlEqual.LeavesAreEqualExactly | testsuite/common.py:172-210 | Two leaves of one tag and attributes, the text of the second with spaces around it, are equal if and only if the texts are, spaces at the ends aside |
| XmlEqual.MissingTextIsNoText | testsuite/common.py:181-185 | An element without text does not equal one with text, even empty text |
| XmlEqual.StripTrims | testsuite/common.py:183-184 | Stripping takes all spaces off both ends and nothing else |
| XmlEqual.SpacesAre | testsuite/common.py:183-184 | What counts as a space, by listing; no printed ASCII character does |
| XmlEqual.MatchChildren | testsuite/common.py:194-210 | The greedy loop over the children succeeds exactly when some pairing of isomorphic children exists |
| XmlEqual.FirstUnusedMatch | testsuite/common.py:196-204 | Finds the first unused isomorphic child, and fails only if there is none |
| XmlEqual.Exchange | testsuite/common.py:200-202 | A pairing can be changed to agree with any greedy choice, since isomorphism is an equivalence |
| XmlEqual.GreedyStep | testsuite/common.py:200-202 | A greedy choice never rules out a pairing that was possible |
| XmlEqual.SomeFits | testsuite/common.py:205-208 | If the children can be paired, some unused child fits the next one |
| XmlTree.IsoRefl | testsuite/common.py:172-210 | Isomorphism up to sibling order is reflexive |
| XmlTree.IsoSym | testsuite/common.py:172-210 | Isomorphism up to sibling order is symmetric |
| XmlTree.IsoTrans | testsuite/common.py:172-210 | Isomorphism up to sibling order is transitive |
| SortXml.SortXml | src/lib/Bcfg2/Server/Core.py:56-75 | The in-place recursion leaves the tree that `Sorted` describes, without new or lost elements |
| SortXml.SortChildren | src/lib/Bcfg2/Server/Core.py:68-69 | Every child of the node is sorted, in place and in order |
| SortXml.OnlyPermutesSiblings | src/lib/Bcfg2/Server/Core.py:56-75 | Sorting yields a tree isomorphic up to sibling order, whatever the keys |
| SortXml.SiblingOrderAscends | src/lib/Bcfg2/Server/Core.py:71-72 | Siblings with comparable keys come out in ascending order |
| SortXml.ChildrenGoByName | src/lib/Bcfg2/Server/Core.py:728 | The children of a sorted configuration stand in the order of their names, if they all have one |
| SortXml.SortIsIdempotent | src/lib/Bcfg2/Server/Core.py:56-75 | Sorting twice is sorting once, including the fallback for keys that do not compare |
| SortXml.SortIsCanonicalExactly | src/lib/Bcfg2/Server/Core.py:56-75 | All trees that differ from a tree in sibling order only sort to the same tree if and only if, at every node, siblings that the sort does not tell apart (equal keys, or any where keys do not compare) are themselves isomorphic |
| SortXml.SortIsCanonical | src/lib/Bcfg2/Server/Core.py:56-75 | Under that condition trees that differ in sibling order only sort to the same tree |
| SortXml.AmbiguousHasTwin | src/lib/Bcfg2/Server/Core.py:56-75 | Otherwise some rearrangement of siblings sorts to a different tree |
| SortXml.WellKeyedIsUnambiguous | src/lib/Bcfg2/Server/Core.py:71-72 | Distinct comparable sibling keys are enough |
| SortXml.SortDecidesIso | src/lib/Bcfg2/Server/Core.py:56-75 | For such a tree the sorted trees are equal if and only if the trees differ in sibling order only |
| SortXml.FallbackKeepsOrder | src/lib/Bcfg2/Server/Core.py:73-75 | After a TypeError siblings stay in document order |
| SortXml.NamelessSiblingsKeepTheirOrder | src/lib/Bcfg2/Server/Core.py:728 | With the name as key, two siblings without a name have no canonical order |
| XmlTree.Element.Rearrange | src/lib/Bcfg2/Server/Core.py:75 | Replaces the children by themselves in another order |
| PlaceSource.PlaceSource | tools/upgrade/1.2/packages-convert.py:12-30 | The in-place recursion leaves the tree that `Place` describes and ends after one group per level |
| PlaceSource.PlaceInNewGroup | tools/upgrade/1.2/packages-convert.py:25-28 | Without a matching group the last name gets a new element, at the end |
| PlaceSource.PlaceBelow | tools/upgrade/1.2/packages-convert.py:20-23 | The matching group is extended in its place |
| PlaceSource.FindListed | tools/upgrade/1.2/packages-convert.py:18-20 | Finds the first listed name that a child group has, and the first such child |
| PlaceSource.FindGroup | tools/upgrade/1.2/packages-convert.py:19 | Finds the first child group of a name |
| PlaceSource.GroupList.Pop | tools/upgrade/1.2/packages-convert.py:26 | Takes the last name off the list |
| PlaceSource.GroupList.Remove | tools/upgrade/1.2/packages-convert.py:21 | Takes the first occurrence of a name off the list |
| PlaceSource.PlacePreservesMeaning | tools/upgrade/1.2/packages-convert.py:12-30 | For every set of client groups the effective sources are the old ones, plus the new one exactly once if and only if all its groups are in the set |
| PlaceSource.PlaceReusesGroups | tools/upgrade/1.2/packages-convert.py:18-23 | If no two sibling groups have the same name, none have afterwards: existing groups are reused |
| PlaceSource.MigrationPreservesMeaning | tools/upgrade/1.2/packages-convert.py:109-110 | Placing the sources of a file one after the other gives every client exactly those whose groups it is in, as often as they were listed |
| ClientRun.Client.Execute | src/lib/Bcfg2/Client/__init__.py:904-921 | In any run: the whitelist holds only entries that were bad when the early installation began and that the decision list allows, less the files that were verified early or declined at the prompt; a file is verified early only if it was handed out then. Without dry run and prompts every important file of a selected early parent that was bad and is allowed has been handed out early, and of the other allowed bad entries exactly those are on the whitelist in the end that stand in a selected bundle and in none with a failed prerequisite; with -i all of them are. Every whitelisted entry is offered to every tool; but for the early files, tools are handed exactly the entries offered to them that they say they can install. In the end, if anything counts as modified then, the states are those of a new inventory, with -k and without dry run. An entry that is suppressed is handed out only as a prerequisite Action; nothing that was bad when Decide began and is off the whitelist is handed out by Install, and exactly that is on the blacklist. Every selected bundle had its prerequisites offered to every tool, between two recorded moments, and no entry of one in which one was bad at the second is on the whitelist |
| ClientRun.Client.DecideAndInstall | src/lib/Bcfg2/Client/__init__.py:908-915 | Without -i: what is handed out, what the blacklist holds, that without dry run and prompts exactly the whitelisted entries stay that pass the bundles, and that each of these is offered to every tool |
| ClientRun.Client.Inventory | src/lib/Bcfg2/Client/__init__.py:607-625 | Afterwards every entry of the configuration has the state that the last tool to report on it gave, and is bad if none did; every tool is called once |
| ClientRun.Client.InstallImportant | src/lib/Bcfg2/Client/__init__.py:529-605 | The whitelist is exactly the entries that were bad and that the decision list allows, less the files handed out early that were then verified and those declined at the prompt; without dry run and prompts every important file of an early parent that is bad and allowed is handed out |
| ClientRun.Client.InstallImportantOf | src/lib/Bcfg2/Client/__init__.py:569-600 | One parent: all its important files that are bad and allowed are handed out, without dry run and prompts, and the whitelist stays what `InstallImportant` says |
| ClientRun.Client.InventoryAndImportant | src/lib/Bcfg2/Client/__init__.py:904-907 | The inventory and the early installation together, as one part of the run |
| ClientRun.Client.ReInventory | src/lib/Bcfg2/Client/__init__.py:898-902 | The second inventory, with -k and without dry run, is an inventory like the first, hands out nothing and moves no phase; otherwise nothing happens |
| ClientRun.Client.InstallIfImportant | src/lib/Bcfg2/Client/__init__.py:574-600 | One file: handed out only from the whitelist, never in a dry run, off the whitelist exactly if it is verified then or declined; without dry run and prompts it is handed out if it is important, bad and allowed; with prompts exactly if the answer is yes |
| ClientRun.Client.InstallFile | src/lib/Bcfg2/Client/__init__.py:591-597 | A file that is handed out early gets the state that the tool answers, if it does, and counts as modified if that is good |
| ClientRun.Client.ActionsToRun | src/lib/Bcfg2/Client/__init__.py:695-703 | The prerequisite actions in the order of the bundle, or of the prompt, which leaves none out |
| ClientRun.Client.Decide | src/lib/Bcfg2/Client/__init__.py:627-733 | Without prompts the whitelist becomes exactly its entries in selected bundles all of whose prerequisite actions were good right after they were run, nothing in a dry run; the blacklist grows by exactly what was bad at the beginning and is not on it; what is to be removed is exactly what the mode names; with prompts whitelist and removal are exactly what was agreed to, in the order of the prompt; only Actions are handed out |
| ClientRun.Client.SettleLists | src/lib/Bcfg2/Client/__init__.py:726-733 | With prompts the lists are what was agreed to; what was bad and is not on the whitelist goes on the blacklist |
| ClientRun.Client.PrepareLists | src/lib/Bcfg2/Client/__init__.py:627-662 | What is to be removed is exactly what the mode names of the extra entries, candidates are exactly the bad entries, and a dry run empties both lists |
| ClientRun.Client.FilterBundles | src/lib/Bcfg2/Client/__init__.py:664-721 | Exactly the selected bundles have their prerequisites run; those in which one is bad afterwards lose their entries and, without -b and -B, disappear from the configuration itself |
| ClientRun.Client.ProcessBundle | src/lib/Bcfg2/Client/__init__.py:690-721 | One bundle: its prerequisites are offered to every tool, and it is taken off the lists exactly if one is bad right afterwards |
| ClientRun.Client.RunPrerequisites | src/lib/Bcfg2/Client/__init__.py:691-709 | All pre-actions, always ones included, are offered to every tool, on the whitelist or not; the verdict is whether all are good right afterwards, and the history records both moments |
| ClientRun.Client.DropFromWhitelist | src/lib/Bcfg2/Client/__init__.py:714-721 | Exactly the entries of the bundle leave the whitelist |
| ClientRun.FailedBundleIsOff | src/lib/Bcfg2/Client/__init__.py:708-721 | No whitelisted entry remains in a bundle in which a prerequisite action was bad after it was run; the bundle leaves the configuration exactly without -b and -B |
| ClientRun.FilterStep | src/lib/Bcfg2/Client/__init__.py:690-721 | Processing one bundle keeps the account of prerequisites, whitelist and remaining bundles |
| ClientRun.PromptOrder | src/lib/Bcfg2/Client/__init__.py:503-506 | The order of a prompt has the same entries, each as often |
| ClientRun.Client.PromptFilter | src/lib/Bcfg2/Client/__init__.py:503-517 | Returns the entries agreed to, in the order of the prompt, and sorts the list |
| ClientRun.Client.DispatchInstallCalls | src/lib/Bcfg2/Client/__init__.py:735-747 | Every entry of the list is offered to every tool, and exactly those that the tool says it can install are handed to it; the states change by exactly what the tools answer |
| ClientRun.Client.Install | src/lib/Bcfg2/Client/__init__.py:749-814 | Offers every tool the whitelist; hands out only whitelisted entries and clobbered ones off the blacklist; every bundle with an entry that was modified when the last BundleUpdated had been called is found, none twice, and only such as had an entry modified at some recorded moment since Install began; each tool hears of each allowed bundle exactly once |
| ClientRun.Client.InstallWhitelist | src/lib/Bcfg2/Client/__init__.py:751-779 | Installs and repairs; if no bundle counts as modified, none holds a modified entry |
| ClientRun.Client.RepairClobbered | src/lib/Bcfg2/Client/__init__.py:756-779 | Of the bad entries of bundles that count as modified exactly those off the blacklist that verify as bad again are reinstalled |
| ClientRun.Client.GetAllModifiedBundles | src/lib/Bcfg2/Client/__init__.py:816-849 | Ends for arbitrary tools; on return all bundles with a modified entry are on the lists, none twice, each reported once to each tool if -b allows it, and none is added of which nothing was modified at any moment |
| ClientRun.Client.FindAndTell | src/lib/Bcfg2/Client/__init__.py:781-814 | Finds all modified bundles, tells every tool of each, and of the rest that they were not |
| ClientRun.Client.TakeStock | src/lib/Bcfg2/Client/__init__.py:761-769 | Takes the inventory again of bundles that count as modified: what a tool answers counts, and what none answers is bad |
| ClientRun.BadUnlessReported | src/lib/Bcfg2/Client/__init__.py:607-625 | After an inventory an entry is bad exactly if the last tool that reported on it said so, or none did |
| ClientChoices.SuppressedExactly | src/lib/Bcfg2/Client/__init__.py:34-54 | A whitelist suppresses exactly what it does not list, literally or by patterns for tag and name, a blacklist exactly what it does; a configuration from a file and a run without lists suppress nothing |
| ClientChoices.LongerLists | src/lib/Bcfg2/Client/__init__.py:34-54 | One more specification allows only more on a whitelist and only less on a blacklist, and acts on the entry that it names |
| ClientChoices.SelectedExactly | src/lib/Bcfg2/Client/__init__.py:665-685 | -b takes the bundles that it names, -B leaves those out that it names |
| ClientChoices.EarlyExactly | src/lib/Bcfg2/Client/__init__.py:569-573 | The files of a structure are looked at early exactly if it has a name and -B does not name it, or -b does too |
| ClientChoices.PrerequisitesAre | src/lib/Bcfg2/Client/__init__.py:690-707 | Exactly the actions of the bundle for before the installation are run, those that are not for always only if something of the bundle is whitelisted or modified |
| ClientChoices.IndependentsHear | src/lib/Bcfg2/Client/__init__.py:804-814 | Structures outside bundles hear once from every tool |
| ClientChoices.HeardExactly | src/lib/Bcfg2/Client/__init__.py:781-814 | A bundle hears once, in the end, exactly if -b allows it, whatever -B says |
| ClientChoices.PromptsAscend | src/lib/Bcfg2/Client/__init__.py:503-506 | Prompts come in the order of tag and name |
| ClientChoices.RemovedExactly | src/lib/Bcfg2/Client/__init__.py:630-648 | To be removed is exactly what the mode names: everything, services, packages, users and groups, or files |
| ClientRun.PhaseIsLast | src/lib/Bcfg2/Client/__init__.py:904-921 | What was bad when a phase began is what the history says, until the phase begins again |
| ClientRun.StillRun | src/lib/Bcfg2/Client/__init__.py:691-709 | Prerequisites that were run stay on record |
| ClientRun.Client.TellTools | src/lib/Bcfg2/Client/__init__.py:834-841 | Every tool hears once of the bundle |
| ClientRun.Client.TellAbout | src/lib/Bcfg2/Client/__init__.py:823-841 | Every tool hears once of each chosen bundle and of nothing else |
| ClientRun.Client.TellRest | src/lib/Bcfg2/Client/__init__.py:784-814 | Every tool hears once of each remaining allowed bundle and each Independent |
| ClientRun.OneNotePerToolAndBundle | src/lib/Bcfg2/Client/__init__.py:781-814 | Over Install, each bundle that -b allows gets from each tool exactly one of BundleUpdated and BundleNotUpdated, once, and others neither |
| RpcQueue.ReturnedWasComputedByTheNamedChild | src/lib/Bcfg2/Server/MultiprocessingCore.py:59-81 | In every reachable state of every interleaving, what a call returned is what the named child computed for that very method and those arguments |
| RpcQueue.EveryStateIsConsistent | src/lib/Bcfg2/Server/MultiprocessingCore.py:59-81 | Every reachable state has distinct open listeners, one job or answer per waiting call, and only answers computed for their calls |
| RpcQueue.NextKeepsInv | src/lib/Bcfg2/Server/MultiprocessingCore.py:192-240 | Every step of callers, queues and child threads keeps the invariant |
| RpcQueue.OpenKeepsInv | src/lib/Bcfg2/Server/MultiprocessingCore.py:66-68 | A new listener at a free address keeps the invariant, though addresses are reused |
| RpcQueue.PutKeepsInv | src/lib/Bcfg2/Server/MultiprocessingCore.py:70-71 | Sending the request keeps the invariant |
| RpcQueue.NothingForUnsent | src/lib/Bcfg2/Server/MultiprocessingCore.py:66-71 | Nothing is on its way to a listener whose request has not been sent |
| RpcQueue.PublishKeepsInv | src/lib/Bcfg2/Server/MultiprocessingCore.py:53-57 | A published message, to which nobody answers, keeps the invariant |
| RpcQueue.StartKeepsInv | src/lib/Bcfg2/Server/MultiprocessingCore.py:229-238 | A child thread started for any queued message keeps the invariant |
| RpcQueue.ComputeKeepsInv | src/lib/Bcfg2/Server/MultiprocessingCore.py:202-223 | Computing, or refusing, a request keeps the invariant |
| RpcQueue.AnswerKeepsInv | src/lib/Bcfg2/Server/MultiprocessingCore.py:224-227 | Sending the result keeps the invariant |
| RpcQueue.CrashKeepsInv | src/lib/Bcfg2/Server/MultiprocessingCore.py:223 | An exception in the child ends the connection and keeps the invariant |
| RpcQueue.AcceptKeepsInv | src/lib/Bcfg2/Server/MultiprocessingCore.py:72 | Accepting the connection keeps the invariant |
| RpcQueue.ReceiveKeepsInv | src/lib/Bcfg2/Server/MultiprocessingCore.py:74-81 | Returning the received value and closing the listener keeps the invariant |
| RpcQueue.ComputedWasFound | src/lib/Bcfg2/Server/MultiprocessingCore.py:202-223 | Whatever was computed for a request, its name was looked up: a plugin's method, an exposed attribute, or None without a function; an attribute without `exposed` raises |
| RpcQueue.UnexposedReturnsNone | src/lib/Bcfg2/Server/MultiprocessingCore.py:205-223 | Told by the plugins' methods and the attributes alone: a call that returned was not of an attribute without `exposed`, and one of a plugin's method that does not exist, of an attribute that is not exposed or of none at all returned None |
| RpcQueue.ExposedMayReturnAnything | src/lib/Bcfg2/Server/MultiprocessingCore.py:205-223 | Conversely, for a plugin's method that exists or an exposed attribute some run returns any given value |
| RpcQueue.WaitingCallsCanProceed | src/lib/Bcfg2/Server/MultiprocessingCore.py:72-76 | A waiting call is never stuck: some step takes it further |
| RpcQueue.RoundRobin.Next | src/lib/Bcfg2/Server/MultiprocessingCore.py:439-445 | The next child in the cycle, or StopIteration without children |
| RpcQueue.ShareOfChild | src/lib/Bcfg2/Server/MultiprocessingCore.py:359 | A child's number of calls is the number of full rounds, and one more if the current round has passed it |
| RpcQueue.SharesDifferByAtMostOne | src/lib/Bcfg2/Server/MultiprocessingCore.py:439-445 | After any number of GetConfig calls two children's numbers differ by at most one |
| TaggedCache.Registry.Expire | src/lib/Bcfg2/Server/Cache.py:155-180 | Non-exact expiry removes exactly the supersets of the tags, exact expiry at most the one entry, no tags everything; the count is the number removed |
| TaggedCache.Registry.ExpireSupersets | src/lib/Bcfg2/Server/Cache.py:172-175 | The loop removes exactly the supersets and counts them |
| TaggedCache.Registry.Iterate | src/lib/Bcfg2/Server/Cache.py:124-132 | The keys with exactly one more tag, each once |
| TaggedCache.Registry.ListKeys | src/lib/Bcfg2/Server/Cache.py:130 | All keys, each once |
| TaggedCache.Cache.Get | src/lib/Bcfg2/Server/Cache.py:78-79 | Agrees with a plain map for keys outside the view's tags |
| TaggedCache.Cache.Set | src/lib/Bcfg2/Server/Cache.py:81-82 | Updates the plain map of the view and no other tag set |
| TaggedCache.Cache.Delete | src/lib/Bcfg2/Server/Cache.py:84-85 | Deletes from the plain map of the view, or raises KeyError, and touches no other tag set |
| TaggedCache.Cache.Keys | src/lib/Bcfg2/Server/Cache.py:87-93 | Lists the keys of the plain map, each once |
| TaggedCache.Cache.Length | src/lib/Bcfg2/Server/Cache.py:95-96 | The size of the plain map |
| TaggedCache.Cache.Expire | src/lib/Bcfg2/Server/Cache.py:98-111 | Expires the view and everything below it, or one item exactly |
| TaggedCache.InViewMeansOneMore | src/lib/Bcfg2/Server/Cache.py:131 | A key belongs to a view exactly if it has the view's tags and one more |
| TaggedCache.SetInView | src/lib/Bcfg2/Server/Cache.py:81-82 | Writing under one more tag is writing to the plain map |
| TaggedCache.DeleteInView | src/lib/Bcfg2/Server/Cache.py:84-85 | Deleting under one more tag is deleting from the plain map |
| TaggedCache.OtherViewsUntouched | src/lib/Bcfg2/Server/Cache.py:81-85 | A write under one tag set leaves every view that does not show it as it was |
| TaggedCache.CountRemoved | src/lib/Bcfg2/Server/Cache.py:164-175 | The count of an expiry is by how much the cache shrinks |
| TaggedCache.ExpirySpares | src/lib/Bcfg2/Server/Cache.py:165-175 | An entry that does not match survives with its value |
| TaggedCache.ExactIsAsDocumentedExactly | src/lib/Bcfg2/Server/Cache.py:155-167 | Exact expiry removes what is documented if and only if a tag is named, or nothing but an untagged item is in the cache |
| TaggedCache.ExactWithoutTagsRemovesAll | src/lib/Bcfg2/Server/Cache.py:165-167 | Exact expiry without tags still removes everything, against the documented reading of `exact` |
| CacheConflicts.DrainedIsFreshExactly | src/lib/Bcfg2/Server/Cache.py:172-175 | For any expiries: in every run, every process that was asked for no more than these holds nothing stale once it has dealt with all, if and only if no two of them conflict. Two conflict if the one is not exact, both have tags, and the other, if exact, is of a tag set that the one matches |
| CacheConflicts.ConflictLeavesAStaleEntry | src/lib/Bcfg2/Server/Cache.py:139-142 | For any two conflicting expiries of the parent, a run in which their threads overlap in a child, one dies, and the drained child keeps a stale entry |
| CacheConflicts.ActKeepsSpared | src/lib/Bcfg2/Server/Cache.py:172-175 | Without conflicts every step of a process leaves each list of keys as it was, or without anything stale on it, and a thread that dies leaves nothing stale |
| CacheConflicts.DeletionSpares | src/lib/Bcfg2/Server/Cache.py:172-175 | A deletion spoils another thread's list only if the two conflict or nothing on that list matters any more |
| CacheConflicts.OneAtATimeNeverCrashes | src/lib/Bcfg2/Server/MultiprocessingCore.py:229-239 | If in every process a thread lists its keys only when no other is deleting, broadcast or not, none dies |
| CacheConflicts.OneAtATimeDrainsFresh | src/lib/Bcfg2/Server/MultiprocessingCore.py:229-239 | If expiry threads delete one at a time, whoever started them, a drained process holds nothing stale |
| CacheCoherence.NoBroadcastLoops | src/lib/Bcfg2/Server/MultiprocessingCore.py:346-360 | No child ever has the hook that publishes, since children are started before it is installed; all children have been sent the same, one expiry for each that the parent finished, and each child has every one of these and of its own in exactly one place |
| CacheCoherence.LateChildWouldPublish | src/lib/Bcfg2/Server/MultiprocessingCore.py:353-360 | Why children are started before the hook is installed: one started later would publish its expiries to all children |
| CacheCoherence.WhatTheParentEndsIsSent | src/lib/Bcfg2/Server/MultiprocessingCore.py:360 | From when the hook is installed, exactly what the parent finishes is sent |
| CacheCoherence.DeadExpiriesAreNotSent | src/lib/Bcfg2/Server/Cache.py:177-178 | An expiry whose thread dies in the parent is never sent |
| CacheCoherence.ChildKeepsInv | src/lib/Bcfg2/Server/MultiprocessingCore.py:270-273 | What a child does, its own expiries and those sent to it included, publishes nothing and keeps the invariant |
| CacheCoherence.ParentKeepsInv | src/lib/Bcfg2/Server/MultiprocessingCore.py:435-437 | A step of the parent, with the publication when it ends an expiry, keeps the invariant |
| CacheCoherence.EveryStateKeepsInv | src/lib/Bcfg2/Server/MultiprocessingCore.py:346-361 | In every interleaving an entry inserted before a matching expiry of its process implies that the expiry is still on its way, being carried out, or died of a KeyError |
| CacheCoherence.StepKeepsInv | src/lib/Bcfg2/Server/MultiprocessingCore.py:346-361 | Starting a child, installing the hook and every step of a process keep that invariant |
| CacheCoherence.ActKeepsInv | src/lib/Bcfg2/Server/Cache.py:139-175 | Inserting, delivering, listing and deleting keep it in the process |
| CacheCoherence.ToldKeepsInv | src/lib/Bcfg2/Server/MultiprocessingCore.py:53-57 | An expiry sent to a child keeps it |
| CacheCoherence.DrainedIsFreshOrCrashed | src/lib/Bcfg2/Server/Cache.py:172-175 | A drained process holds a stale entry only because of an expiry whose thread died of a KeyError |
| Statistics.Statistic.AddValue | src/lib/Bcfg2/Server/Statistics.py:27-37 | The fields stay minimum, maximum, mean and count of all values added |
| Statistics.Statistic.GetValue | src/lib/Bcfg2/Server/Statistics.py:39-50 | The name with the summary of all values added |
| Statistics.Collection.AddValue | src/lib/Bcfg2/Server/Statistics.py:75-78 | The value is appended to the stream of its name, which is created on demand |
| Statistics.Collection.Display | src/lib/Bcfg2/Server/Statistics.py:85 | For every name the summary of its stream |
| Statistics.AddedExtends | src/lib/Bcfg2/Server/Statistics.py:34-37 | The running update of a summary is the summary of the longer stream |
| Statistics.MinIsLeast | src/lib/Bcfg2/Server/Statistics.py:34-35 | Minimum and maximum of a stream are its least and greatest value |
| Statistics.MergedIsOfConcat | src/lib/Bcfg2/Server/MultiprocessingCore.py:470-474 | Merging two summaries gives the summary of both streams together |
| Statistics.GetStatistics | src/lib/Bcfg2/Server/MultiprocessingCore.py:448-483 | Each total is minimum, maximum, mean and count of all values added under that name in every child and the parent, from the last statistic on that is itself shown under the total's name; every other statistic is shown under its own name, unless a later one has the same or a total is called so |
| Statistics.NamesShown | src/lib/Bcfg2/Server/MultiprocessingCore.py:458-466 | A child's core is shown and counted as Core; other names stay, behind the name of the process |
| Statistics.ShowMore | src/lib/Bcfg2/Server/MultiprocessingCore.py:458-483 | One more statistic leaves the others shown as they are, unless it takes a name |
| Statistics.TotalsStepByStep | src/lib/Bcfg2/Server/MultiprocessingCore.py:459-475 | One more statistic of one more process extends exactly the total of its name |
| Statistics.OfPermutation | src/lib/Bcfg2/Server/MultiprocessingCore.py:459-475 | A summary does not depend on the order of the values |
| Statistics.OrderOfChildrenIsIrrelevant | src/lib/Bcfg2/Server/MultiprocessingCore.py:477-483 | Whatever the order in which the statistics of the children are aggregated, every total is the same once those of the parent are, whatever these are called |
| Statistics.OrderOfProcessesIsIrrelevant | src/lib/Bcfg2/Server/MultiprocessingCore.py:477-483 | Whatever the order in which the statistics of all processes are aggregated, a total is the same, if no statistic is itself shown under the name of that total |
| Statistics.ChildrenNeverClash | src/lib/Bcfg2/Server/MultiprocessingCore.py:346-347 | No statistic of a child is shown under the name of a total |
| Statistics.ParentsClashByName | src/lib/Bcfg2/Server/MultiprocessingCore.py:465-468 | A statistic of the parent is shown as the total of n exactly if its name is that of the total |
| Statistics.StreamWithoutClash | src/lib/Bcfg2/Server/MultiprocessingCore.py:465-475 | Without such a statistic the total stands for all values of the name |
| Statistics.ClashedTotalIsRightExactly | src/lib/Bcfg2/Server/MultiprocessingCore.py:465-475 | With one, the total is right if and only if its own values and those after it have the same summary as all values of the name |
| Statistics.ClashLosesTheTotal | src/lib/Bcfg2/Server/MultiprocessingCore.py:465-468 | A statistic of the parent that is named like a total replaces it |
| DateFormat.RoundTripExactly | reports/site_media/date.js:101-155 | For a format with all fields, in which numbers of variable width are not followed by digits nor abbreviated days by letters, a printed date of any year reads back as it was if and only if its year survives (1971 to 2070 with `yy`, 1801 to 2899 otherwise) and its hour survives (the last hour of 24, or `a`, or an hour shown as it is) |
| DateFormat.UnprintableYearIsLost | reports/site_media/date.js:107-120 | Before 1801 and from 11900 on a date never reads back as it was |
| DateFormat.YearReadIsSmall | reports/site_media/date.js:209-220 | Whatever the text, a year that is read has at most four digits |
| DateFormat.SignedYearsFail | reports/site_media/date.js:209-220 | The sign that a year from 100 to 1800 is printed with cannot be read |
| DateFormat.FormatRoundTripsExactly | reports/site_media/date.js:183-305 | Such a format is safe for every date whose year survives it exactly if its last hour is one of 24 or it has `a` |
| DateFormat.ReadBack | reports/site_media/date.js:201-286 | Every token reads back what it showed, whatever comes next |
| DateFormat.ReadNumberBack | reports/site_media/date.js:245-276 | A number of one or two digits reads back as the field it showed |
| DateFormat.ReadYearBack | reports/site_media/date.js:209-220 | A year reads back, from two digits into 1971 to 2070 |
| DateFormat.ReadMonthBack | reports/site_media/date.js:221-235 | A month name or abbreviation reads back, though `March` starts with `Mar` |
| DateFormat.ReadDayBack | reports/site_media/date.js:236-244 | A day name is skipped exactly, unless letters after an abbreviation complete it |
| DateFormat.ReadAllBack | reports/site_media/date.js:201-286 | A printed text is read to its end and recalls, token by token, what was shown |
| DateFormat.LastDecides | reports/site_media/date.js:209-281 | The last token about a part of the date decides what is read of it |
| DateFormat.YearTextIsDecimal | reports/site_media/date.js:107-120 | From 1801 to 2899 the year is printed with four digits, `getYear` notwithstanding; from 2900 to 11899 the four digits are those of the years since 1900 |
| DateFormat.OnlyDatesAreAccepted | reports/site_media/date.js:287-304 | Whatever the text and the format, what is accepted is a date if and only if the fields read are not 29 February of the year 0, which counts as a leap year |
| DateFormat.YearZeroLeapDayIsAccepted | reports/site_media/date.js:290-304 | `0000-02-29` is accepted in the format `yyyy-MM-dd`, and is no date |
| DateFormat.FormatDate | reports/site_media/date.js:145-155 | The printing loop refines `Print` over the maximal runs of the format |
| DateFormat.NextToken | reports/site_media/date.js:146-150 | Takes the maximal run of one character off the format |
| Text.DigitsAndLetters | reports/site_media/date.js:159-160 | What counts as a digit and as a letter, by listing |
| DateFormat.IsIntegerText | reports/site_media/date.js:160-166 | True exactly for texts of digits |
| DateFormat.GetIntAt | reports/site_media/date.js:167-174 | The longest prefix of digits within the lengths |
| DateFormat.GetIntIsPrefix | reports/site_media/date.js:167-174 | What is found is a prefix of digits of at least the minimal length |
| DateFormat.FindName | reports/site_media/date.js:223-233 | The first name that the text starts with, whatever the case |
| DateFormat.ReadToken | reports/site_media/date.js:208-285 | Refines `Read` at a position of the text |
| DateFormat.GetDateFromFormat | reports/site_media/date.js:183-305 | The parsing loop refines `Parse` |
| DateFormat.LZReads | reports/site_media/date.js:61 | Below 100, two digits that read back as the number |
| DateLetters.NumbersShown | reports/site_media/date.js:121-144 | M and MM show the month, d the day, H the hour from 0 to 23, k the one from 1 to 24, h the one from 1 to 12 and K the one from 0 to 11 that agree with it up to half a day, m the minute and s the second |
| DateLetters.YearsShown | reports/site_media/date.js:118-121 | yyyy and y show the year, yy its last two digits |
| DateLetters.HalfShown | reports/site_media/date.js:139-140 | Before noon is AM |
| DateLetters.MonthsShown | reports/site_media/date.js:123-124 | NNN shows the first three letters of the month, MMM these and the rest of its name |
| DateLetters.DaysShown | reports/site_media/date.js:127-128 | E shows the first three letters of the day, from Sunday on, EE these and the rest of its name |
| DateLetters.OthersShown | reports/site_media/date.js:145-153 | Runs of other characters are shown as they are |
| DateLetters.ReadIsShown | reports/site_media/date.js:245-276 | Every number that is read is one that is shown of some date |
| DateLetters.NoDayIsSkipped | reports/site_media/date.js:236-244 | Where no day name stands reading goes on all the same |
| DateLetters.SameTextExactly | reports/site_media/date.js:225 | Names are the same exactly if they are so up to the case of ASCII letters |
| DateLetters.UnmentionedIsToday | reports/site_media/date.js:192-199 | What the format does not mention is taken from today, the day as the first of the month; the year is today's exactly from 1900 to 1999 |
| CalendarGrid.Grid | reports/site_media/CalendarPopup.js:553-599 | The loop over six rows and seven columns shows in cell i the day that `Cell` says |
| CalendarGrid.FirstCell | reports/site_media/CalendarPopup.js:481-493 | The grid starts the offset's number of days before the first of the month |
| CalendarGrid.MonthLengths | reports/site_media/CalendarPopup.js:477-480 | The table holds the month lengths of the displayed year |
| CalendarGrid.CellsAreConsecutive | reports/site_media/CalendarPopup.js:588-596 | The cells are consecutive real dates of the Gregorian calendar across month and year, though the leap year table is that of the displayed year |
| CalendarGrid.CarryToNextCell | reports/site_media/CalendarPopup.js:588-596 | The carries of date, month and year lead from each cell to the next |
| CalendarGrid.EachDayOfTheMonthOnce | reports/site_media/CalendarPopup.js:553-568 | Every day of the month is in exactly one cell, and the cells of the month are one stretch |
| CalendarGrid.ColumnsAreWeekdaysExactly | reports/site_media/CalendarPopup.js:485-493 | Every cell is under the header of its weekday if and only if the year is not one of 0 to 99 |
| CalendarGrid.CenturyShiftsWeekdays | reports/site_media/CalendarPopup.js:481 | For the years 0 to 99 the weekday is looked up in the twentieth century and differs |
| CalendarGrid.NextDayIsNextNumber | reports/site_media/CalendarPopup.js:485 | Day numbers of section 15.9.1.3 of ECMA-262 5.1 count the days of the calendar |
| CalendarGrid.WeekdaysInTurn | reports/site_media/CalendarPopup.js:485 | Weekdays follow each other from a Thursday, 1 January 1970, on |
| RpmVersions.VerStrCmpIsAntisymmetric | tools/rpmlisting.py:31-64 | For all versions, swapping them negates the result, which is 0 exactly for versions with the same parts |
| RpmVersions.VersionsGoInCirclesExactly | tools/rpmlisting.py:31-64 | Three versions compare in a circle if and only if they are tangled: after a common beginning one ends, one goes on with a pre-release and one with a final sub-part that compares below it |
| RpmVersions.VerStrCmpOrders | tools/rpmlisting.py:31-64 | Versions that are not tangled are totally preordered |
| RpmVersions.VerStrCmpIsTransitive | tools/rpmlisting.py:31-64 | Versions without rc or pre sub-parts are totally preordered |
| RpmVersions.FirstDifferenceDecides | tools/rpmlisting.py:39-54 | The first sub-part that differs decides; a longer list is above its beginning unless it goes on with a pre-release |
| RpmVersions.FirstPartDecides | tools/rpmlisting.py:38-63 | The first part that differs decides; a longer version is above its beginning unless it goes on with a pre-release |
| RpmVersions.LowerNumberIsLower | tools/rpmlisting.py:39-45 | After a common beginning that ends with no digit, and before texts that start with none, the lower number makes the lower version |
| RpmVersions.NumbersAreBelowWords | tools/rpmlisting.py:39-45 | Where one version goes on with digits and the other with letters, the one with digits is lower |
| RpmVersions.WordsGoByLetters | tools/rpmlisting.py:39-45 | Where both go on with letters, these decide in their order |
| RpmVersions.WordAfterVersion | tools/rpmlisting.py:46-63 | A version with letters after it is lower than the version alone if they start with rc or pre, and else higher |
| RpmVersions.NextSubDecides | tools/rpmlisting.py:31-64 | After any common beginning the sub-parts that follow decide, if they differ |
| RpmVersions.PlainsGoByValue | tools/rpmlisting.py:31-64 | Versions that are plain numbers compare by their value |
| RpmVersions.CirclesOfParts | tools/rpmlisting.py:38-63 | Lists of parts compare in a circle if and only if they are tangled |
| RpmVersions.PreReleasesGoInCircles | tools/rpmlisting.py:47-63 | With pre-releases the comparison is not transitive: 1rc, 1a and 1 |
| RpmVersions.Subdivide | tools/rpmlisting.py:67-106 | The parts, where each list is appended once for each of its sub-parts while it still grows |
| RpmVersions.SubdividePart | tools/rpmlisting.py:79-105 | All entries of a part are the same list |
| RpmVersions.NextSub | tools/rpmlisting.py:82-104 | The maximal run of digits, letters or other characters |
| RpmVersions.PartsAreProper | tools/rpmlisting.py:80-105 | No part is empty, so the first sub-part always exists |
| RpmVersions.CompareSubs | tools/rpmlisting.py:39-54 | The inner loop and the pre-release case compare two lists as specified |
| RpmVersions.VerStrCompare | tools/rpmlisting.py:31-64 | The nested loops compare two versions as specified |
| RpmVersions.BlobCmpIsPreorder | tools/rpmlisting.py:21-28 | Comparing by name, version and release is antisymmetric and, unless versions are tangled, transitive |
| RpmVersions.LatestIsNotExceeded | tools/rpmlisting.py:203-215 | If no three packages have tangled versions, what is kept is one version-release that no package exceeds, and all packages of it |
| RpmVersions.HighestNumberIsKept | tools/rpmlisting.py:21-28 | Of versions and releases that are plain numbers exactly the highest version is kept, and of it the highest release |
| RpmVersions.PrunePkgsLatest | tools/rpmlisting.py:199-215 | Each name keeps its latest version-release; where all versions and releases are plain numbers these are the packages that no other has a higher version, or the same and a higher release, than |
| RpmVersions.SiftArchs | tools/rpmlisting.py:225-236 | For each architecture present, the first package of the lowest index in `arch_mapping` |
| RpmVersions.RankIsIndex | tools/rpmlisting.py:232-234 | The rank of a subarch is its index in the list of its architecture |
| RpmVersions.PrunedTwice | tools/rpmlisting.py:199-238 | After both prunings, per architecture a package that none exceeds, of the lowest index among those of its version-release |
| DebianPkglist.FileShows | tools/create-debian-pkglist.py:219-250 | Tags balance on their level of indentation; a client in all groups sees, for each of its architectures, the collected packages, the coalesced ones once, and every other client sees nothing |
| DebianPkglist.LosslessExactly | tools/create-debian-pkglist.py:184-217 | A client of an architecture sees exactly the packages collected for it if and only if its other architectures have, among what is not coalesced, only versions that this one has too |
| DebianPkglist.CollectedIsShown | tools/create-debian-pkglist.py:154-250 | From the indices to the client: of each package that matches, exactly the newest version seen is visible |
| DebianPkglist.Source.ShowAll | tools/create-debian-pkglist.py:219-250 | Every client in all groups and one architecture sees exactly the newest versions seen on it |
| DebianPkglist.WrittenIsSeen | tools/create-debian-pkglist.py:184-217 | Coalesced and remaining entries together are exactly what a client sees |
| DebianPkglist.CoalescedRowIsFull | tools/create-debian-pkglist.py:195 | As many versions as architectures means a version for each architecture |
| DebianPkglist.BodyShows | tools/create-debian-pkglist.py:241-242 | Common and per-architecture lines show any client exactly the packages of its architectures |
| DebianPkglist.PerArchLinesShow | tools/create-debian-pkglist.py:207-216 | Any client sees what is written in the groups of its architectures |
| DebianPkglist.CommonLinesShow | tools/create-debian-pkglist.py:188-198 | The common lines show every client the coalesced packages |
| DebianPkglist.UpdateKeepsNewest | tools/create-debian-pkglist.py:154-168 | One more version line keeps the version seen on each architecture that none seen compares above |
| DebianPkglist.CollectMore | tools/create-debian-pkglist.py:154-168 | The table keeps the newest versions of all packages on the configured architectures |
| DebianIndices.SeenIsSaid | tools/create-debian-pkglist.py:134-175 | What is seen is what the indices say: a package's version line in an index, after a line for the package, of each configured architecture from its own sources and from the common ones unless it has special ones; and nothing that none of these says |
| DebianIndices.LinesAdd | tools/create-debian-pkglist.py:150-170 | Reading one index adds exactly its version lines, each for the package of the last package line |
| DebianIndices.SectionAdds | tools/create-debian-pkglist.py:136-149 | One section: of each architecture the index is read that the source admits |
| DebianPkglist.Source.Process | tools/create-debian-pkglist.py:219-250 | The table holds exactly the newest versions seen of the packages that match, the file is the lines for it, shows every client of one architecture exactly these, and the indentation is back at its start; an error leaves the file alone |
| DebianPkglist.Source.Collect | tools/create-debian-pkglist.py:225-227 | All sources are folded into the newest versions seen |
| DebianPkglist.Source.UpdatePkgdata | tools/create-debian-pkglist.py:134-175 | One source: its indices are folded in, then only matching packages kept |
| DebianPkglist.Source.ReadSection | tools/create-debian-pkglist.py:136-150 | One section: the indices of the architectures that are not skipped |
| DebianPkglist.Source.ReadIndex | tools/create-debian-pkglist.py:150-170 | One index: package and version lines in turn; a version before any package is an error |
| DebianPkglist.Source.WriteCommonEntries | tools/create-debian-pkglist.py:184-201 | Writes the coalesced packages in order and returns the others |
| DebianPkglist.Source.WritePerarchEntries | tools/create-debian-pkglist.py:203-217 | Writes a group for each architecture if anything is left |
| DebianPkglist.Source.WriteArch | tools/create-debian-pkglist.py:209-216 | One group, with the indentation back afterwards |
| DebianPkglist.Source.WriteAll | tools/create-debian-pkglist.py:230-249 | The whole file, line by line |
| DebianPkglist.Source.OpenGroups | tools/create-debian-pkglist.py:237-239 | Opens the groups, one level deeper each |
| DebianPkglist.Source.CloseGroups | tools/create-debian-pkglist.py:244-246 | Closes the groups, one level back each |
| DebianPkglist.Source.WriteToFile | tools/create-debian-pkglist.py:119-120 | Appends one line at the current indentation |
| DebianPkglist.SortKeys | tools/create-debian-pkglist.py:177-182 | The package names, each once, in ascending order |
| PackedRange.List2Range | src/lib/Bcfg2/Utils.py:265-293 | The printed list without its brackets, read by `PackedDigitRange`, has exactly the members of the list if and only if the list is not empty and holds only numbers above 0; as it was printed, if and only if the list is one such number; no range goes on where the one before it ends |
| PackedRange.PrintedReadsBackExactly | src/lib/Bcfg2/Utils.py:287-293 | Several ranges or numbers are printed in brackets, which cannot be read |
| PackedRange.BracketFails | src/lib/Bcfg2/Utils.py:56-68 | A text in brackets is a ValueError |
| PackedRange.ReadsBackExactly | src/lib/Bcfg2/Utils.py:265-293 | Zero is dropped, negative numbers and the empty text do not read back at all, everything else does |
| PackedRange.ParseRanges | src/lib/Bcfg2/Utils.py:56-68 | The constructor's loop refines `Parse` |
| PackedRange.AddSpans | src/lib/Bcfg2/Utils.py:61-68 | Reading the texts of positive ranges adds exactly their numbers |
| PackedRange.AddSpan | src/lib/Bcfg2/Utils.py:62-68 | The text of one range or number reads back as it |
| PackedRange.NegativeFails | src/lib/Bcfg2/Utils.py:65-66 | A range that starts below 0 is a ValueError |
| PackedRange.PositiveReadsBack | src/lib/Bcfg2/Utils.py:76-82 | Positive ranges read back with exactly their members |
| PackedRange.IntTextReads | src/lib/Bcfg2/Utils.py:61-68 | What is printed for a number reads as that number; a sign alone does not |
| PackedRange.OpenRangeReads | src/lib/Bcfg2/Utils.py:63-64 | A number with a dash after it stands for that number and all above |
| PackedRange.SpacesAreStripped | src/lib/Bcfg2/Utils.py:62 | Spaces before or after a range or number do not matter |
| PackedRange.StartRun | src/lib/Bcfg2/Utils.py:273-281 | A number that starts a new run prints the open one, unless that starts at 0 |
| PackedRange.ExtendRun | src/lib/Bcfg2/Utils.py:273-281 | A number that follows the last extends the open run |
| LogLayout.WrapLine | src/lib/Bcfg2/Logger.py:46-54 | The pieces concatenate to the line, have the width, and only the last is shorter |
| LogLayout.Fragment | src/lib/Bcfg2/Logger.py:88-103 | The fragments concatenate to the message, are 250 long but for the last, and only the first has the exception |
| LogLayout.FormatColumns | src/lib/Bcfg2/Logger.py:55-69 | Nothing for an empty list; else the sorted items in columns of the greatest length, no line wider than the terminal; a ZeroDivisionError exactly if the column and its two spaces do not fit |
| LogLayout.EachItemHasOneCell | src/lib/Bcfg2/Logger.py:60-66 | Every index is in exactly one cell: line index modulo lines, column index by lines |
| LogLayout.RowShowsItem | src/lib/Bcfg2/Logger.py:67-69 | Cell k of a line shows its item after the columns before it |
| LogLayout.RowsFit | src/lib/Bcfg2/Logger.py:61-69 | No line is wider than the terminal |
| LogLayout.IndicesAre | src/lib/Bcfg2/Logger.py:64-66 | A line shows the indices of its columns that exist |

## Left out

Left out on purpose:

- OptionParser.Parser.Parse: phase 2 (the early parser, a parser of its own, and its hooks), subparsers, positional and required arguments, abbreviated flags, and appending or counting actions are not modelled; options are assumed to have different destinations, none of them a reserved name. Which options are left raw when a config file option is not predictable is said by what was final when the namespace was last emptied: whether and when such an option names a file depends on the order in which files are read.
- OptionParser.Parser.Reparse: files do not change between parses, which matters only to files not read before.
- Conversion of option values by their types, `<repository>` macros, wildcard options and WildcardSectionGroup: values are taken as converted, and a component name that cannot be imported is one missing from the mapping.
- `add_config_file` with reparse=True: no caller in the modelled code passes it.
- ClientRun.Client.InstallIfImportant: which files are important and which tool verifies a file are constants of the client, what a tool reports is arbitrary, and `VerifyPath` does not raise.
- ClientRun.Client.Execute: removal of extra entries, statistics, KeyboardInterrupt and the display of states are not modelled; elements have one level of entries below a bundle and `only_important` and `kevlar` are the only options of the run that matter besides those of Decide and Install.
- RpcQueue.ReturnedWasComputedByTheNamedChild: runs before termination only; the terminate event, closing of queues and the shutdown timers are not steps. A queue may be read out of order, which only adds behaviours.
- CacheCoherence.DrainedIsFreshOrCrashed: an expiry whose thread died of a KeyError is excepted, since the code does leave stale entries then; CacheConflicts.DrainedIsFreshExactly says for which expiries it can.
- CacheCoherence: a publication reaches the queues of all children in one step, deliveries one by one; insertions, and the clearing of a whole cache, are single steps; processes are not stopped.
- Statistics.GetStatistics: arithmetic is over the reals, without rounding.
- XmlEqual.AssertXMLEqual: comments, namespaces and tail text are not modelled, and neither are the messages.
- SortXml.SortXml: a key is a function of tag and attributes that may be absent; comparison of elements without a key function is not modelled, nor is an exception from the key function.
- PlaceSource.PlaceSource: group names with an apostrophe, which break the XPath expression, are not modelled; lxml's moving of an element that is appended elsewhere is not needed, since each source is new.
- PlaceSource.MigrationPreservesMeaning: only the placing of the sources of a file is modelled, not how a source is made from an old element, nor that comments, Config and includes are skipped.
- DateFormat.RoundTripExactly: text is ASCII, a date is its fields rather than `getTime()`, so time zones, daylight saving gaps and the instant 0, which the code takes for a failure, are not modelled.
- RpmVersions.LatestIsNotExceeded: packages three of which have tangled versions or releases are excluded; the library sort specifies nothing for an order that goes in circles.
- RpmVersions.PrunePkgsLatest: the sort of the input lists in place is not kept, and which of several equal versions in different spelling comes first follows from the stable sort but is not stated.
- DebianPkglist.FileShows: XML escaping and the text of comments are not modelled.
- DebianPkglist.Source.UpdatePkgdata: fetching, decompressing and splitting lines are inputs; the dict is passed and returned as a value; the comparison is apt's and need only be transitive.
- PackedRange.AddItem: a range of other than two numbers counts as an error at once; the code raises when it is asked for membership. Only spaces are stripped, and `int` reads digits with a sign.
- LogLayout.WrapLine: formatting of arguments and of exceptions, and the terminal's width, are inputs.
- CalendarGrid.Grid: HTML, disabled dates and the week-end display are not modelled; the month is one of 1 to 12.
- Sockets, SSL, XML-RPC, daemons, file monitoring, Django models, encryption, plugins and client tools: input and output, or wrappers around libraries.
- ACL checks, pagination and simple attribute migrations: they would only add easy members.
