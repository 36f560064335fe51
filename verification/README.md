# Verified model of the mobile-e2e-mcp scripts

This project models the scripts of the mobile-e2e-mcp repository that carry real logic, and proves
what they promise: the rewriting of prompt configurations and of the changelog, the flow-file parser
and its runner, the check of tool outputs against schemas, the pipeline that turns live runs into
proof levels and CI conclusions, the race around a CLI process, and the arithmetic of reports, failure
memory and release versions.

Strings are sequences of characters, numbers of JSON are reals, counters are unbounded. Everything
outside the scripts (devices, tools, processes, the file system) is an arbitrary input: a tool invoker or
a device is an arbitrary function of all the calls so far, a set of flow files is an arbitrary map, a
JSON codec is any pair of a parser and a printer. Exceptions are `Result` or `Option` values. Code that
works step by step is a method with loops or a class with fields, proved against a specification
function; the laws are lemmas about those functions. What the main functions decide is stated once more
without them, by the constructors and literal texts of inputs and results: predicates whose names end in
`Written`, `Tells` or `Is` do that, and lemmas connect the two.

## Modules

| module | what it holds |
|---|---|
| Prelude, Text, Lines, Json | options and results, trimming and searching, lines as a multi-line regular expression sees them, JSON values |
| ManagedBlock, PromptSync | managed prompt blocks, and the write, check and dry-run modes over a configuration file |
| Headings, Sections, ReleaseNotes, Changelog | heading patterns, sections, notes, promotion and validation of the changelog |
| ReleaseSync, ReleaseRender | writing a rendered release section into the changelog |
| FlowParser, FlowPrinter, FlowTermination, FlowInlining | the flow-file parser, its inverse, when nested files come to an end, and what inlining them does |
| TextInjection, FlowRunner | the text encoding for the device shell, and running commands with the clipboard |
| SchemaCheck, SchemaPaths, SchemaLaws | the schema checker, where its findings point to, and the standard |
| Names, LiveVerification, LiveLaws, LiveContract | the live verification workflow against any tool invoker, its laws, and its calls and steps written out |
| ProofIntake, OneCommand, RepoAppCandidate, CiEvidence, NoInflation | the later stages, and the pipeline end to end |
| CliRace | the settle-once race of a CLI run |
| QueueMetrics, AcceptanceReport | percentiles of queue waits and their aggregation |
| FailureMemory | grouping of failure records |
| ReleaseVersion | version bumping, comparison and release targets |

## What the code does not do

Each of these is a theorem with its exact condition or a concrete witness.

- Merging a prompt twice is merging it once exactly when the hand-written text holds no begin marker of
  the agent (for prompts without an end marker); otherwise the managed block eats hand-written text.
- Writing a new version's section twice is writing it once exactly when the text behind the first
  `## [Unreleased]` is empty or starts with a bracketed heading; otherwise the second write replaces
  notes that the first one had left behind the section. Over an existing section a second write is
  refused exactly when nothing else names the Unreleased heading.
- The text encoding is ambiguous exactly on texts with a backslash in front of a space or a percent sign
  in front of an `s`.
- Reading a flow file never ends exactly when, along the includes that it reaches, one can come back to
  a file; an include is not reached behind an unsupported line or behind an include that fails.
- Replacing includes by their files changes the commands exactly when it puts a command on an indented
  line right behind a `launchApp`; the command is then swallowed, or the text is no longer a flow.
- Two parsed lists of lines do not parse to the two lists of commands when joined, exactly when the first
  ends in a `launchApp` and the indented front of the second holds a command or an include of a file with
  commands.
- The schema checker ignores lists of types and the type `null`, never accepts a list or an object under
  an enumeration, and looks at three items only; what it accepts meets the standard exactly when these
  unread types and later items do.
- The expected screen id of a live run is never compared with anything.
- A live run whose only other steps are skipped is not verified and leaves no failure packet.
- The intake calls a failed live run promotable; only the one command asks for a verified run.
- CI evidence asks for the physical proof level of its first source only; over candidates of the
  repository's own app that does no harm. Over such candidates it never concludes failure.
- Versions with leading zeros are accepted and compare as equal to those without.

## Model

| member | source | states |
|---|---|---|
| Text.SpacesWritten | scripts/agent-prompts/sync-agent-policy-prompts-lib.ts:53-59 | what trimming and the pattern class treat as white space, by code points |
| Text.ContainsIff | scripts/showcase/mobile-change-ci-pr-evidence.ts:92-112 | the search finds a pattern exactly where the text is put together around it |
| ManagedBlock.MarkersOfValid | scripts/agent-prompts/sync-agent-policy-prompts-lib.ts:41-47 | the markers of every agent hold no newline, start and end with text, and the end marker does not occur in the begin marker, which is all that the laws ask of markers |
| ManagedBlock.MarkersWritten | scripts/agent-prompts/sync-agent-policy-prompts-lib.ts:41-47 | the four markers, letter by letter |
| ManagedBlock.MergeWritten | scripts/agent-prompts/sync-agent-policy-prompts-lib.ts:49-69 | a merged value is the hand-written text, an empty line if there is any, and the prompt on lines of its own between the two markers |
| ManagedBlock.MergeTellsPrompts | scripts/agent-prompts/sync-agent-policy-prompts-lib.ts:49-69 | merges of two prompts into one value are equal if and only if the prompts are |
| ManagedBlock.AllBlocksVanish | scripts/agent-prompts/sync-agent-policy-prompts-lib.ts:53-59 | however many blocks a text holds, all of them are removed and every text between them stays |
| ManagedBlock.StripUndoesMerge | scripts/agent-prompts/sync-agent-policy-prompts-lib.ts:53-69 | stripping a merged value gives back exactly the stripped original if and only if that holds no begin marker, for prompts without an end marker |
| ManagedBlock.StripUndoesMergeForAnyPrompt | scripts/agent-prompts/sync-agent-policy-prompts-lib.ts:53-69 | for hand-written text without a begin marker, stripping undoes merging if and only if the block of the prompt alone strips to nothing |
| ManagedBlock.MergeInjective | scripts/agent-prompts/sync-agent-policy-prompts-lib.ts:65-69 | two values merge to the same text if and only if their hand-written parts are the same: nothing hand-written is lost |
| ManagedBlock.MergeReplaces | scripts/agent-prompts/sync-agent-policy-prompts-lib.ts:53-69 | merging one prompt and then another equals merging the other alone if and only if the hand-written text holds no begin marker |
| ManagedBlock.MergeRun | scripts/agent-prompts/sync-agent-policy-prompts-lib.ts:53-69 | any run of merges equals the last merge alone and keeps the hand-written text |
| ManagedBlock.LoneBeginMarkerIsEaten | scripts/agent-prompts/sync-agent-policy-prompts-lib.ts:53-69 | a concrete value, a begin marker alone, on which merging twice differs from merging once |
| PromptSync.ConfigFile.Sync | scripts/agent-prompts/sync-agent-policy-prompts-lib.ts:75-119 | check mode and dry run never write, a failure never writes, and check succeeds exactly when the next text is the present one, with the reported counts; a write stores a config in which the text of every listed agent is what the user wrote and the prompt between its markers |
| PromptSync.WriteHoldsPrompts | scripts/agent-prompts/sync-agent-policy-prompts-lib.ts:75-92 | the same for the text that is computed: behind the hand-written part of each old entry stands exactly that agent's prompt between its markers |
| PromptSync.PassSucceedsIff | scripts/agent-prompts/sync-agent-policy-prompts-lib.ts:81-89 | the loop succeeds if and only if every listed agent has a prompt and an entry that is a list, or an object whose text is missing, null or a string |
| PromptSync.RefusalWritten | scripts/agent-prompts/sync-agent-policy-prompts-lib.ts:81-87 | an agent is missing exactly if its entry is none, null, false, zero or the empty text; the other refusals follow in order |
| PromptSync.FirstRefusalDecides | scripts/agent-prompts/sync-agent-policy-prompts-lib.ts:81-89 | the loop fails with the refusal of the first listed agent that is refused |
| PromptSync.UpdateEntryTwice | scripts/agent-prompts/sync-agent-policy-prompts-lib.ts:82-88 | updating an agent's entry twice equals updating it once if and only if its text is clean of begin markers |
| PromptSync.ListedEntryUpdated | scripts/agent-prompts/sync-agent-policy-prompts-lib.ts:81-89 | after the loop each listed agent's entry is the update of its own old entry, whatever the other agents |
| PromptSync.UnlistedEntryKept | scripts/agent-prompts/sync-agent-policy-prompts-lib.ts:81-89 | entries of unlisted agents are unchanged by the loop |
| PromptSync.SecondPass | scripts/agent-prompts/sync-agent-policy-prompts-lib.ts:81-89 | a second pass over the agent table changes nothing if and only if the listed entries are clean |
| PromptSync.SecondWrite | scripts/agent-prompts/sync-agent-policy-prompts-lib.ts:75-92 | a second computation of the configuration gives the same configuration if and only if the listed entries are clean |
| PromptSync.WriteThenCheck | scripts/agent-prompts/sync-agent-policy-prompts-lib.ts:91-118 | with a codec that reads back the two configurations that are printed, check passes on the written file if and only if the listed entries were clean (the option parser collects the agents in a set, so none is listed twice) |
| PromptSync.ReadsBackIsMet | scripts/agent-prompts/sync-agent-policy-prompts-lib.ts:91-92 | for every configuration there is a codec that reads back what is printed, so that nothing impossible is asked |
| PromptSync.WriteKeepsConfig | scripts/agent-prompts/sync-agent-policy-prompts-lib.ts:91-92 | a write keeps every other key of the configuration |
| PromptSync.WriteKeepsUnlisted | scripts/agent-prompts/sync-agent-policy-prompts-lib.ts:81-92 | a write keeps the entry of every agent that is not listed |
| PromptSync.WriteKeepsFields | scripts/agent-prompts/sync-agent-policy-prompts-lib.ts:86-87 | a write keeps every other field of a listed agent's entry |
| PromptSync.WriteKeepsHandWritten | scripts/agent-prompts/sync-agent-policy-prompts-lib.ts:65-69 | a write keeps the hand-written part of an entry if and only if the entry is clean |
| Lines.CollapseKeepsLines | scripts/release/release-changelog.ts:78-82 | collapsing runs of three or more newlines keeps the non-blank lines and their order |
| Lines.CollapseIdempotent | scripts/release/release-changelog.ts:82 | collapsing runs of newlines twice is collapsing them once |
| Headings.MatchByLine | scripts/release/release-changelog.ts:41-49 | the heading pattern, whose trailing white space can swallow blank lines, matches at a place exactly when the first line there is a heading line |
| Headings.HeadingIff | scripts/release/release-changelog.ts:41-49 | a line is a heading exactly if it is written as one: the text or the bracketed version, at most one date, white space |
| Headings.FindHeadingByLines | scripts/release/release-changelog.ts:41-49 | the first match of the pattern cuts the text at its first heading line, and there is none exactly when no line is a heading |
| Sections.SectionByLines | scripts/release/release-changelog.ts:40-57 | extracting a section from the text is outlining its lines: head, body up to the next bracketed heading, tail |
| ReleaseNotes.NotesJoin | scripts/release/release-changelog.ts:59-64 | text on both sides of a newline has notes exactly when one side has |
| ReleaseNotes.NoteIff | scripts/release/release-changelog.ts:59-64 | a line is a note if and only if it is white space, a bullet or a sub-heading mark, and some text |
| ReleaseNotes.CollapseKeepsNotes | scripts/release/release-changelog.ts:59-82 | collapsing runs of newlines neither makes nor loses notes |
| ReleaseNotes.NotesByLines | scripts/release/release-changelog.ts:59-64 | on text whose only line end is the newline, having notes is a matter of the non-blank lines |
| Changelog.PromotionInsertsHeading | scripts/release/release-changelog.ts:66-83 | the non-blank lines after a promotion are those before it with one line, the version heading, right behind the Unreleased heading |
| Changelog.PromotedLayout | scripts/release/release-changelog.ts:66-83 | between whatever runs of newlines, the promoted text is the head, one blank line, the heading with its date, the notes, one blank line, and the rest |
| Changelog.PromotionOutcome | scripts/release/release-changelog.ts:66-77 | a promotion is refused exactly without an Unreleased heading line or without notes under it, and changes nothing where the version has a heading |
| Changelog.PromotionMovesNotes | scripts/release/release-changelog.ts:66-83 | the new version's section owns exactly the old Unreleased lines, and Unreleased is left blank |
| Changelog.PromotionKeepsOthers | scripts/release/release-changelog.ts:66-83 | the section of every other version keeps its lines in order |
| Changelog.SecondPromotionRefused | scripts/release/release-changelog.ts:66-70 | after a promotion, any further promotion is refused as empty |
| Changelog.ValidationReadsSection | scripts/release/release-changelog.ts:85-97 | validation, which searches for the found heading text again, passes if and only if there is an Unreleased section and the version's own section has notes |
| Changelog.SectionCovers | scripts/release/release-changelog.ts:40-64 | a section whose head and tail hold the expected lines covers the notes between them, whatever white space and line ends stand around |
| Changelog.PromotionValidates | scripts/release/release-changelog.ts:66-97 | every successful promotion of an absent version yields a changelog that validation accepts |
| ReleaseSync.UpsertReplacesSection | scripts/release/sync-mcp-release-changelog.ts:177-194 | writing over an existing section replaces exactly its lines by the rendered ones |
| ReleaseSync.UpsertInsertsSection | scripts/release/sync-mcp-release-changelog.ts:196-200 | writing a new section puts the rendered lines right behind the Unreleased heading and keeps every other line |
| ReleaseSync.UpsertReplaceKeepsOthers | scripts/release/sync-mcp-release-changelog.ts:185-194 | replacing keeps the section of every other version |
| ReleaseSync.UpsertInsertKeepsOthers | scripts/release/sync-mcp-release-changelog.ts:196-200 | inserting keeps the section of every other version |
| ReleaseSync.UpsertReplaceIdempotentIff | scripts/release/sync-mcp-release-changelog.ts:177-194 | where the version has a section, writing the same section twice is writing it once if and only if some line outside the old section holds the text of the Unreleased heading; otherwise the second write is refused |
| ReleaseSync.SecondUpsertRefused | scripts/release/sync-mcp-release-changelog.ts:177-194 | a concrete changelog and section on which the first write succeeds and the second is refused |
| ReleaseSync.UpsertInsertIdempotentIff | scripts/release/sync-mcp-release-changelog.ts:177-200 | writing a new version's section twice is writing it once if and only if the text behind the first Unreleased text, heading or not, is empty or starts with a bracketed heading, but for leading newlines |
| ReleaseSync.NewByName | scripts/release/sync-mcp-release-changelog.ts:177-200 | every version without an opening bracket in it counts as new there, wherever the text names Unreleased, if no line is a heading of it |
| ReleaseSync.SecondUpsertLosesNote | scripts/release/sync-mcp-release-changelog.ts:185-200 | a concrete changelog, one note under Unreleased, on which writing any new version twice differs from writing it once |
| ReleaseSync.SyncTwiceIff | scripts/release/sync-mcp-release-changelog.ts:177-194 | the condition for an existing section, on the text as read from disk, with carriage returns removed first |
| ReleaseSync.SyncInsertTwiceIff | scripts/release/sync-mcp-release-changelog.ts:177-200 | the condition for a new version, on the text as read from disk |
| ReleaseSync.UpsertReplaceValidates | scripts/release/sync-mcp-release-changelog.ts:185-194 | a changelog with a replaced section that has notes passes validation |
| ReleaseSync.UpsertInsertValidates | scripts/release/sync-mcp-release-changelog.ts:196-200 | a changelog with an inserted section that has notes passes validation |
| ReleaseRender.RenderReleaseSection | scripts/release/sync-mcp-release-changelog.ts:157-171 | the loops push exactly the heading, and for each section in order its title and bullets |
| ReleaseRender.RenderedWritten | scripts/release/sync-mcp-release-changelog.ts:157-171 | the text is the heading with its date and then, for each section with items in the fixed order, its title and one bullet for each item, in order |
| ReleaseRender.RenderMeetsRewriter | scripts/release/sync-mcp-release-changelog.ts:157-171 | a rendered section is what the rewriter expects, and has notes if and only if some section has an item |
| ReleaseRender.SyncedChangelogValidates | scripts/release/sync-mcp-release-changelog.ts:157-200 | with at least one item, rendering and writing gives a changelog that validation accepts, over an old section or as a new one |
| FlowParser.ParseCommands | scripts/dev/android-oem-text-fallback-lib.ts:34-121 | the indexed loop with lookahead computes the reading of the lines by suffixes, with nested files |
| FlowParser.ParseCommandsFromFlowFile | scripts/dev/android-oem-text-fallback-lib.ts:29-32 | a file parses to the reading of its lines with its own directory as the base |
| FlowParser.StepUses | scripts/dev/android-oem-text-fallback-lib.ts:52-115 | a command uses up at least its own line and never more lines than there are |
| FlowParser.StepFailsIff | scripts/dev/android-oem-text-fallback-lib.ts:40-118 | a line is unsupported if and only if it is none of the known forms or a selector command without a selector, and is then reported trimmed |
| FlowParser.FlagIff | scripts/dev/android-oem-text-fallback-lib.ts:52-97 | a selector command is optional if and only if the line behind its selector says optional: true, and uses that line up if it is such a flag |
| FlowParser.UnquotePlain | scripts/dev/android-oem-text-fallback-lib.ts:17-19 | a value without quotes is taken as it stands |
| FlowParser.StepStable | scripts/dev/android-oem-text-fallback-lib.ts:52-115 | a complete command reads the same when a line that is not indented and no optional flag follows |
| FlowParser.ParseConcat | scripts/dev/android-oem-text-fallback-lib.ts:34-121 | parsing distributes over concatenation when the first part parses and the second starts with such a line |
| FlowPrinter.UnquoteQuote | scripts/dev/android-oem-text-fallback-lib.ts:17-19 | every string survives quoting and unquoting, quotes and backslashes included |
| FlowPrinter.PrintReads | scripts/dev/android-oem-text-fallback-lib.ts:52-115 | each printed command, in block or same-line form, reads back as itself and uses up its lines |
| FlowPrinter.ParsePrinted | scripts/dev/android-oem-text-fallback-lib.ts:34-121 | parsing any printed list of commands gives the list back, for all string values |
| FlowPrinter.ParsePrintedFile | scripts/dev/android-oem-text-fallback-lib.ts:34-39 | the same through the text of a file, for single-line values |
| FlowTermination.NeverEndsIff | scripts/dev/android-oem-text-fallback-lib.ts:29-50 | for any files, reading one overruns every depth if and only if a walk along the includes that are reached comes back to a file |
| FlowTermination.SelfIncludeNeverEnds | scripts/dev/android-oem-text-fallback-lib.ts:45-50 | a concrete file, holding only an include of itself, on which reading never ends |
| FlowTermination.FineNeverEndsIff | scripts/dev/android-oem-text-fallback-lib.ts:29-50 | where every file that includes lead to is there and has no unsupported line, the same for all the includes as written |
| FlowTermination.AcyclicEnds | scripts/dev/android-oem-text-fallback-lib.ts:29-50 | where no cycle of includes can be reached, reading ends, and every depth above the number of files gives one and the same result |
| FlowTermination.FileDeeper | scripts/dev/android-oem-text-fallback-lib.ts:29-50 | a result at some depth is the result at every greater depth, so the bound is no part of the meaning |
| FlowInlining.ParseConcatIff | scripts/dev/android-oem-text-fallback-lib.ts:34-121 | two lists of lines that parse read, joined, as the two lists of commands if and only if it is not so that the first ends in a launchApp and the indented front of the second holds a command or an include of a file with commands; there the whole loses commands or fails |
| FlowInlining.FlattenLinesParseIff | scripts/dev/android-oem-text-fallback-lib.ts:34-121 | lines that parse give the same commands with each include replaced by its flattened file if and only if no command on an indented line comes to stand right behind a launchApp; otherwise commands are lost or it fails |
| FlowInlining.FlattenFileParseIff | scripts/dev/android-oem-text-fallback-lib.ts:29-121 | the same for whole files, with a condition on the files that are reached only |
| FlowInlining.FlushFileSeamless | scripts/dev/android-oem-text-fallback-lib.ts:45-58 | the condition holds wherever no file starts with an indented line or has one behind an include |
| FlowInlining.InliningLosesCommand | scripts/dev/android-oem-text-fallback-lib.ts:45-58 | two concrete files whose inlined text parses to one command less |
| TextInjection.NormalizeIsEncode | scripts/dev/android-oem-text-fallback.ts:69-81 | the nine chained replacements are one substitution for each character |
| TextInjection.CodesWritten | scripts/dev/android-oem-text-fallback.ts:69-81 | the code of each character: a sequence for the space, a backslash in front of eight others, any other as it stands |
| TextInjection.EncodedIsTame | scripts/dev/android-oem-text-fallback.ts:69-81 | encoded text holds no space, and no character that the shell would act on without a backslash in front of it |
| TextInjection.DecodeEncode | scripts/dev/android-oem-text-fallback.ts:69-81 | text without a backslash can be decoded from its encoding |
| TextInjection.EncodeIsUniqueIff | scripts/dev/android-oem-text-fallback.ts:69-81 | a text is the only one with its encoding if and only if it holds neither of two pairs of characters |
| FlowRunner.RunCommands | scripts/dev/android-oem-text-fallback.ts:83-147 | the command loop with its clipboard variable sends exactly the requests of the specification, on any device; its trace is cut into the requests of the commands as RunWritten has it |
| FlowRunner.RunWritten | scripts/dev/android-oem-text-fallback.ts:93-147 | behind the user switch a run sends, command by command with nothing between, stop and start for a launch, a lookup and the tap at the point found, the typed text; it goes well exactly when all commands do, and ends at the first refusal that is not optional |
| FlowRunner.RunTypes | scripts/dev/android-oem-text-fallback.ts:94-147 | over a whole run, the texts typed are those of the attempted commands in order, each paste with the nearest earlier clipboard text or none |
| FlowRunner.TypedDecodes | scripts/dev/android-oem-text-fallback.ts:69-81 | what is typed decodes to the text that was meant, if that holds no backslash |
| FlowRunner.RunIsOrderly | scripts/dev/android-oem-text-fallback.ts:98-130 | in every run an app is started only right behind its stop, and a tap goes to the point at which the device has just found the selector of the same command |
| FlowRunner.FailureHasCause | scripts/dev/android-oem-text-fallback.ts:98-147 | a run that stops was refused something by the device that no optional selector asked for |
| FlowRunner.SuccessMeetsSelectors | scripts/dev/android-oem-text-fallback.ts:105-132 | after a successful run the device had found the target of every command that is not optional |
| SchemaCheck.ValidateAgainstSchema | scripts/validate-tool-output-contracts.ts:50-129 | the loops with early returns list exactly the specified findings, in order and with paths |
| SchemaCheck.AcceptsIff | scripts/validate-tool-output-contracts.ts:50-129 | there are no findings if and only if the data conforms: one of the six types by its kind of value, the enumeration, the bounds as inequalities, the required fields, the listed properties, the first three items |
| SchemaPaths.PathsExtend | scripts/validate-tool-output-contracts.ts:113-124 | every finding's path extends the starting path |
| SchemaPaths.FindingsExact | scripts/validate-tool-output-contracts.ts:50-129 | a finding is listed at a path if and only if the checker reaches the value there and that value breaks the named keyword of the schema there |
| SchemaLaws.StandardAcceptedIff | scripts/validate-tool-output-contracts.ts:54-129 | data that fully meets the JSON Schema standard is accepted if and only if no list or object looked at is under an enumeration |
| SchemaLaws.AcceptedIsStandardIff | scripts/validate-tool-output-contracts.ts:54-129 | accepted data fully meets the standard if and only if what the checker does not read does: lists of types, the type null and unknown type names, and items behind the third |
| SchemaLaws.FourthItemAccepted | scripts/validate-tool-output-contracts.ts:121-126 | a concrete list whose fourth item breaks the item schema is accepted and does not meet the standard |
| SchemaLaws.CompositeEnumRefused | scripts/validate-tool-output-contracts.ts:81-86 | an empty list that its enumeration lists meets the standard and is refused |
| SchemaLaws.TypeListIgnored | scripts/validate-tool-output-contracts.ts:54-78 | with a list of type names the findings are those of the schema without a type |
| SchemaLaws.OnlyThreeItems | scripts/validate-tool-output-contracts.ts:121-126 | items behind the third never change the findings |
| SchemaLaws.TighterAcceptsLess | scripts/validate-tool-output-contracts.ts:50-129 | a schema with added constraints, at any level, integer inside number among them, accepts no more data |
| LiveVerification.SelectDevice | scripts/showcase/mobile-change-verification.ts:342-352 | a requested id is returned; else the id of the first listed device of the platform that has one and is not called unavailable, and none if and only if there is no such device |
| LiveVerification.RunLive | scripts/showcase/mobile-change-verification.ts:387-557 | the workflow makes exactly the specified calls and returns the specified bundle and packet, whatever the tools answer |
| LiveContract.CallsWritten | scripts/showcase/mobile-change-verification.ts:387-525 | a full run calls exactly its tools in order, each with its session, device and whole input; any other run asks for the devices only |
| LiveContract.StepsWritten | scripts/showcase/mobile-change-verification.ts:332-372 | each call has the step of its answer: success and skip exactly as it says, its reason code or OK, and a screen in the wrong phase fails as not ready |
| LiveContract.StoppedWritten | scripts/showcase/mobile-change-verification.ts:396-457 | a run without a device has one failed step, a run without its artifact a second one, and both leave a packet and no artifacts |
| LiveContract.ArtifactsWritten | scripts/showcase/mobile-change-verification.ts:496-500 | the artifacts are the strings that the answer of the inspection lists, in order, and a packet has the same |
| LiveContract.BundleWritten | scripts/showcase/mobile-change-verification.ts:204-260 | run id, source, step ids, and the verdict: no device, no artifact, verified or failed, by codes and statuses of the steps |
| LiveContract.PacketWritten | scripts/showcase/mobile-change-verification.ts:402-580 | a packet has the code of its failed step, its category and confidence by its signals, and as signals those of a missing device, of a missing artifact, or the codes of the steps |
| LiveContract.CategoryWritten | scripts/showcase/mobile-change-verification.ts:262-272 | each category is blamed if and only if its signal is given and none that goes before it |
| LiveLaws.SessionDiscipline | scripts/showcase/mobile-change-verification.ts:387-525 | without a device or artifact only the device list is asked for; otherwise one session is started, every call from there on carries its id and none before does, and its end comes once and last |
| LiveLaws.StepsFollowCalls | scripts/showcase/mobile-change-verification.ts:396-525 | each call of a full run has its step, in order and under its name |
| LiveLaws.VerdictIff | scripts/showcase/mobile-change-verification.ts:194-208 | the verdict is verified if and only if there are steps, all succeeded and none has an unavailable code |
| LiveLaws.LiveVerdictIff | scripts/showcase/mobile-change-verification.ts:204-260 | the same for live runs; readiness is marked as matched exactly then, and a verified run has no packet |
| LiveLaws.PacketIff | scripts/showcase/mobile-change-verification.ts:402-556 | there is a failure packet if and only if some step failed, and it is about the first one |
| LiveLaws.PacketBlames | scripts/showcase/mobile-change-verification.ts:262-272 | a packet blames the environment exactly when the device or artifact was missing or a step says so, else app readiness exactly when a step says so, and has low confidence exactly when it blames nothing |
| LiveLaws.SilentFailureIff | scripts/showcase/mobile-change-verification.ts:194-208 | a run is not verified and leaves no packet if and only if no step failed and one was skipped or carries an unavailable code |
| LiveLaws.SkippedRunIsSilent | scripts/showcase/mobile-change-verification.ts:539-556 | such a run: every tool answers that it skipped |
| LiveLaws.VerifiedSawPhase | scripts/showcase/mobile-change-verification.ts:505-519 | a verified run has seen the expected app phase in a screen summary |
| LiveLaws.ScreenIdIgnored | scripts/showcase/mobile-change-verification.ts:373-376 | the expected screen id changes neither calls nor steps nor verdict nor packet |
| ProofIntake.CompactArtifacts | scripts/showcase/generate-mobile-change-live-proof-intake.ts:109-118 | the loop with its inner search computes the compact list |
| ProofIntake.CompactHolds | scripts/showcase/generate-mobile-change-live-proof-intake.ts:109-118 | the compact list has no duplicates and holds exactly the usable artifacts |
| ProofIntake.CompactFront | scripts/showcase/generate-mobile-change-live-proof-intake.ts:109-118 | it keeps the order of first appearance |
| ProofIntake.BuildIntake | scripts/showcase/generate-mobile-change-live-proof-intake.ts:159-237 | the builder computes an intake that is what IntakeIs says |
| ProofIntake.IntakeIs | scripts/showcase/generate-mobile-change-live-proof-intake.ts:120-237 | verdict, level, next action and each of the five reasons, all if and only if: by the source, the verdict and codes, the marks of a forced run in directory or run id, the match, and the six step ids |
| ProofIntake.ForcedNeverPromotes | scripts/showcase/generate-mobile-change-live-proof-intake.ts:133-135 | whatever stands around the mark of a forced run in the directory or the run id, the intake has the controlled blocker and is neither promotable nor physical |
| ProofIntake.PromotableIff | scripts/showcase/generate-mobile-change-live-proof-intake.ts:159-237 | a summary is promotable if and only if it is live, its device was there, it is not controlled, does not contradict itself and has all required steps; it then has the physical level |
| ProofIntake.LevelIff | scripts/showcase/generate-mobile-change-live-proof-intake.ts:137-202 | the level is physical exactly for live, present, uncontrolled devices; the next action is promotion exactly for promotable proof and a rerun exactly for a missing device |
| ProofIntake.LiveRunPromotableIff | scripts/showcase/generate-mobile-change-live-proof-intake.ts:120-205 | for the summary of any live run: if and only if it got its device and artifact, no step says that a device was missing, and nothing marks it as controlled |
| ProofIntake.FailedRunIsPromotable | scripts/showcase/generate-mobile-change-live-proof-intake.ts:159-237 | a live run in which every tool fails is promotable |
| OneCommand.RunOneCommand | scripts/showcase/mobile-change-one-command.ts:179-283 | the gated stages call exactly the specified parts and give the specified result, or fail on a missing part |
| OneCommand.RunIs | scripts/showcase/mobile-change-one-command.ts:125-283 | a run ends by the first gate that it does not pass, with the verdict, level, blockers and next action of that gate |
| OneCommand.Gated | scripts/showcase/mobile-change-one-command.ts:183-275 | live verification comes only behind a readiness that passed, intake only behind a verified live run, nothing live in fixture mode, handoff last |
| OneCommand.StagesTellTheRun | scripts/showcase/mobile-change-one-command.ts:179-283 | the reported stages are those of the parts that were called, in order, and the command is completed if and only if every stage passed |
| OneCommand.EvidenceTellsTheRun | scripts/showcase/mobile-change-one-command.ts:125-283 | the evidence names the output of the intake and of the handoff exactly when these were called, and a readiness exactly when it blocked |
| OneCommand.BlockedCallsNothing | scripts/showcase/mobile-change-one-command.ts:125-146 | a blocked readiness ends the command before anything live, with its blockers |
| OneCommand.PhysicalIff | scripts/showcase/mobile-change-one-command.ts:179-283 | the command completes with the physical level if and only if it is live, readiness passed, the run verified and its intake accepts it as physical |
| OneCommand.CompletedIsClear | scripts/showcase/mobile-change-one-command.ts:232-283 | a completed command has no blockers |
| RepoAppCandidate.BuildCandidate | scripts/showcase/mobile-change-repo-app-success-candidate.ts:154-210 | the builder computes a candidate that is what CandidateIs says |
| RepoAppCandidate.CandidateIs | scripts/showcase/mobile-change-repo-app-success-candidate.ts:135-210 | it fails exactly on a contract that is not for Android or not sound; its blockers are those of the verification and one each for a missing artifact and a weak contract; its verdict follows from these, the verification and the intake |
| RepoAppCandidate.PromotedIff | scripts/showcase/mobile-change-repo-app-success-candidate.ts:135-184 | a candidate is promoted if and only if the command completed with physical proof and no blockers, the intake accepts it, the artifact exists and the contract is strong |
| RepoAppCandidate.BlockedIff | scripts/showcase/mobile-change-repo-app-success-candidate.ts:135-184 | a candidate is called blocked if and only if its verification was |
| RepoAppCandidate.BuiltValidIff | scripts/showcase/mobile-change-repo-app-success-candidate.ts:212-238 | the validator takes a built candidate if and only if the artifact is named and exists and the contract is strong, and calls it promotable exactly when it is promoted |
| RepoAppCandidate.StrengthIff | scripts/showcase/mobile-change-readiness-contract.ts:89-107 | a valid contract is strong if and only if it is not visual only, and then has a deterministic signal |
| CiEvidence.SummaryHasLevel | scripts/showcase/mobile-change-ci-pr-evidence.ts:136-163 | the summary text of any evidence contains its proof level |
| CiEvidence.SummaryWritten | scripts/showcase/mobile-change-ci-pr-evidence.ts:136-163 | the summary text shows the conclusion, the run, the proof level, a line for each source and a line for each blocker |
| CiEvidence.BuiltIsValid | scripts/showcase/mobile-change-ci-pr-evidence.ts:165-226 | there is evidence for any sources but none, and it passes the validator |
| CiEvidence.SuccessIff | scripts/showcase/mobile-change-ci-pr-evidence.ts:92-119 | for any sources, the conclusion is success if and only if every source is promoted and clear and the first one has the physical level |
| CiEvidence.EvidenceWritten | scripts/showcase/mobile-change-ci-pr-evidence.ts:92-226 | proof level, status, conclusion and next action, each by its cases on the sources |
| CiEvidence.FailureIff | scripts/showcase/mobile-change-ci-pr-evidence.ts:108-119 | the conclusion is failure if and only if no source is blocked or has blockers, and some source failed or was rejected by the intake |
| CiEvidence.BlockersInOrder | scripts/showcase/mobile-change-ci-pr-evidence.ts:172 | the blockers of the evidence are those of the sources, one after the other |
| CiEvidence.LaterLevelUnchecked | scripts/showcase/mobile-change-ci-pr-evidence.ts:92-113 | a promoted later source of the fixture level does not prevent success |
| CiEvidence.SourceOfBuilt | scripts/showcase/mobile-change-ci-pr-evidence.ts:228-251 | a built candidate becomes a clear physical source exactly when it is promoted, and never one that says failure |
| CiEvidence.SourceWritten | scripts/showcase/mobile-change-ci-pr-evidence.ts:228-251 | the source made from a candidate has its verdict, blockers and next action, and the level of the intake, of a block or of the verification |
| CiEvidence.BuiltSuccessIff | scripts/showcase/mobile-change-ci-pr-evidence.ts:92-251 | over any list of built candidates CI says success if and only if all of them are promoted, never says failure, and its evidence is valid |
| NoInflation.PromotedIffEarned | scripts/showcase/mobile-change-repo-app-success-candidate.ts:154-210 | with verification and intake from the pipeline's own builders, a candidate is promoted if and only if it is live, readiness passed, the run got its device and succeeded in every step with nothing unavailable, no mark of a forced run occurs in directory or run id, the intake was attached, the artifact exists and the contract is not visual only |
| NoInflation.PromotionHistory | scripts/showcase/mobile-change-one-command.ts:179-283 | behind a promoted candidate readiness was asked first and live verification second, one session was kept in order, the expected phase was seen and the intake had no blockers |
| NoInflation.NoProofInflation | scripts/showcase/mobile-change-ci-pr-evidence.ts:92-251 | over any list of such candidates CI says success if and only if every one of them was earned, never says failure, and its evidence is valid |
| CliRace.CliRun.OnStdout | scripts/validate-dry-run.ts:102-112 | output is appended, and the JSON timer starts with the first payload, once |
| CliRace.CliRun.OnJsonTimer | scripts/validate-dry-run.ts:105-110 | the JSON timer kills the process and resolves with the payload of all the output so far |
| CliRace.CliRun.OnError | scripts/validate-dry-run.ts:116-118 | an error rejects a run that is not settled |
| CliRace.CliRun.OnTimeout | scripts/validate-dry-run.ts:92-100 | a timeout kills the process and resolves with the payload or rejects |
| CliRace.CliRun.OnClose | scripts/validate-dry-run.ts:119-126 | a close resolves on success or an allowed failure with a payload, and otherwise rejects with the exit code and the output in its message |
| CliRace.PayloadGrows | scripts/validate-dry-run.ts:21-29 | the payload of a longer output extends the payload of its front |
| CliRace.ExtractIff | scripts/validate-dry-run.ts:21-29 | the payload of an output is what stands from its first opening brace to its last closing one, and there is one exactly if there is such a piece |
| CliRace.EventWritten | scripts/validate-dry-run.ts:81-127 | what each event does to output, outcome, timers and kills, by the payload so far, with the exact messages |
| CliRace.PayloadIsParsed | scripts/validate-dry-run.ts:129-130 | a payload is its own payload, so what is resolved is what is parsed |
| CliRace.RunIsSound | scripts/validate-dry-run.ts:81-127 | over every order of events it settles at most once, no timer waits after that, and before that the JSON timer waits exactly when there is a payload |
| CliRace.OutcomeStays | scripts/validate-dry-run.ts:85-91 | the first outcome stays |
| CliRace.TerminalEventsSettle | scripts/validate-dry-run.ts:92-126 | a timeout, an error, a close and the JSON timer always leave the run settled; the timer's way out without a payload is never taken |
| CliRace.TimedOutSawNothing | scripts/validate-dry-run.ts:92-100 | a run given up by the timeout had never shown a payload |
| CliRace.PayloadDecides | scripts/validate-dry-run.ts:92-126 | once there is a payload, a resolution is an extension of it and only an error or a failing exit can still reject |
| QueueMetrics.CollectSchedulerMetrics | scripts/report/generate-phase-report.py:134-196 | the loop over the audit files with its skips computes the specified metrics |
| QueueMetrics.OneFileWritten | scripts/report/generate-phase-report.py:148-163 | a file adds its wait cut off to an integer, and its counts, exactly if it is readable, of the platform and has metrics |
| QueueMetrics.FilesJoin | scripts/report/generate-phase-report.py:145-163 | waits and counts of files are those of their parts, one after the other |
| QueueMetrics.MetricsWritten | scripts/report/generate-phase-report.py:165-196 | the metrics are the nearest-rank 50th and 95th percentile and the greatest wait, zero without a wait, and the sums of the counts |
| QueueMetrics.ClampsNeverBind | scripts/report/generate-phase-report.py:167-180 | for a list that is not empty the index clamps never bind |
| QueueMetrics.PercentileIsNearestRank | scripts/report/generate-phase-report.py:165-184 | the chosen wait is a nearest-rank percentile: at least that share of the waits is at or below it, less than that share strictly below |
| QueueMetrics.MetricsInOrder | scripts/report/generate-phase-report.py:165-196 | p50 is at most p95, and p95 at most the maximum |
| QueueMetrics.FileOrderIgnored | scripts/report/generate-phase-report.py:145-196 | the metrics do not depend on the order of the files |
| AcceptanceReport.CollectPlatform | scripts/report/generate-phase-report.py:79-131 | the report of a platform counts its runs and passes and decides its status, with no data where there is no directory of runs |
| AcceptanceReport.ReportWritten | scripts/report/generate-phase-report.py:79-131 | the report holds the runs and their count, the passes, the status by its cases, and the metrics of the audit files |
| AcceptanceReport.PassedJoin | scripts/report/generate-phase-report.py:116 | each run counts as one pass exactly if its result says so |
| AcceptanceReport.GoIff | scripts/report/generate-phase-report.py:118-121 | a platform is a go if and only if it has runs and at most one in twenty did not pass |
| AcceptanceReport.BuildPayload | scripts/report/generate-acceptance-evidence.py:72-123 | the loops sum the runs, list the failures and aggregate the metrics |
| AcceptanceReport.PayloadWritten | scripts/report/generate-acceptance-evidence.py:72-123 | the payload carries the sums and failures and, of the metrics of the platforms, the upper median, the greatest values and the sums |
| AcceptanceReport.SumsWritten | scripts/report/generate-acceptance-evidence.py:75-76 | what one platform adds to the totals, wherever it stands |
| AcceptanceReport.FailuresJoin | scripts/report/generate-acceptance-evidence.py:77-89 | what one platform adds to the failures, in order |
| AcceptanceReport.SelectJoin | scripts/report/generate-acceptance-evidence.py:99-111 | what one platform adds to the metrics that are aggregated, in order |
| AcceptanceReport.CountsWritten | scripts/report/generate-acceptance-evidence.py:106-111 | what one platform adds to the counts of conflicts and recoveries |
| AcceptanceReport.FailuresWritten | scripts/report/generate-acceptance-evidence.py:77-89 | the failures are exactly the runs that did not pass, each under its platform |
| AcceptanceReport.FailuresAreTheRest | scripts/report/generate-acceptance-evidence.py:76-89 | there are as many failures as runs that did not pass |
| AcceptanceReport.MedianSplits | scripts/report/generate-acceptance-evidence.py:113-116 | the aggregated p50 is an upper median of the platforms' values |
| AcceptanceReport.MaxIsThere | scripts/report/generate-acceptance-evidence.py:122-123 | the aggregated maximum is the greatest of the platforms' maxima |
| AcceptanceReport.LargestIsAbove | scripts/report/generate-acceptance-evidence.py:118-121 | the aggregated p95 is the greatest of the platforms' values |
| AcceptanceReport.CombinedInOrder | scripts/report/generate-acceptance-evidence.py:97-123 | aggregation keeps p50, p95 and the maximum in order |
| AcceptanceReport.AcceptanceHolds | scripts/report/generate-acceptance-evidence.py:72-123 | for collected reports both hold |
| FailureMemory.BuildMemory | scripts/showcase/mobile-change-failure-memory.ts:197-230 | the grouping loop over the map and the mapping of its groups compute the specified memory |
| FailureMemory.KeysIff | scripts/showcase/mobile-change-failure-memory.ts:203 | two records have the same key if and only if they have the same category, and the same reason code unless that is app readiness |
| FailureMemory.GroupsPartition | scripts/showcase/mobile-change-failure-memory.ts:201-205 | grouping is a partition: distinct keys, no empty group, each group the records of its key in their order, sizes summing up |
| FailureMemory.OccurrencesConserved | scripts/showcase/mobile-change-failure-memory.ts:207-226 | occurrences sum up to the number of records, and each pattern counts exactly the records of its key |
| FailureMemory.EveryRecordCounts | scripts/showcase/mobile-change-failure-memory.ts:201-205 | every record has its pattern |
| FailureMemory.PatternSpeaksForRecords | scripts/showcase/mobile-change-failure-memory.ts:207-222 | every record of a pattern has its category, and its reason code unless that is app readiness, and the pattern's confidence is the minimum of theirs |
| FailureMemory.PatternWritten | scripts/showcase/mobile-change-failure-memory.ts:113-222 | the key of a pattern as spelled, its source and evidence paths exactly those of its records, and its recommendation by category and confidence |
| FailureMemory.ConfidenceWritten | scripts/showcase/mobile-change-failure-memory.ts:105-111 | a pattern has low confidence if and only if some record of its key has, and high if and only if all have |
| FailureMemory.UniqueHolds | scripts/showcase/mobile-change-failure-memory.ts:113-115 | collected paths are the given ones without empty ones and without duplicates |
| FailureMemory.BuiltValidIff | scripts/showcase/mobile-change-failure-memory.ts:232-247 | the validator takes a built memory if and only if every pattern of high confidence has evidence |
| FailureMemory.ValidatorRefuses | scripts/showcase/mobile-change-failure-memory.ts:232-247 | patterns that the validator refuses whatever else they hold |
| FailureMemory.BuiltRecordsPass | scripts/showcase/mobile-change-failure-memory.ts:232-247 | a memory of records that cite their source always passes |
| FailureMemory.BuildersCite | scripts/showcase/mobile-change-failure-memory.ts:249-277 | the records of a packet and of a candidate all cite the source path, if that is not empty |
| FailureMemory.RecordsWritten | scripts/showcase/mobile-change-failure-memory.ts:249-277 | what is made of a packet with missing fields, and of each blocker of a candidate |
| FailureMemory.SourcesPass | scripts/showcase/mobile-change-failure-memory.ts:197-277 | the memory built from any list of failure packets and candidates with paths passes its validator |
| ReleaseVersion.MatchText | scripts/release/prepare-mcp-release-lib.ts:8-12 | the version pattern matches every text of three numerals and gives back exactly those |
| ReleaseVersion.MatchSound | scripts/release/prepare-mcp-release-lib.ts:8-12 | whatever it matches is the text of three numerals |
| ReleaseVersion.PrintReads | scripts/release/prepare-mcp-release-lib.ts:14-33 | a printed version is exact and reads as its numbers |
| ReleaseVersion.CompareSemver | scripts/release/prepare-mcp-release-lib.ts:35-50 | the loop over three components with its early return gives the first difference |
| ReleaseVersion.CompareIff | scripts/release/prepare-mcp-release-lib.ts:35-50 | comparison agrees with precedence of SemVer 2.0.0, section 11, and is zero exactly for equal numbers |
| ReleaseVersion.ComparePreorder | scripts/release/prepare-mcp-release-lib.ts:35-50 | comparison is a total preorder on exact versions |
| ReleaseVersion.BumpIsGreater | scripts/release/prepare-mcp-release-lib.ts:14-33 | a bump exists exactly for an exact version, raises the numbers of its level and compares as greater |
| ReleaseVersion.ResolvedIsGreater | scripts/release/prepare-mcp-release-lib.ts:81-91 | every resolved target is exact and greater than the current version |
| ReleaseVersion.TargetsWritten | scripts/release/prepare-mcp-release-lib.ts:14-91 | a level raises its number and clears the smaller ones; an explicit target stands if and only if both versions are exact and it is the later one |
| ReleaseVersion.ArgsWritten | scripts/release/prepare-mcp-release-lib.ts:52-79 | what each argument list asks for, or how it is refused |
| ReleaseVersion.ReleasesIncrease | scripts/release/prepare-mcp-release-lib.ts:81-91 | along any run of successful releases versions strictly increase, so no version and no tag comes twice |
| ReleaseVersion.LeadingZerosAreEqual | scripts/release/prepare-mcp-release-lib.ts:8-50 | a leading zero gives another accepted text of an equal version |
| ReleaseVersion.ArgvRoundTrip | scripts/release/prepare-mcp-release-lib.ts:52-98 | an argument list parses to an explicit version if and only if it is the list built from that version |

## Left out

- JSON parsing and printing: the configuration file has an arbitrary codec, and the one law that needs it asks that it reads back the two configurations that are printed; file order of keys is kept.
- The subjects of commits and the theme rules that sort them into sections: a table of patterns, single cases each; the grouped items are an arbitrary map of one-line texts.
- The command-line options of the prompt installer and the choice of its target path: constant cases.
- The depth bound of the flow parser stands for unbounded recursion; FlowTermination proves that it is no part of the meaning, and when no bound is enough.
- What inlining does to flow files that do not parse.
- The search in the captured screen, the bounds of a node and the final app-phase check of the runner: a located point or a failure is an arbitrary answer of the device; waiting is left out.
- Schema values of the wrong JSON kind (a bound that is no number, a property schema that is no object) and names on the prototype chain of an object: schemas are typed, and a field is there exactly when the data has it.
- The rendered text of findings: a path is a list of steps and a problem is a value, from which the message is made.
- The artifacts that the file writer adds to a live run's bundle and packet after the run; resolving and joining paths are arbitrary functions.
- The readiness check of devices in front of the one command: its verdict and blockers are arbitrary, and so are fixture, live and intake results there; NoInflation puts in the real live run and intake.
- The fixed boundary notes that results of the pipeline carry, apart from those of the CI evidence: constants.
- Markdown renderers, except the pull-request summary whose text a validator reads.
- Division and comparison of pass rates are exact, without floating-point rounding; numbers beyond the exact range of doubles are not bounded.
- Sorting is the language's own; it is modelled as an insertion sort that is proved to be the only ascending permutation.
- ProofIntake.BuildIntake: the surface, the expected readiness and the failure summary, which are copied from the input, are left out.
- FailureMemory: the command and reason texts of recommendations are left out, their kind is kept.
- Probe scripts, fixed-evidence validators, React Native scripts, the MCP server, the session core and the adapters: single cases, or not part of this model.
