# llama_shim: verified models of its compilers, repairs, captures and reports

The project models six parts of llama_shim, an OpenAI-compatible shim in front of local model servers, and proves
what they promise about each other.  `dafny verify dfyconfig.toml` checks all of it.

1. **Constrained tools.**  A custom tool may come with a Lark grammar.  The shim compiles it twice: to one regular
   expression, with which it validates the tool's input itself, and to a grammar for vLLM's guided decoding.  The model
   has the line reader, the tokenizer, the recursive-descent parsers and both compilers with their caches, readers for
   regular-expression text and for the emitted grammar text, and the languages all of these stand for, over spans of
   a text so that anchors mean something.  Main results: a rule on several lines derives what one of its lines
   derives, a search with the anchored expression accepts exactly what `start` derives, the emitted text, read as
   text, generates exactly the same from `root`, a definition compiles exactly when all that `start` reaches is usable
   and acyclic, and the second compiler cannot fail where the first succeeded.  (`Languages`, `Regex*`, `GoQuote`,
   `Lark*`)
2. **Patch repair.**  Five passes mend the patches models write.  For every input the output is canonical, no line is
   lost and each is edited at most once, which edit it gets is said on the input's sections and hunks, `changed` is
   set exactly when the input has one of five defects, repeated repair converges, and one repair is enough exactly
   when no range header has another one as its trailing text.  (`Text`, `Patch*`)
3. **Stream capture.**  Chunks of a chat completion are assembled in place under a byte budget.  For every stream the
   texts are the in-order concatenations of their fragments, tool calls without an index included, everything else is
   the last value carried, each field of the response is given in terms of the chunks, the counter is what the
   builders hold, the budget trips exactly when the fragments exceed it, and neither swapping chunks of different
   choices nor cutting a fragment in two changes the capture or the response rebuilt from it.  (`Stream*`)
4. **Compaction.**  Trimming, expanding, normalising, rendering and summarising compacted context: algebraic laws,
   exact success conditions, round trips, rune bounds, and what the texts show where.  (`Compaction*`, `JsonQuote`)
5. **Evaluation verdicts.**  Attempts become task results, summaries, comparisons, profiles and a verdict.  Counts are
   conserved end to end, a profile passes exactly when every task of every run passed, and the three differently
   written tests for a retry are one on what the runner makes.  (`Eval*`, `Tallies`, `StringOrder`)
6. **Debug traces.**  A map and an eviction queue: which traces are stored is characterised for every run, repeated
   request ids included.  (`TraceStore`, `TraceTransforms`)

Code that changes things step by step is modelled by methods and classes, each proved against a function of its inputs
or of the old state; the laws are proved about that function.  Strings are sequences of Unicode code points.

Where a promise does not hold of the code, the exact condition is proved and a failing family or input is given:

- Repairing is not always idempotent: `PatchDouble.RepairIdempotentOnFields`, `PatchDouble.DoubleHeaderFails`.
- The compilers paste regex literals without wrapping them: `RegexMeaning.SafeToPasteIffSelfContained`,
  `RegexMeaning.QuotedBarUnsafe`.
- The emitted grammar does not tell patterns from names and blanks: `LarkPrint.PrintedReadIff`,
  `LarkClashTexts.NamesCollideInText`, `LarkClashTexts.BlanksCollideInText`; it puts a postfix operator right behind
  a bare pattern: `LarkGrammar.QuantifiedPatternIff`, `LarkClashTexts.StarredTextDiffers`; and it prints the start rule
  under a name another rule may have: `LarkGrammar.RootClash`, `LarkClashTexts.RootTextDiffers`.
- The text of a compaction can be lost when it is shown: `CompactionItems.TextShownIff`, `CompactionItems.TextLost`;
  and an input can make the model-assisted compaction fail: `CompactionItems.StructuredSucceedsIff`,
  `CompactionItems.EscapeInputFails`.
- A compaction item and the output list beside it need not say the same: `CompactionItems.ItemAndOutputAgreeIff`,
  `CompactionItems.RetainedCompactionDiffers`.
- What a compaction retains is not kept by a later trimming: `CompactionItems.OutputTrimmed`.
- A profile can pass with failed tasks where the stored counts are wrong: `EvalAudit.StoredPassesIff`,
  `EvalAudit.MiscountedPasses`.
- The three tests for a retry can differ for stored summaries: `EvalRunner.RetriesAgreeIff`,
  `EvalRunner.LateAgreesIff`, `EvalRunner.RetriesDiffer`; so can the retry list and the retry count of a profile:
  `EvalAudit.RetryListIff`, `EvalAudit.UnnoticedExample`.
- A newly begun trace can be evicted at once when its request id repeats: `TraceStore.BeginKeepsIff`,
  `TraceStore.RepeatedIdLost`.

## Model

| member | source | states |
|---|---|---|
| `LarkLexer.FindClose` | internal/httpapi/custom_tool_constraints.go:491-505 | finds the first unescaped closing delimiter, and fails exactly when there is none |
| `LarkLexer.ContainsLookaround` | internal/httpapi/custom_tool_constraints.go:529-552 | true exactly when an unescaped lookaround group opens outside character classes |
| `LarkLexer.ContainsLazyQuantifier` | internal/httpapi/custom_tool_constraints.go:554-572 | true exactly when an unescaped quantifier outside classes is followed by a question mark |
| `LarkLexer.ReadToken` | internal/httpapi/custom_tool_constraints.go:431-484 | the token read is one the text spells there; a refusal means that no token whatever is spelled there |
| `LarkLexer.SpellingUnique` | internal/httpapi/custom_tool_constraints.go:425-489 | a text is a spelling of at most one token sequence |
| `LarkLexer.Tokenize` | internal/httpapi/custom_tool_constraints.go:425-489 | returns the token sequence the expression spells, and an error exactly when there is none |
| `LarkTable.ReadDefinition` | internal/httpapi/custom_tool_constraints.go:222-277 | the line reader builds the rule and import tables of the definition or fails, as the reading of its lines one by one does; what those tables are is said on the lines of the text by the `LarkLines` and `LarkImports` rows |
| `LarkLines.DefinitionIff` | internal/httpapi/custom_tool_constraints.go:227-271 | a definition is read exactly when each line is blank, a comment, a known import, an alternative after a rule or a rule, and some line defines `start` |
| `LarkLines.RulesAreWritten` | internal/httpapi/custom_tool_constraints.go:249-267 | the rules of the table are exactly those that a line of the text defines |
| `LarkLines.LinesAreAlternatives` | internal/httpapi/custom_tool_constraints.go:249-267 | a rule written as `n: e`, with lines below it that start with a bar and go on with `a1` to `ak`, each part an expression of its own, derives a span exactly when `e` or one of the `ai`, read by itself, does |
| `LarkLines.ReadsIffSpells` | internal/httpapi/custom_tool_constraints.go:388-403 | an expression is read as a tree exactly when its text without aliases spells that tree |
| `LarkLines.QuantifierMeans` | internal/httpapi/custom_tool_constraints.go:588-701 | each postfix sign is read as the repetition it stands for |
| `LarkImports.SingleRead` | internal/httpapi/custom_tool_constraints.go:285-297 | `%import common.NAME` brings in the pattern of that name, under its alias where one is given, and fails on an unknown name |
| `LarkImports.GroupRead` | internal/httpapi/custom_tool_constraints.go:299-317 | a group import brings in each of its names, or fails as a whole |
| `LarkImports.ImportsAreLast` | internal/httpapi/custom_tool_constraints.go:236-243 | a name stands for what the last import to bring it in says |
| `LarkImports.NamesResolve` | internal/httpapi/custom_tool_constraints.go:367-397 | an import goes before the built-in pattern of that name, and both before a rule |
| `LarkTable.TablesWellFormed` | internal/httpapi/custom_tool_constraints.go:222-365 | whatever is accepted has a start rule, identifiers as names, and imports that stand for built-in patterns only |
| `LarkTable.NoArrowNoAlias` | internal/httpapi/custom_tool_constraints.go:399-403 | alias stripping leaves a text without an arrow alone |
| `LarkAliases.StripsAlias` | internal/httpapi/custom_tool_constraints.go:399-403 | up to the first arrow nothing changes; an alias goes, with the white space before and inside it |
| `LarkAliases.KeepsArrow` | internal/httpapi/custom_tool_constraints.go:399-403 | an arrow that no name follows stays, with the white space before it |
| `LarkBuiltinTexts.PatternTexts` | internal/httpapi/custom_tool_constraints.go:345-365 | the names of the common library are exactly the nineteen, each with its pattern letter by letter |
| `LarkBuiltins.BuiltinsSelfContained` | internal/httpapi/custom_tool_constraints.go:345-365 | every built-in pattern is well formed and has no alternation outside its groups, so it can be pasted anywhere |
| `LarkSyntax.ParserDecidesGrammar` | internal/httpapi/custom_tool_constraints.go:588-701 | the recursive-descent parser accepts exactly the phrases of the expression grammar and gives each its one tree |
| `RegexText.PrintOfRead` | internal/httpapi/custom_tool_constraints.go:599-658 | an accepted expression text is the print-out of its precedence tree: reading drops and moves nothing |
| `RegexText.ReadOfPrint` | internal/httpapi/custom_tool_constraints.go:599-658 | printing a tree and reading it gives the tree back, for any nesting and stacked operators |
| `RegexMeaning.QuoteMetaMatches` | internal/httpapi/custom_tool_constraints.go:665-670 | a quoted string literal can be pasted and matches that literal only |
| `RegexMeaning.SafeToPasteIffSelfContained` | internal/httpapi/custom_tool_constraints.go:671-672 | pasting an unwrapped regex literal is harmless in every context exactly when it has no bar outside its groups |
| `RegexMeaning.QuotedBarUnsafe` | internal/httpapi/custom_tool_constraints.go:671-672 | any two literals with a bar between them are a regex literal whose pasting changes the meaning |
| `RegexMatch.AnchoredMatchesWhole` | internal/httpapi/custom_tool_constraints.go:74-109 | searching a value for the anchored, grouped expression text finds something exactly when the pattern matches the whole value |
| `RegexMatch.UngroupedLetsThrough` | internal/httpapi/custom_tool_constraints.go:74 | what the group is for: without it two literals with a bar between them let through values that only begin with the first |
| `RegexMatch.MatchesAreWords` | internal/httpapi/custom_tool_constraints.go:101-109 | without anchors and boundaries a span is matched exactly when the word it covers is matched by itself |
| `GoQuote.QuoteReadBack` | internal/httpapi/custom_tool_constraints.go:786-812 | what is printed as a quoted literal is read back as that literal, whatever its characters |
| `LarkMeaning.NameReads` | internal/httpapi/custom_tool_constraints.go:367-397 | the inlined text of a rule, read with the usual precedence, is the tree of the source expression |
| `LarkMeaning.InliningPreservesLanguage` | internal/httpapi/custom_tool_constraints.go:367-397 | the inlined expression matches a word exactly when the rule derives it, for all words and depths |
| `LarkMeaning.ExpandsIffAcyclic` | internal/httpapi/custom_tool_constraints.go:377-397 | inlining succeeds exactly when every path from the rule ends in a usable rule and none comes back to itself |
| `LarkMeaning.NameIndependent` | internal/httpapi/custom_tool_constraints.go:368-396 | a rule's expansion does not depend on the rules under way outside its closure, which makes the memo sound |
| `LarkRegexCompiler.Compiler.CompileRule` | internal/httpapi/custom_tool_constraints.go:367-397 | with any valid memo the result is the uncached inline expansion, the memo stays valid and the visiting set is restored |
| `LarkRegexCompiler.Parser.Parse` | internal/httpapi/custom_tool_constraints.go:588-597 | the compiling parser gives the expansion of the parsed tree, or fails where parsing or expanding does |
| `LarkRegexCompiler.Parser.ParseFactor` | internal/httpapi/custom_tool_constraints.go:638-658 | stacked postfix operators are each wrapped around the factor so far, and the position advances past the term |
| `LarkGrammarCompiler.Compiler.CompileRule` | internal/httpapi/custom_tool_constraints.go:180-212 | succeeds exactly when inlining would, defines the rule after all it refers to and never twice, and nothing that it does not reach |
| `LarkGrammarCompiler.Compiler.AddDefinition` | internal/httpapi/custom_tool_constraints.go:214-220 | a name is appended to the order exactly when it was new, and the order stays free of repetitions and forward references |
| `LarkGrammarCompiler.Compiler.Lines` | internal/httpapi/custom_tool_constraints.go:147-170 | the output lines are the start rule as `root`, then every other definition in order, each as the text that is printed |
| `LarkGrammarCompiler.Compiler.Emit` | internal/httpapi/custom_tool_constraints.go:147-170 | the emitted text is those lines joined |
| `LarkGrammarCompiler.Parser.ParsePrimary` | internal/httpapi/custom_tool_constraints.go:786-812 | emits the text of the primary, with all rules it names defined |
| `LarkGrammarText.PatternReadIff` | internal/httpapi/custom_tool_constraints.go:786-812 | a pattern text pasted into a grammar is read there as in a regular expression exactly when it has no letter, underscore, blank or quote outside classes and escapes |
| `LarkPrint.PrintedReadIff` | internal/httpapi/custom_tool_constraints.go:728-812 | the printed text of an expression is read as the names, literals and patterns that were meant exactly when all its patterns are plain in that sense |
| `LarkGrammar.ChoiceTreeReads` | internal/httpapi/custom_tool_constraints.go:728-784 | what is read, taken with the usual precedence, is the tree of the source expression |
| `LarkGrammar.QuantifiedPatternIff` | internal/httpapi/custom_tool_constraints.go:764-812 | a postfix operator behind a bare pattern applies to all of it exactly when the pattern is one factor |
| `LarkGrammar.Lockstep` | internal/httpapi/custom_tool_constraints.go:147-212 | printed lines and rule table derive the same words at every depth, for every listed rule |
| `LarkGrammar.GrammarPreservesLanguage` | internal/httpapi/custom_tool_constraints.go:147-212 | `root` of the printed lines generates exactly what `start` derives |
| `LarkGrammar.GrammarReadBack` | internal/httpapi/custom_tool_constraints.go:162-170 | the emitted text, split and read, gives its lines back |
| `LarkGrammar.TextPreservesLanguage` | internal/httpapi/custom_tool_constraints.go:147-212 | the emitted text, read as text, generates from `root` exactly what `start` derives |
| `LarkTableText.BuiltinPlainIff` | internal/httpapi/custom_tool_constraints.go:345-365 | of the built-in patterns exactly the quoted string is not plain |
| `LarkClashes.NamesCollide` | internal/httpapi/custom_tool_constraints.go:786-812 | `/f/ f` and `f f` print the same text and derive different words, in any two tables that look `f` up as a rule: no reader can be right for both |
| `LarkClashTexts.NamesCollideInText` | internal/httpapi/custom_tool_constraints.go:147-220 | the same for definition texts: both compile, one text is emitted for both, for every rule name but `start` and the built-in ones and every literal |
| `LarkClashes.BlanksCollide` | internal/httpapi/custom_tool_constraints.go:728-812 | so do one pattern with a blank in it and two patterns beside each other |
| `LarkClashTexts.BlanksCollideInText` | internal/httpapi/custom_tool_constraints.go:147-220 | the same for the definition texts with all words of letters, digits and underscores |
| `LarkClashes.StarredPatternDiffers` | internal/httpapi/custom_tool_constraints.go:764-784 | a starred pattern of two or more plain characters: the emitted text generates a word that `start` does not derive |
| `LarkClashTexts.StarredTextDiffers` | internal/httpapi/custom_tool_constraints.go:147-220 | the same for the definition texts with all patterns of two or more digits |
| `LarkGrammar.RootClash` | internal/httpapi/custom_tool_constraints.go:162-169 | the printed names are distinct exactly when no rule is called `root` |
| `LarkClashes.RootClashDiffers` | internal/httpapi/custom_tool_constraints.go:162-169 | a rule called `root`: the emitted text generates from `root` a word that `start` does not derive |
| `LarkClashTexts.RootTextDiffers` | internal/httpapi/custom_tool_constraints.go:147-220 | the same for definition texts, with any two literals |
| `LarkConstraint.CompileToRegex` | internal/httpapi/custom_tool_constraints.go:139-145 | computes the inline expansion of `start` over the definition's table |
| `LarkConstraint.CompileToGrammar` | internal/httpapi/custom_tool_constraints.go:147-170 | succeeds exactly when the regex back end does, with the text of an ordered list, `start` last, of exactly the names that `start` reaches |
| `LarkConstraint.CompileConstraint` | internal/httpapi/custom_tool_constraints.go:43-95 | succeeds exactly on a compilable definition within the byte limits whose anchored expression the engine accepts; the error return after the second compiler is unreachable |
| `LarkConstraint.CleanCompiles` | internal/httpapi/custom_tool_constraints.go:74-84 | where literals can be pasted, the anchored expression is well formed |
| `LarkConstraint.OpenGroupRefused` | internal/httpapi/custom_tool_constraints.go:81-84 | a literal of one open parenthesis makes it ill formed |
| `LarkConstraint.ImportPlainIff` | internal/httpapi/custom_tool_constraints.go:345-365 | an imported pattern is read as it was meant exactly when it is not that of the quoted string |
| `LarkConstraint.CompilesIffAcyclic` | internal/httpapi/custom_tool_constraints.go:139-145 | a definition compiles exactly when its table reads and what `start` reaches is usable and acyclic |
| `LarkConstraint.ValidatesIffDerives` | internal/httpapi/custom_tool_constraints.go:59-109 | where literals can be pasted, searching with the anchored expression accepts exactly what `start` derives |
| `LarkConstraint.GuardrailAgrees` | internal/httpapi/custom_tool_constraints.go:59-109 | searching with the anchored expression, derivation from `start` and generation from `root` of the emitted text accept the same values |
| `PatchLines.EveryLineSurvives` | internal/httpapi/custom_tool_input_repair.go:96-250 | each line comes out in its place, unchanged or with exactly one of five edits |
| `PatchCanonical.RepairIsCanonical` | internal/httpapi/custom_tool_input_repair.go:96-250 | for every input: no empty header, no bare section, no loose line in a hunk, and range headers at line starts |
| `PatchCanonical.OnlyHeadersFireAgain` | internal/httpapi/custom_tool_input_repair.go:96-250 | on canonical lines only the range-header pass acts, and it leaves canonical lines |
| `PatchCanonical.LinesIdempotentIff` | internal/httpapi/custom_tool_input_repair.go:111-144 | a second run of the line passes changes nothing exactly when no line is a doubled range header |
| `PatchEnvelopes.CountGuardRedundant` | internal/httpapi/custom_tool_input_repair.go:55-60 | whenever the scan would merge, the marker count in front of it lets it through |
| `PatchEnvelopes.MergeKeepsBodies` | internal/httpapi/custom_tool_input_repair.go:55-94 | merging happens exactly on two or more envelopes with only blanks around, and keeps all body lines in order |
| `PatchStable.NeverNewlyMergeable` | internal/httpapi/custom_tool_input_repair.go:10-36 | the line passes never make a text mergeable that was not |
| `PatchStable.MergedOnce` | internal/httpapi/custom_tool_input_repair.go:55-94 | a merged text is never merged again |
| `PatchRepair.RepairSettles` | internal/httpapi/custom_tool_input_repair.go:10-36 | every output is canonical and unmergeable, and its lines are those of the passes |
| `PatchRepair.NothingLost` | internal/httpapi/custom_tool_input_repair.go:10-36 | every line that reaches the passes comes out in its place with at most one edit |
| `PatchRepair.SettledStep` | internal/httpapi/custom_tool_input_repair.go:10-36 | after one run only headers change, each further change strictly shortens the text |
| `PatchRepair.RepairConverges` | internal/httpapi/custom_tool_input_repair.go:10-36 | repeating the repair reaches a fixed point within one run more than the first output is long |
| `PatchRepair.RepairIdempotentIff` | internal/httpapi/custom_tool_input_repair.go:10-36 | repairing twice is repairing once exactly when no input line is a doubled range header |
| `PatchDouble.DoubleIff` | internal/httpapi/custom_tool_input_repair.go:128-144 | a doubled range header, on its fields: ranges and a closing mark at positions 0 to 2 and again at 3 to 5 |
| `PatchDouble.RepairIdempotentOnFields` | internal/httpapi/custom_tool_input_repair.go:10-36 | repairing twice is repairing once exactly when no input line has those fields |
| `PatchDouble.DoubleHeaderFails` | internal/httpapi/custom_tool_input_repair.go:128-144 | any range header in front of another one takes two repairs |
| `PatchDouble.DoubleHeaderExample` | internal/httpapi/custom_tool_input_repair.go:128-144 | the header with ranges 1 and then 2 is such an input |
| `PatchRepair.ChangesIffDefective` | internal/httpapi/custom_tool_input_repair.go:10-36 | the text changes exactly when one of the five defects is present in the input |
| `PatchPasses.RepairRepeatedEnvelopes` | internal/httpapi/custom_tool_input_repair.go:55-94 | the scanning loop merges exactly what the envelope grammar says, or returns nothing |
| `PatchPasses.RepairEmptyHunkHeaders` | internal/httpapi/custom_tool_input_repair.go:96-109 | the in-place loop computes the pass, and reports a change exactly when a line changes |
| `PatchPasses.RepairUnifiedDiffHunkHeaders` | internal/httpapi/custom_tool_input_repair.go:111-126 | the in-place loop computes the pass, and reports a change exactly when a line changes |
| `PatchPasses.IsUnifiedDiffRange` | internal/httpapi/custom_tool_input_repair.go:146-163 | the character loop accepts exactly a sign, digits, and optionally a comma and digits |
| `PatchPasses.RepairUnprefixedWholeFileHunks` | internal/httpapi/custom_tool_input_repair.go:165-207 | the nested loops prefix exactly the bodies of bare sections and turn their Update headers into Add |
| `PatchPasses.RepairUnprefixedContextLines` | internal/httpapi/custom_tool_input_repair.go:218-250 | the flagged loop prefixes exactly the loose lines of hunks |
| `PatchPasses.RepairInput` | internal/httpapi/custom_tool_input_repair.go:10-36 | the pipeline computes the repair, only for apply_patch, and `changed` holds exactly on defective input |
| `PatchEdits.WhichEdit` | internal/httpapi/custom_tool_input_repair.go:10-36 | which edit each line gets, said on sections, hunks and markers of the lines that come in: what it becomes, and that no other line changes |
| `StreamCapture.Capture.CaptureLine` | internal/httpapi/chat_completion_stream_store.go:58-81 | one line moves the capture as its event does; nothing moves after an error |
| `StreamCapture.Capture.CaptureChunk` | internal/httpapi/chat_completion_stream_store.go:168-260 | the nested loops run exactly the chunk's edits, stopping at the first that exceeds the budget; what the edits amount to is said on the chunks by `StreamMarks` and `StreamResolve` |
| `StreamCapture.Capture.WriteString` | internal/httpapi/chat_completion_stream_store.go:262-273 | a fragment is counted in bytes and written, or the error is set and nothing written |
| `StreamAssembly.RunAssembles` | internal/httpapi/chat_completion_stream_store.go:168-286 | after any edits without error each choice is the fold of its own edits, independent of all others |
| `StreamAssembly.ChoiceIsItsFragments` | internal/httpapi/chat_completion_stream_store.go:168-260 | texts are concatenations in order, other members the last value, tool calls likewise per index |
| `StreamResolve.TextsAreConcatenations` | internal/httpapi/chat_completion_stream_store.go:168-260 | for every stream without error each text of each choice and tool call is the concatenation of the fragments for its index, where a tool call without one counts for the number of indexes seen before it |
| `StreamResolve.KeysAreSeen` | internal/httpapi/chat_completion_stream_store.go:234-246 | the tool calls captured for a choice are exactly the indexes seen for it |
| `StreamResolve.ResolvingChangesNothing` | internal/httpapi/chat_completion_stream_store.go:234-246 | writing those indexes into the stream leaves the capture as it is |
| `StreamMarks.HeadersAreLast` | internal/httpapi/chat_completion_stream_store.go:168-186 | for every stream without error id, model, creation time, fingerprint, service tier and usage are the last values that a chunk carries, blank and missing ones not counting |
| `StreamMarks.MarksAreLast` | internal/httpapi/chat_completion_stream_store.go:188-260 | likewise role, finish reason and log probabilities of each choice, id and kind of each tool call, and whether there is a function call at all |
| `StreamMarks.ChoicesAreCarried` | internal/httpapi/chat_completion_stream_store.go:188-201 | the choices captured are those that a chunk has a part of, a part without an index counting for choice 0; the end is seen exactly where it was sent |
| `StreamBudget.FreshIsAccounted` | internal/httpapi/chat_completion_stream_store.go:51-56 | the byte counter of a new capture is what its builders hold |
| `StreamBudget.EventsAccounted` | internal/httpapi/chat_completion_stream_store.go:262-273 | in every reachable state the counter is the length of all builders together and within the limit |
| `StreamBudget.FailsIffTooLarge` | internal/httpapi/chat_completion_stream_store.go:58-81 | absent decode errors the capture fails exactly when all fragments together exceed the limit |
| `StreamBudget.FineIff` | internal/httpapi/chat_completion_stream_store.go:58-81 | with decode errors too: a capture is without error exactly when every line decodes and all fragments together stay within the limit |
| `StreamBudget.EventsAfterError` | internal/httpapi/chat_completion_stream_store.go:58-81 | once set, an error is final and no later line changes anything |
| `StreamReorder.ChunksSwap` | internal/httpapi/chat_completion_stream_store.go:168-260 | neighbouring chunks for different choices with the same metadata may be swapped, also without tool indexes and beyond the budget: both fail or both end the same |
| `StreamReorder.StreamSwap` | internal/httpapi/chat_completion_stream_store.go:58-81 | the same inside any stream |
| `StreamAppend.EventsCarry` | internal/httpapi/chat_completion_stream_store.go:58-81 | appending to a text commutes with any events that carry nothing for it |
| `StreamSplit.StreamSplit` | internal/httpapi/chat_completion_stream_store.go:58-81 | in any stream a chunk with `s + t` for one text may become the chunk with `s` and, after events that carry nothing for that text, a chunk with `t` that repeats the metadata in force or has none: both fail or both end in the same state |
| `StreamResponse.SortedIndexes` | internal/httpapi/chat_completion_stream_store.go:288-295 | the keys come out strictly increasing, all of them and nothing else |
| `StreamResponse.ListsUnique` | internal/httpapi/chat_completion_stream_store.go:288-295 | that list does not depend on the order in which the map yields its keys |
| `StreamResponse.ReconstructToolCalls` | internal/httpapi/chat_completion_stream_store.go:368-391 | tool calls come out by increasing index, each with its captured members and defaults |
| `StreamResponse.ReconstructChoices` | internal/httpapi/chat_completion_stream_store.go:288-315 | choices come out strictly sorted by index, exactly the captured ones, each showing what was captured |
| `StreamResponse.ShownUnique` | internal/httpapi/chat_completion_stream_store.go:288-332 | what is shown of a choice is determined by what was captured |
| `StreamResponse.ReconstructResponse` | internal/httpapi/chat_completion_stream_store.go:83-166 | a response is built exactly from a complete, error-free capture and a readable request, with all that was captured in it, the optional members exactly where they hold something |
| `StreamResponse.RebuiltUnique` | internal/httpapi/chat_completion_stream_store.go:83-166 | it is determined by capture and request |
| `StreamResult.ResponseTellsStream` | internal/httpapi/chat_completion_stream_store.go:83-166 | for every stream: when there is a response, and every field of it and of its choices and tool calls, in terms of the fields of the chunks |
| `StreamResult.FramedLine` | internal/httpapi/chat_completion_stream_store.go:58-81 | white space around a payload does not matter, and a line with another field name does nothing |
| `StreamResponse.SwapRebuilds` | internal/httpapi/chat_completion_stream_store.go:83-166 | swapping chunks of different choices does not change it |
| `StreamResponse.SplitRebuilds` | internal/httpapi/chat_completion_stream_store.go:83-166 | cutting a fragment, the rest arriving later, does not change it |
| `CompactionItems.TrimItemsBeforeLatestCompaction` | internal/domain/compaction.go:130-145 | the scanning loop computes the trim |
| `CompactionItems.TrimIsLongestSuffix` | internal/domain/compaction.go:130-145 | the result is the longest suffix with a compaction at most at its head |
| `CompactionItems.TrimTwice` | internal/domain/compaction.go:130-145 | trimming is idempotent |
| `CompactionItems.TrimForgets` | internal/domain/compaction.go:130-145 | what precedes a list with a compaction does not matter |
| `CompactionItems.ExpandSyntheticCompactionItems` | internal/domain/compaction.go:98-128 | the loop computes the expansion, errors included |
| `CompactionItems.ExpandConcat` | internal/domain/compaction.go:98-128 | expansion distributes over concatenation, errors included |
| `CompactionItems.ExpandsIff` | internal/domain/compaction.go:98-128 | expansion succeeds exactly when every compaction decodes and all it retains is well formed |
| `CompactionItems.PlainSurvive` | internal/domain/compaction.go:98-128 | items that are no compactions survive in their order |
| `CompactionItems.ExpandedPayload` | internal/domain/compaction.go:280-290 | the loop gives the message with the rendered text, or an empty item where its quoted form is no JSON, and then the retained items; or it fails on a malformed one |
| `CompactionItems.RetainRecent` | internal/compactor/compactor.go:372-381 | the last items, as many as the limit allows |
| `CompactionItems.StructuredSucceedsIff` | internal/compactor/compactor.go:197-229 | a structured result fails exactly when an empty item is retained, which is written as `null` and not read again; else it expands to the item for its rendered state followed by what it retains |
| `CompactionItems.UnquotableIsNull` | internal/domain/normalize.go:85-88 | a message is that empty item exactly when Go quotes its role or text in a way JSON does not read |
| `CompactionItems.UnquotableInputFails` | internal/domain/context_builder.go:27-37 | an input or instruction with such a text makes the structured result fail as long as it is among the retained items |
| `CompactionItems.EscapeInputFails` | internal/domain/normalize.go:32-38 | a string input with an escape character in it is such an input |
| `CompactionItems.CompactSucceeds` | internal/compactor/compactor.go:118-164 | compaction as a whole never fails: it falls back to the summary exactly when there is no state or an empty item would be retained |
| `CompactionItems.ResultCarries` | internal/compactor/compactor.go:117-229 | the item of a result carries the number of all items, how it was made and the summary or a fixed phrase; the output is that item, or what was retained and last an item that says the same but retains nothing |
| `CompactionItems.OutputTrimmed` | internal/compactor/compactor.go:197-229 | the compaction comes last in the output, so that a later trimming drops what was retained |
| `CompactionItems.HeuristicSucceeds` | internal/compactor/compactor.go:118-132 | the fallback expands to the item for its summary |
| `CompactionItems.TextShownIff` | internal/domain/normalize.go:85-88 | where it succeeds, the expansion shows the rendered text exactly when Go and JSON quote all its characters alike |
| `CompactionItems.TextSections` | internal/compactor/compactor.go:197-229 | the lists of a state of one-line entries are found in the text of its result, each under its own title and in order |
| `CompactionItems.TextLost` | internal/domain/normalize.go:85-88 | any other character in the summary loses the whole text, and the result does not fail for it |
| `CompactionItems.EscapeLosesText` | internal/domain/normalize.go:85-88 | the escape character between any two words is such a character |
| `JsonQuote.JsonReadsIff` | internal/domain/normalize.go:85-88 | a text that Go quoted is a JSON string exactly when it has no character quoted in a way of its own, and then it is read back |
| `CompactionItems.ItemAndOutputAgreeIff` | internal/compactor/compactor.go:197-229 | where it succeeds, item and output expand to the same things up to ids exactly when no retained item is a compaction |
| `CompactionItems.RetainedCompactionDiffers` | internal/compactor/compactor.go:197-229 | one retained compaction, even an empty one, makes them differ |
| `CompactionState.CleanTwice` | internal/domain/compaction.go:457-469 | trimming and truncating what was trimmed and truncated changes nothing, for any limit |
| `CompactionState.NormalizedList` | internal/domain/compaction.go:358-371 | the bounded loop keeps the first entries that are not blank, trimmed and truncated |
| `CompactionState.NormalListIff` | internal/domain/compaction.go:358-371 | a list is left alone exactly when it is short enough and its entries are trimmed, short and not blank |
| `CompactionState.NormalizeKeeps` | internal/domain/compaction.go:358-371 | of entries that are not blank the first are kept, as many as there may be, in order, each trimmed and cut |
| `CompactionState.NormalizeSkips` | internal/domain/compaction.go:358-371 | a blank entry changes nothing |
| `CompactionState.NormalStateIff` | internal/domain/compaction.go:348-356 | a state is left alone exactly when its summary has at most 4096 runes and its four lists are normal, of at most 16 entries and 512 runes |
| `CompactionState.EmptyIffBlank` | internal/domain/compaction.go:373-379 | a state is not stored exactly when nothing in it is more than white space |
| `CompactionState.TruncatedIs` | internal/domain/compaction.go:457-469 | what is short enough stays; of a longer text as much is kept as leaves room for an ellipsis |
| `CompactionState.NormalizeTwice` | internal/domain/compaction.go:348-356 | normalising a state twice is normalising it once |
| `CompactionState.EncodeDecode` | internal/domain/compaction.go:67-88 | decoding what was encoded gives it back, and that is the summary, count, mode, retained items and normalised state that were given |
| `CompactionState.DecodeSettles` | internal/domain/compaction.go:255-278 | only the version can fail decoding; it trims the summary, normalises the state, keeps the rest, and is settled after one time |
| `CompactionState.RenderNormalized` | internal/domain/compaction.go:292-313 | rendering sees only the normalised state, also where normalising empties it |
| `CompactionState.RoundTripRenders` | internal/domain/compaction.go:67-88 | a state encoded, decoded and rendered shows what rendering the given state shows |
| `CompactionSections.RenderedSections` | internal/domain/compaction.go:292-331 | the rendered text of a state of one-line entries, read by lines, has the heading, then the summary of the state, else of the payload, else the fixed phrase, and each list under its own title, entries in order |
| `CompactionSections.RenderedSummary` | internal/domain/compaction.go:247-313 | a payload without a state is rendered as the heading and its summary, or the fixed phrase where that is blank |
| `CompactionState.WrittenList` | internal/domain/compaction.go:315-331 | the list writer appends a titled section, and nothing for an empty list |
| `CompactionState.EntriesShown` | internal/domain/compaction.go:315-331 | every entry of a normalised list is shown on a line of its own |
| `CompactionText.BuildSyntheticCompactionSummary` | internal/domain/compaction.go:147-169 | the joined first sixteen lines, never more than 3855 runes |
| `CompactionText.SummaryShows` | internal/domain/compaction.go:147-169 | of items with something to show the first sixteen are shown, in order, each cut to 240 runes |
| `CompactionText.SummarySkips` | internal/domain/compaction.go:147-169 | an item with nothing to show changes nothing |
| `CompactionText.SummaryFits` | internal/domain/compaction.go:147-169 | sixteen lines of 240 runes stay below 4096, so the outer truncation cuts nothing |
| `CompactionText.BuildSyntheticCompactionTranscript` | internal/domain/compaction.go:171-204 | always shorter than the bound: the whole transcript where it fits, and otherwise the whole one cut at the bound |
| `CompactionText.TranscriptShows` | internal/domain/compaction.go:171-204 | the whole transcript has one line for each of the first items that is not blank, in order, after its place counted from one |
| `CompactionText.PaddedIs` | internal/domain/compaction.go:187 | the place is written in decimal, with leading zeros exactly up to three digits |
| `EvalRunner.RunTask` | internal/codexeval/runner.go:330-363 | for every outcome of attempts: failures and then at most one pass; passed exactly when some allowed attempt passes |
| `EvalRunner.AttemptsFor` | internal/codexeval/manifest.go:207-215 | the override goes before the manifest, and either counts only where it is positive |
| `EvalRunner.Summarize` | internal/codexeval/runner.go:66-88 | status and bucket counts are those of its results, and the run is good exactly when every task passed |
| `EvalRunner.SummaryCounts` | internal/codexeval/runner.go:60-89 | each count is the number of tasks with that status, or with that failure bucket |
| `EvalRunner.RetryDependent` | internal/codexeval/compare.go:368-383 | true exactly when a failure precedes the first pass of a passed task |
| `EvalRunner.MatrixRetryCount` | internal/codexeval/matrix.go:140-154 | the nested loops count the passed tasks with a failed attempt |
| `EvalRunner.RetriesCoincide` | internal/codexeval/runner.go:348-359 | on runner-made results the three tests for a retry agree |
| `EvalRunner.RetriesAgreeIff` | internal/codexeval/matrix.go:140-154 | on any stored result two of them agree unless it passed with a failed attempt while the first attempt passed or none did |
| `EvalRunner.LateAgreesIff` | internal/codexeval/auto_report.go:259 | on any stored result, exactly when the third agrees with either |
| `EvalRunner.RetriesDiffer` | internal/codexeval/auto_report.go:259 | a pass followed by a failure, and a failure alone, tell them apart |
| `EvalCompare.TaskResultById` | internal/codexeval/compare.go:336-344 | every non-empty id with its last result |
| `EvalCompare.CompareTaskIds` | internal/codexeval/compare.go:346-366 | control ids as first seen, then the other candidate ids sorted |
| `EvalCompare.CompareIdsCover` | internal/codexeval/compare.go:346-366 | every id of either run is compared exactly once |
| `EvalCompare.LastById` | internal/codexeval/compare.go:336-344 | an id that occurs several times stands for its last result |
| `EvalCompare.CompareIdsOrder` | internal/codexeval/compare.go:346-366 | the ids of the control come first, as they first occur, then the candidate's other ids, sorted |
| `EvalCompare.RunRefSays` | internal/codexeval/compare.go:316-334 | of a run its id, how many of its tasks passed and how many there are |
| `EvalCompare.DiagnosisBlames` | internal/codexeval/compare.go:272-314 | a failure is blamed on exactly one class: by its bucket, for a timeout by the buckets of its attempts, and otherwise by its status |
| `EvalCompare.CompareCandidate` | internal/codexeval/compare.go:200-222 | the loop files each row under tasks or coverage and counts its diagnosis |
| `EvalLedger.CountsConserved` | internal/codexeval/compare.go:200-238 | a candidate's counts add up to its distinct non-empty task ids |
| `EvalLedger.EachCount` | internal/codexeval/compare.go:200-238 | for any control and candidate each count is the number of ids whose results deserve that diagnosis |
| `EvalLedger.RowsSay` | internal/codexeval/compare.go:240-270 | every row shows what the two runs hold under its id, with the diagnosis they deserve |
| `EvalLedger.RowsPartition` | internal/codexeval/compare.go:200-222 | tasks are the shared ids and coverage the rest of the union, each listed once |
| `EvalLedger.RetryCount` | internal/codexeval/compare.go:200-238 | what the comparison counts as retried: the retried candidate tasks whose control is absent or passed |
| `EvalLedger.MatrixAgreesIff` | internal/codexeval/matrix.go:140-154 | for any control and candidate the comparison counts no more retries than the matrix, and as many exactly when each of the matrix's has an id of its own, is retried in the comparison's sense and has no failed control |
| `EvalLedger.MatrixAgrees` | internal/codexeval/matrix.go:140-154 | so they agree on what the runner made, against a control that passed |
| `EvalLedger.BuildCompareReport` | internal/codexeval/compare.go:59-85 | fails exactly without candidates; the report's counts are those of all candidates together |
| `EvalLedger.ReportConserved` | internal/codexeval/compare.go:77-83 | the report's counts add up to the distinct ids of all candidates |
| `EvalProfile.LoadAutoProfile` | internal/codexeval/auto_report.go:184-270 | the nested loops: passed means finished runs and no failed finding, clean also no retry listed or counted |
| `EvalProfile.FindingsTold` | internal/codexeval/auto_report.go:205-262 | the findings of a verdict are exactly the rows that fail, were retried or only tell of coverage, each with the run, task, status, bucket and attempts of its row |
| `EvalProfile.KeyOrder` | internal/codexeval/auto_report.go:300-311 | the baseline profile comes first, then the expanded one, then the short benchmark, then the others by name |
| `EvalProfile.BuildAutoReport` | internal/codexeval/auto_report.go:60-86 | fails exactly without paths or on one that does not load; else the profiles come stably sorted by key, the report passes exactly when every profile does, and its counts are the sums |
| `EvalProfile.ShouldFail` | internal/codexeval/auto_report.go:147-169 | which profiles each strictness looks at |
| `EvalAudit.StoredPassesIff` | internal/codexeval/auto_report.go:197-269 | for any stored summaries: a profile passes exactly when the stored counts say that all tasks of every run passed and the tasks both runs have passed in both |
| `EvalAudit.ProfilePassesIff` | internal/codexeval/auto_report.go:197-269 | where the counts are those of the results: exactly when every task of control and candidates passed |
| `EvalAudit.MiscountedPasses` | internal/codexeval/auto_report.go:197-269 | counts that are not those of the results: without a common task the profile passes whatever the results |
| `EvalAudit.CoverageNeverFails` | internal/codexeval/auto_report.go:241-264 | the failing branch for coverage rows is never taken on a built report |
| `EvalAudit.RetryListIff` | internal/codexeval/auto_report.go:230-268 | the retry list is as long as the count exactly when no retry went unnoticed; clean is passed with an empty list |
| `EvalAudit.RunnerProfile` | internal/codexeval/auto_report.go:197-269 | for runner-made runs the list has the counted length, and clean is passed with zero retries |
| `EvalAudit.UnnoticedExample` | internal/codexeval/auto_report.go:259 | a stored summary whose retry is listed and not counted |
| `TraceStore.DebugTraceStore.Begin` | internal/httpapi/debug_trace.go:154-183 | stores the trace, queues its id and evicts the oldest; a blank id does nothing |
| `TraceStore.DebugTraceStore.List` | internal/httpapi/debug_trace.go:211-227 | the stored traces newest first, up to the effective limit |
| `TraceStore.DebugTraceStore.Update` | internal/httpapi/debug_trace.go:229-241 | changes the stored trace of a handle, and nothing when it is not stored |
| `TraceStore.RunValid` | internal/httpapi/debug_trace.go:154-241 | over every run the queue stays within its maximum and every stored key is queued |
| `TraceStore.QueueIsLatest` | internal/httpapi/debug_trace.go:173-181 | the queue holds the most recently begun ids, repeated or not |
| `TraceStore.StoredIff` | internal/httpapi/debug_trace.go:173-181 | for every run, exactly which ids are stored |
| `TraceStore.FreshIdsStored` | internal/httpapi/debug_trace.go:173-181 | with fresh ids exactly the most recently begun traces are stored |
| `TraceStore.StoredValue` | internal/httpapi/debug_trace.go:154-241 | what is stored is the last begun trace of the id with the updates since |
| `TraceStore.FreshIdsListed` | internal/httpapi/debug_trace.go:211-227 | with fresh ids a listing is the latest traces, newest first: as many as asked for, or twenty where the limit is not positive or beyond the capacity, and never more than the store holds, 256 by default |
| `TraceStore.EvictedUpdateIgnored` | internal/httpapi/debug_trace.go:229-241 | updating an evicted trace changes nothing, and no update changes queue or keys |
| `TraceStore.BeginKeepsIff` | internal/httpapi/debug_trace.go:173-181 | a begun trace is stored exactly when it does not evict an earlier one of its own id |
| `TraceStore.RepeatedIdLost` | internal/httpapi/debug_trace.go:173-181 | a repeated id that a store of one entry forgets |
| `TraceTransforms.NormalizeHookNames` | internal/upstreamcompat/chat_completions.go:359-378 | trimmed names without blanks or repetitions, sorted |
| `TraceTransforms.NamesIff` | internal/upstreamcompat/chat_completions.go:359-378 | a list is left alone exactly when it is sorted, distinct, trimmed and without blanks |
| `TraceTransforms.NamesGiven` | internal/upstreamcompat/chat_completions.go:359-378 | the names are those given but for white space around them, blank ones left out |
| `TraceTransforms.AppendTransformOnce` | internal/httpapi/debug_trace.go:441-481 | appends the cleaned transform unless an equal one is there or stage or class is blank |
| `TraceTransforms.SameIff` | internal/httpapi/debug_trace.go:461-481 | two transforms are the same exactly when stage, class, hook and decision agree but for white space, and their fields have the same names |
| `TraceTransforms.RecordedIff` | internal/httpapi/debug_trace.go:441-459 | a transform is recorded exactly when it has a stage and a class and none like it is there |
| `TraceTransforms.AppendTwice` | internal/httpapi/debug_trace.go:441-459 | recording a transform again changes nothing |
| `TraceTransforms.AppendedAreUnique` | internal/httpapi/debug_trace.go:441-459 | a recorded list holds each clean transform once, at its first occurrence |

## Left out

- Go's regexp engine and vLLM's decoder: the meaning of expression text is defined here by precedence, concatenation,
  union, repetition and anchors. Classes and escapes are units whose languages are a parameter. Flags, named groups,
  octal escapes, quoting by `\Q` and a bracket inside a class have no tree here; a text with them is read as an error.
- The reader of the emitted grammar takes a maximal identifier for a name, a quoted string for a literal, white space
  for a separator and the rest for pattern units, since vLLM's own reader is not part of the repository.
- LarkConstraint.GuardrailAgrees: asks that regex literals have no bar outside groups, are plain, are quantified only
  where they are one factor, and that no rule is called `root`; the exact role of each condition is stated by the
  lemmas above.
- LarkConstraint.CompileConstraint: covers the Lark syntax; with the regex syntax the pattern is the definition itself
  and there is no grammar. What the engine accepts is a parameter.
- LarkLines.LinesAreAlternatives: asks that each line is an expression of its own; a group that opens on one line and
  closes on another is an expression only of the whole rule. A name that an import or a built-in takes is not a rule.
- LarkLexer.ReadToken: letters and digits in identifiers are those of ASCII, where the source takes Unicode classes.
- LarkLexer.Tokenize: steps through characters where the source steps through bytes, so that characters outside ASCII
  and outside literals are read differently.
- Decoding of string literals (Go's strconv.Unquote) and which characters Go's quoting prints as they are: parameters.
- StreamCapture.Capture.CaptureLine: the JSON decoder of a chunk is a parameter.
- StreamReorder.ChunksSwap: asks for equal metadata, since the last chunk's wins.
- StreamSplit.StreamSplit: asks that the chunk itself has no further fragment for the text behind the one that is cut,
  since that one would come between the halves.
- StreamResponse.ReconstructResponse: the members that are copied from the request as they are (tool choice, sampling
  numbers, tools, response format, user, seed), and JSON encoding.
- JsonQuote.JsonReadsIff: the JSON reader knows the escapes that quoting writes; surrogate pairs and upper-case
  hexadecimal digits do not occur there.
- CompactionSections.RenderedSections: asks that entries are of one line; an entry with a line break in it can look
  like a title.
- JSON and base64url of compaction payloads: a payload is a datatype, and content that does not decode is `None`.
- The one-line description of an item in summaries and transcripts is a parameter.
- CompactionItems.StructuredSucceedsIff: the two fresh item ids are parameters, and that making them can fail is left
  out.
- CompactionItems.CompactSucceeds: the model's answer, the heuristic summary and the ids are parameters; a cancelled
  context is left out.
- Model calls, prompts and parsing of the compactor model's answer.
- Sorting of loaded candidate summaries by start time, file loading, and the Markdown reports.
- EvalProfile.BuildAutoReport: what each path loads is a parameter.
- EvalRunner.RunTask: the outcome of each attempt is a parameter; artifacts, durations and quarantine matching are not
  modelled.
- The trace store's lock: each method is one step. The recorded metadata is a map, and traces are values, which stands
  for the copies that Get and List make.
- Routing, storage, the HTTP handlers, retrieval, plugins and the other parts of the repository.
