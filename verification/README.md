# A verified model of MobileAG's analysis core

MobileAG reviews mobile applications without running them. This project models the parts of its
analysis package whose correctness is hardest to see from the code, and proves what they are for:

- **The evaluator** (`Matching.dfy`, `Evaluation.dfy`). Expected and observed findings form a bipartite graph. An
  augmenting-path search over a mutable owner map decides how many expectations count as found. The number is the size of
  a largest matching, for every iteration order, and the split by weakness class is the largest matching of that class.
- **The Smali taint engine** (`Descriptors.dfy`, `RegisterState.dfy`, `Transfer.dfy`, `TransferFrame.dfy`, `Distributivity.dfy`, `RegisterFlow.dfy`,
  `Termination.dfy`, `ReachingWrites.dfy`, `DefUse.dfy`, `SummaryTables.dfy`, `TaintChains.dfy`, `Interprocedural.dfy`). A worklist
  propagates traces over registers inside a method, a second one propagates argument, field and return facts between methods.
  What both find is tied to chains of definitions and uses that are defined without the transfer function.
- **Call paths** (`CallPaths.dfy`). A bounded breadth-first search from methods that call a source to methods that call a sink.
- **Codecs** (`JniNames.dfy`, `LittleEndian.dfy`, `SigningBlock.dfy`). JNI symbol names (JNI Specification, chapter 2,
  "Resolving Native Method Names"), and the APK Signing Block with its nested signers (Android "APK Signature Scheme v2").
- **Mach-O** (`MachO.dfy`, `MachOParser.dfy`, `SwiftMetadata.dfy`, `SwiftFields.dfy`, `SwiftInventory.dfy`, `SwiftLayout.dfy`,
  `SwiftFieldLayout.dfy`, `MachOFile.dfy`). The 64-bit parser in both byte orders: load commands, sections, imported libraries, symbols,
  and Swift names reached by chasing relative offsets taken from the file. The last three describe the bytes as they are written;
  what the parser reads is what is so written.
- **Lexers** (`CallSplitters.dfy`, `CommentMasks.dfy`, `CommentGrammar.dfy`, `LineNumbers.dfy`). Two argument splitters measured against
  one grammar of bracketed text, three comment maskers measured against one tokeniser and a grammar of nested comments and
  literals, and incremental line counters.
- **Traversal** (`Traversal.dfy`). Budgeted reading of a directory tree.

Code that updates state is a class with `modifies` clauses or a method with a loop, proved against specification functions;
the properties are lemmas about those functions. Predicates that a method only carries along are wrapped in functions that
return a predicate, so that the verifier opens them in the lemmas about them and nowhere else.

## Where the code and its purpose part

- `build_graph` unpacks six results per method, but the analysis of a method without instructions returns two
  (`mobileag/analysis/call_graph.py:766-767`, `549`), so it raises. The worklist is first-in-first-out, so
  `Interprocedural.Engine.BuildFlows` raises if and only if such a method is among the first 100000 of the order;
  `Interprocedural.AbstractMethodRaises` is one abstract method that makes it raise.
- Four transfer functions are not monotone: the fallback of an array read and three guarded constructors.
  `Distributivity.MonotoneExactlyUnguarded` says exactly which operands are affected. The post-fixpoint, termination and closure
  hold for every program, and so does `DefUse.StepCarriesExactly`; the statements about all paths are for programs without those
  forms, those about chains that the forms cannot hide (`TaintChains.FirmChainIsReported`) again for every program.
- The call-path search looks at its cap of 1000 findings between methods only and says nothing when the last walk reaches it.
  It is sure to find everything, and stays below the cap, if and only if no start has more than 10000 methods within the
  depth and there are fewer than 1000 triples of a start, a method within its depth and a sink (`CallPaths.Fits`).
  `CallPaths.LosesUnmarkedExactly` says when a loss is not marked where no method calls more than one sink,
  `CallPaths.MissesByCount` bounds it from both sides for any number of sinks, and
  `CallPaths.FanLosesUnmarked` is a call graph in which a sink one call away is lost without a mark.
- A class name of section 4.3.3 of the Java Virtual Machine Specification may hold a closing parenthesis. The parameter list is
  cut off there and then rejected (`Descriptors.DescriptorRoundTrip`); the patterns that recognise signatures
  (`mobileag/analysis/call_graph.py:854`, `1279-1280`) do not let one through.
- A JNI name is recovered exactly when it is `Recoverable`; a method whose name starts with an underscore is legal and is not.
- A pair in the signing block only has to end before the central directory, not before the end of the pair area.
  `SigningBlock.LooseBoundExactly` says when that makes a difference; in the files of `SigningBlock.ReadsIntoFooter` the
  block is accepted and the value of its pair is read from the size and the magic behind the pair area.
- The test for an empty class or method name in the JNI decoder never applies (`JniNames.SplitsExactly`).
- The counting argument splitter accepts calls whose brackets do not match (`CallSplitters.CountingIsLaxer`).

## Model

| member | source | states |
|---|---|---|
| Matching.MaxMatchingIsMaximum | mobileag/analysis/evaluation.py:179-182 | the reference number is attained by a matching and bounds every matching, without mention of an order |
| Matching.CertificateIsMaximum | mobileag/analysis/evaluation.py:196-210 | the closed sets left by failed searches prove that no matching is larger |
| Matching.LargestHasMaximumSize | mobileag/analysis/evaluation.py:209-212 | a largest matching has the reference size, and as many owners as owned items |
| Matching.CandidateTaken | mobileag/analysis/evaluation.py:197-204 | giving a candidate to an expectation after its owner moved on restores injectivity and adds exactly one |
| Matching.FrozenUntouched | mobileag/analysis/evaluation.py:196-205 | a successful search never touches a closed set, so what failed once stays unmatched |
| Matching.LargestInEveryPart | mobileag/analysis/evaluation.py:230-234 | a largest matching is largest in every part of the graph that no other edge enters |
| Evaluation.Matcher.Assign | mobileag/analysis/evaluation.py:196-205 | success augments the matching by one; failure changes nothing and leaves a closed set of seen items |
| Evaluation.Matcher.MatchAll | mobileag/analysis/evaluation.py:207-210 | the loop ends with a largest matching, whatever the orders |
| Evaluation.EvaluateCase | mobileag/analysis/evaluation.py:178-214 | true and false positives, misses, duplicates and the matched items of every class are those of a largest matching; said without the graph, the hits are as many pairs of reports and different expectations as there can be, where filling an expectation's blanks from its report gives the report, and without blanks they are the common items of two sets |
| Evaluation.OneReport | mobileag/analysis/evaluation.py:186-190 | one report counts for one expectation if and only if it is the expectation with its blanks filled in: weakness, both files and the sink line always agree |
| Evaluation.BlanksMatchAnything | mobileag/analysis/evaluation.py:186-190 | each of the seven optional fields, left blank, is matched exactly as if it had the report's value; with all of them given only the same item matches |
| Evaluation.PreciseCounts | mobileag/analysis/evaluation.py:178-212 | for expectations without blanks, hits, false reports and misses are the sizes of an intersection and two differences |
| Evaluation.ClassShare | mobileag/analysis/evaluation.py:230-234 | the share of a weakness class is the score of that class alone |
| Evaluation.AddToGroups | mobileag/analysis/evaluation.py:230-234 | adding a case to the groups keeps every group the sum of its shares, with an entry for every class seen |
| Evaluation.Validate | mobileag/analysis/evaluation.py:119-123 | of the corpus checks, those for a case and for repeated expectations: both hold exactly when it accepts |
| Evaluation.EvaluateInstances | mobileag/analysis/evaluation.py:126-234 | a corpus is refused exactly when it fails these two checks; totals, groups and rows are those of largest matchings; said without a graph, each row counts the pairs of its case, the totals add up the rows, and each group adds up the pairs of its class over the cases |
| Evaluation.ScoresConserve | mobileag/analysis/evaluation.py:211-214 | every expectation is found or missed, every report is right, wrong or a duplicate |
| Evaluation.GroupsAddUp | mobileag/analysis/evaluation.py:215-234 | the groups by weakness add up to the totals |
| Descriptors.ParameterDescriptors | mobileag/analysis/call_graph.py:401-425 | the index-driven loop computes the widths of the specification, or rejects where it rejects |
| Descriptors.DescriptorRoundTrip | mobileag/analysis/call_graph.py:401-425 | a printed parameter list is read back with its widths, or rejected if and only if a class name in it holds a closing parenthesis, where the body is cut off |
| Descriptors.AcceptsExactlyPrints | mobileag/analysis/call_graph.py:401-425 | a descriptor body is accepted exactly when it is the print of some parameter list |
| Descriptors.KthParameter | mobileag/analysis/call_graph.py:433-446 | the k-th parameter maps to the word after the receiver and all earlier widths, on both sides |
| Descriptors.ParameterArgumentRegisters | mobileag/analysis/call_graph.py:428-446 | the mapping loop yields the whole mapping or, when the words do not fit exactly, nothing |
| Descriptors.ArgumentsOfPrintedSignature | mobileag/analysis/call_graph.py:428-446 | for a printed signature every parameter is mapped exactly when the number of words fits and no class name holds a closing parenthesis |
| TransferFrame.StepFrame | mobileag/analysis/call_graph.py:869-1207 | whatever an instruction does not touch carries what it carried |
| TransferFrame.ResultLivesOneStep | mobileag/analysis/call_graph.py:883-977 | a pending result is gone after the next instruction that is not a call |
| ReachingWrites.LastWriterDecides | mobileag/analysis/call_graph.py:865-1252 | what a path carries in a key is what it carried there when the key was last touched |
| ReachingWrites.PathCarriesExactlyReaching | mobileag/analysis/call_graph.py:865-1252 | a path carries a trace in a key if and only if it started with it or the last instruction to touch the key put it there |
| ReachingWrites.HoldsExactlyReachingWrites | mobileag/analysis/call_graph.py:865-1252 | without guarded forms a register holds a trace at an instruction if and only if a write of it reaches the instruction along some path |
| ReachingWrites.WriteReaches | mobileag/analysis/call_graph.py:1239-1252 | in every method, what a visited instruction leaves in a key is there wherever control can get without touching the key again |
| ReachingWrites.PendingIsYielded | mobileag/analysis/call_graph.py:883-977 | in every method and under every budget, a result is pending only behind a visited call or array construction |
| Termination.StepIn | mobileag/analysis/call_graph.py:869-1237 | an instruction introduces no keys and no traces beyond those it has a right to |
| DefUse.StepCarriesExactly | mobileag/analysis/call_graph.py:869-1237 | for every instruction and every state: a trace is in a register, a summary or the pending result afterwards if and only if the instruction introduced it there, left it there, or passed it on from a slot that it uses for this one; which slots those are is listed for each instruction and each framework summary, and four guarded forms hide an edge when something else takes its place |
| DefUse.CarriesExactlyChains | mobileag/analysis/call_graph.py:865-1252 | after any run of instructions a trace is in a slot if and only if a chain of such edges leads there from where it was introduced or was to begin with, and no guarded form hides it on the way |
| DefUse.CarriesExactlyLeads | mobileag/analysis/call_graph.py:865-1252 | without guarded forms the chains do not depend on any state but the first |
| Distributivity.StepDistributes | mobileag/analysis/call_graph.py:865-1237 | an unguarded instruction does to a join of states what it does to each |
| Distributivity.MonotoneExactlyUnguarded | mobileag/analysis/call_graph.py:962-974 | an instruction is monotone if and only if it is not one of the guarded forms |
| Distributivity.ArrayGetNotMonotone | mobileag/analysis/call_graph.py:967-971 | a larger state with an element summary hides the traces of the array register |
| Distributivity.ConstructorNotMonotone | mobileag/analysis/call_graph.py:1114-1134 | a larger state can lose what the receiver of a guarded constructor carried |
| Distributivity.ReportDistributes | mobileag/analysis/call_graph.py:1209-1237 | what a join of states reports is what its parts report |
| RegisterFlow.AnalyzeLocalRegisterFlows | mobileag/analysis/call_graph.py:843-1256 | the nested loops compute the specified run and report a limit exactly when something is left to visit |
| RegisterFlow.AnalysisInvariant | mobileag/analysis/call_graph.py:865-1252 | after any number of rounds every visited instruction that is not queued has passed on and reported all it does |
| RegisterFlow.VisitsExactlyReachable | mobileag/analysis/call_graph.py:1239-1252 | once the queue is empty, the visited instructions are exactly those some path reaches |
| RegisterFlow.PathIsCovered | mobileag/analysis/call_graph.py:1239-1252 | what a path carries through unguarded instructions is in the final state |
| RegisterFlow.CarriesExactlyPaths | mobileag/analysis/call_graph.py:865-1252 | without guarded forms a register carries a trace if and only if some path carries it there |
| RegisterFlow.ReportsExactlyPaths | mobileag/analysis/call_graph.py:1209-1256 | without guarded forms a flow, argument, write, read, return or call is reported if and only if some path gives rise to it |
| TaintChains.ReportsExactlyChains | mobileag/analysis/call_graph.py:843-1256 | without guarded forms the analysis reports a flow, argument, field write, return, read or call if and only if a chain of definitions and uses along some path leads to the instruction that makes it one |
| TaintChains.FirmChainIsReported | mobileag/analysis/call_graph.py:843-1256 | in every method, what a chain along a path leads to is reported, if none of its edges is one that a guarded form may hide |
| RegisterFlow.RecordedIsHeld | mobileag/analysis/call_graph.py:1209-1256 | in every method, whatever guarded forms it contains elsewhere and under every budget, each recorded flow, argument, field write, return, read and call is reported from the final state of a visited instruction |
| RegisterFlow.RecordedExactlyHeld | mobileag/analysis/call_graph.py:1209-1256 | once the queue is empty, what is recorded is exactly what the final states of the visited instructions report |
| RegisterFlow.FlowIsInFinalState | mobileag/analysis/call_graph.py:1209-1219 | the trace of a recorded flow is in the argument register of its sink call after the final update of that call |
| RegisterFlow.RunDependsOn | mobileag/analysis/call_graph.py:552-555 | tables that agree on the fields read and methods called give the same run |
| Termination.AnalysisEnds | mobileag/analysis/call_graph.py:865-867 | every queue empties after finitely many rounds without a budget, and a larger budget changes nothing |
| SummaryTables.AnalysisDependsOn | mobileag/analysis/call_graph.py:513-555 | an analysis depends only on the parameters of its method and on what it was registered for |
| SummaryTables.ClosedIsPathClosed | mobileag/analysis/call_graph.py:566-609 | tables that no analysis adds to are closed under everything a path reports |
| SummaryTables.FoundBelowPathClosed | mobileag/analysis/call_graph.py:566-609 | an analysis against smaller tables finds only what path-closed tables hold already |
| SummaryTables.FlowIsGrounded | mobileag/analysis/call_graph.py:1209-1219 | a flow found on the way belongs to a path under any larger tables |
| SummaryTables.GroundedIsFound | mobileag/analysis/call_graph.py:1209-1219 | a complete analysis finds every flow that some path carries under its tables |
| SummaryTables.LeastIsUnique | mobileag/analysis/call_graph.py:566-609 | two least path-closed tables hold the same facts and ground the same flows |
| TaintChains.EntersExactly | mobileag/analysis/call_graph.py:508-548 | at the entry of a method a register carries its seeds and what the table says callers pass, and nothing else is carried |
| TaintChains.EnteringReachesSink | mobileag/analysis/call_graph.py:508-565 | a trace that a method is seeded with or is passed, in a register that no instruction of a path touches and that the sink call at its end takes, is a flow of the method, whatever forms the package contains |
| TaintChains.ClosedUnderChains | mobileag/analysis/call_graph.py:566-609 | without guarded forms, tables are closed under paths if and only if they hold every argument, field write and return that a chain leads to |
| TaintChains.GroundedByChains | mobileag/analysis/call_graph.py:1209-1219 | without guarded forms, a path carries a flow if and only if a chain from the method's seeds and parameters, or from where the trace is introduced, leads to it |
| TaintChains.ClosedUnderFirmChains | mobileag/analysis/call_graph.py:566-609 | for every package, closed tables hold what chains lead to that no guarded form may hide |
| SummaryTables.OneMoreFact | mobileag/analysis/call_graph.py:571-578 | recording a new fact adds exactly it |
| Interprocedural.ProgressKept | mobileag/analysis/call_graph.py:566-609 | recording a fact and queueing whom it affects keeps everybody else up to date |
| Interprocedural.Engine.Publish | mobileag/analysis/call_graph.py:566-609 | publishing facts keeps the invariant of the outer loop, holds all of them unless the limit is raised, and raises it only when the fact cap is reached |
| Interprocedural.Engine.RecordFlows | mobileag/analysis/call_graph.py:556-565 | flows are listed, each key once and no others, up to the flow cap; the limit is raised only when that is reached |
| Interprocedural.Engine.Requeue | mobileag/analysis/call_graph.py:579-581 | the queued set stays the set of the worklist, without repeats |
| Interprocedural.Engine.ProcessNext | mobileag/analysis/call_graph.py:504-609 | one round keeps the invariant and makes progress: a new fact, or a shorter worklist |
| Interprocedural.Engine.BuildFlows | mobileag/analysis/call_graph.py:491-612 | it raises if and only if a method without instructions is among the first runs of the order; the limit is raised only at the fact cap, the flow cap or for want of runs, the warning only when the step budget cuts an analysis; without the limit the three tables are jointly closed and all flows listed; every fact has a derivation and every listed flow, once per key, an analysis that finds it; only methods with too many lines are set aside, each once; without guarded forms the tables never exceed path-closed ones and every listed flow belongs to a path under them, without limit and warning they are the least path-closed tables and the listed flows are exactly those of paths, and a program that has room in the caps gets neither; said without the transfer function, without limit and warning every argument, write, return and flow that a chain leads to is in the tables or listed, for every program if no guarded form may hide it, and without guarded forms the tables are the least ones of that kind and nothing but what chains lead to is listed |
| Interprocedural.KeyIdentifies | mobileag/analysis/call_graph.py:556-558 | two flows have the same key if and only if method, sink line, sink and the method, line and file of the source agree |
| Interprocedural.RoomIsEnough | mobileag/analysis/call_graph.py:491-612 | if some path-closed tables, the flows that paths carry under them and the runs they may need fit the caps, and no analysis below them needs more steps than its budget, no cap and no budget is reached |
| Interprocedural.OrderDoesNotMatter | mobileag/analysis/call_graph.py:491-612 | without guarded forms and caps, two propagations in different orders list the same flows |
| Interprocedural.AbstractMethodRaises | mobileag/analysis/call_graph.py:766-767 | a package with one method without instructions makes the propagation raise |
| CallPaths.NewIsShortest | mobileag/analysis/call_graph.py:1435-1441 | a method first met at some level has no shorter call path |
| CallPaths.AllDiscovered | mobileag/analysis/call_graph.py:1404-1444 | a finished walk has discovered every method within the depth |
| CallPaths.Walk | mobileag/analysis/call_graph.py:1399-1447 | a walk keeps its invariant and, when not cut off, ends with an empty queue; cut off by its budget it has looked at ten thousand methods |
| CallPaths.FindSourceSinkPaths | mobileag/analysis/call_graph.py:1386-1452 | every finding is a real call path within the depth, one for each start, method and sink, whatever was cut off; a shortest one unless the search is truncated and some start has too many methods within the depth; nothing is missing below the caps, and the caps are not reached if and only if the call graph fits; a search that is not full reports for each start the sinks of ten thousand methods within the depth, or of all there are; with few enough methods the truncation mark is set if and only if the methods before the last fill the search up, and then it is full |
| CallPaths.NarrowStartIsComplete | mobileag/analysis/call_graph.py:1399-1447 | whatever happens with other starts, one with at most ten thousand methods within the depth is complete unless the search is full |
| CallPaths.MissesByCount | mobileag/analysis/call_graph.py:1392-1405 | where no method calls more than w sinks, a search that is unmarked or has narrow starts misses nothing up to a thousand triples, and something from w more on |
| CallPaths.LosesUnmarkedExactly | mobileag/analysis/call_graph.py:1392-1394 | where no method calls two sinks, an unmarked search misses something if and only if there are more triples than its cap; with narrow starts it misses something without a mark if and only if moreover the methods before the last do not fill it |
| CallPaths.FanLosesUnmarked | mobileag/analysis/call_graph.py:1404-1447 | a call graph whose search leaves out a sink and is not marked |
| JniNames.DecodeComponent | mobileag/analysis/native_jni_bridge.py:110-131 | the left-to-right decoder loop computes the specified decoding |
| JniNames.DemangleJniName | mobileag/analysis/native_jni_bridge.py:79-137 | the scanning loops compute the specified demangling, including all rejections |
| JniNames.DemangleUndoesMangle | mobileag/analysis/native_jni_bridge.py:79-137 | demangling a mangled name, with or without an overload, gives back the pair if and only if the names are recoverable |
| JniNames.DecodeSplits | mobileag/analysis/native_jni_bridge.py:92-131 | on any text the left-to-right decoder splits at every delimiter of the right-to-left scan that no underscore precedes |
| JniNames.SplitDecodesWhole | mobileag/analysis/native_jni_bridge.py:79-137 | for every symbol that is split, its body decodes from left to right to the class, a dot and the method |
| JniNames.SplitsExactly | mobileag/analysis/native_jni_bridge.py:92-137 | a symbol is split if and only if its body has a delimiter behind its first character and does not end in one |
| JniNames.LeadingUnderscoreIsLost | mobileag/analysis/native_jni_bridge.py:92-108 | a method whose name starts with an underscore is not recovered |
| JniNames.DotsAreWritten | mobileag/analysis/native_jni_bridge.py:79-137 | the mangled name of a method of a class in a package is `Java_`, the package, the class and the method with underscores between them, so demangling it gives the class with a dot |
| SigningBlock.FindEocdOffset | mobileag/analysis/apk_signature_auditor.py:212-220 | the search returns the greatest matching offset in the last 65557 bytes, or none if there is none |
| SigningBlock.WalkTiles | mobileag/analysis/apk_signature_auditor.py:188-208 | on any bytes the visited pairs are, encoded, exactly what has been walked over |
| SigningBlock.WalkReadsBack | mobileag/analysis/apk_signature_auditor.py:188-208 | a well-formed pair area is read back whole, every pair once and in order |
| SigningBlock.WalkCoversExactly | mobileag/analysis/apk_signature_auditor.py:188-208 | the walk stops at the end of the area if and only if the area is a sequence of pairs |
| SigningBlock.LooseBoundExactly | mobileag/analysis/apk_signature_auditor.py:191-194 | comparing with the central directory instead of the area differs exactly when a pair runs over the end of the area |
| SigningBlock.ReadsIntoFooter | mobileag/analysis/apk_signature_auditor.py:168-196 | whole files whose block is located and whose pair takes its value of 1 to 24 bytes from the size and the magic behind the pair area |
| SigningBlock.FlagsExactlyCarried | mobileag/analysis/apk_signature_auditor.py:198-206 | a scheme is flagged if and only if it was before or a pair carries its ID, which is given for each of v2, v3 and v3.1 |
| SigningBlock.ParseSigners | mobileag/analysis/apk_signature_auditor.py:222-268 | on any bytes the nested loops yield the first sixteen of the certificates specified |
| SigningBlock.CertificatesAreSlices | mobileag/analysis/apk_signature_auditor.py:236-264 | every certificate is a contiguous part of the value |
| SigningBlock.ParseUndoesEncode | mobileag/analysis/apk_signature_auditor.py:222-268 | an encoded scheme value yields all certificates of all signers in order |
| SigningBlock.SignatureAuditResult.ExtractSigningBlockCertificates | mobileag/analysis/apk_signature_auditor.py:156-210 | certificates, flags and warnings are those that the place of the block and its pairs determine |
| SigningBlock.SignedFileIsRead | mobileag/analysis/apk_signature_auditor.py:168-208 | in a file with a block before its central directory the block is found and exactly its pairs are visited |
| SigningBlock.SignedApkIsRead | mobileag/analysis/apk_signature_auditor.py:156-220 | contents, a written block, a central directory and a record without comment: the record is found, the block located and its pairs visited, each once and in order |
| MachO.WalkIsConsecutive | mobileag/analysis/macho_parser.py:733-763 | on any bytes the accepted load commands are consecutive and inside the declared region; all are accepted exactly when there is no trouble |
| MachO.CommandsAreDisjoint | mobileag/analysis/macho_parser.py:736-763 | two accepted commands share no byte |
| MachO.WalkReadsBack | mobileag/analysis/macho_parser.py:733-763 | written load commands are found again, in either byte order, whatever follows them |
| MachO.AcceptsExactly | mobileag/analysis/macho_parser.py:736-745 | the declared number of commands is accepted if and only if the region starts with that many well-formed ones |
| MachOParser.ParseSegment64 | mobileag/analysis/macho_parser.py:772-792 | the record loop adds exactly the section records of the command, or complains and adds none |
| MachOParser.SegmentReadsBack | mobileag/analysis/macho_parser.py:778-792 | the sections of a written segment command are read back in order |
| MachOParser.SectionsLoaded | mobileag/analysis/macho_parser.py:736-763 | the sections are those of the commands, in order and as often as declared |
| MachOParser.ComplaintsLoaded | mobileag/analysis/macho_parser.py:736-763 | there is a complaint if and only if a command is malformed |
| MachOParser.DylibsLoaded | mobileag/analysis/macho_parser.py:754-762 | every named library is listed once and nothing else is |
| MachOParser.LastSymtabCounts | mobileag/analysis/macho_parser.py:748-753 | the last complete symbol-table command counts |
| MachOParser.ParseLoadCommands | mobileag/analysis/macho_parser.py:733-763 | the loop reads exactly the walked commands and is partial exactly for trouble or a malformed command |
| MachOParser.ParseSymbolTable | mobileag/analysis/macho_parser.py:671-707 | every named symbol is listed once and nothing else is, unless the limit is reached and recorded; tables out of range change no names |
| MachOParser.ParseThin64 | mobileag/analysis/macho_parser.py:709-770 | two refusals change only status and errors; otherwise sections, libraries and symbols are those of the accepted commands, and each Swift inventory is that of the entries of the declared sections |
| MachOParser.DeclaredTypesAreFollowed | mobileag/analysis/macho_parser.py:709-770 | if the types of a file were parsed, every entry of every type section that an accepted command declares was followed to its name and all its field records |
| MachOParser.DeclaredConformancesAreListed | mobileag/analysis/macho_parser.py:709-770 | if the conformances were parsed, every pair that an entry of a declared section leads to is listed |
| MachOFile.FileReadsBack | mobileag/analysis/macho_parser.py:709-763 | the byte order, the commands and their number in a written header are read back, with the commands behind it |
| MachOFile.LibraryReadsBack | mobileag/analysis/macho_parser.py:754-762 | a library is named if and only if a library command is written with its offset and a text that ends with a zero byte inside the command |
| MachOFile.SymtabReadsBack | mobileag/analysis/macho_parser.py:748-750 | the four words of a symbol-table command are read if and only if they are written |
| MachOFile.SymbolReadsBack | mobileag/analysis/macho_parser.py:687-707 | a symbol has a name if and only if its entry holds the place of the name and the name is written there |
| MachOFile.WrittenConformanceIsListed | mobileag/analysis/macho_parser.py:560-625 | a conformance written at an entry of a declared section is listed with its type first and its protocol second, if the conformances were parsed |
| SwiftInventory.TypesParsed | mobileag/analysis/macho_parser.py:354-508 | parsed types mean readable sections, no broken entry, and every name and record listed, the names up to a full list |
| SwiftInventory.ProtocolsParsed | mobileag/analysis/macho_parser.py:510-558 | the same for protocol entries |
| SwiftInventory.ConformancesParsed | mobileag/analysis/macho_parser.py:560-625 | the same for conformances, where every pair is listed |
| SwiftMetadata.CStringAt | mobileag/analysis/macho_parser.py:387-394 | a string found is inside the file, shorter than 256 bytes, without a zero byte and followed by one; none is found exactly if the offset is outside the file or no zero byte is among the next 256 |
| SwiftMetadata.ExtractSwiftProtocolNames | mobileag/analysis/macho_parser.py:510-558 | every listed name is one an entry leads to, and the status is partial exactly if a section, the number of entries or an entry was in the way |
| SwiftMetadata.ExtractSwiftConformances | mobileag/analysis/macho_parser.py:560-625 | the same for pairs of a type and a protocol, where a full list is recorded too |
| SwiftLayout.TypeReadsBack | mobileag/analysis/macho_parser.py:369-404 | a type entry is followed to a name if and only if the pointer, a class, structure or enumeration descriptor and the name are written |
| SwiftLayout.ProtocolReadsBack | mobileag/analysis/macho_parser.py:527-556 | the same for a protocol entry and its descriptor |
| SwiftLayout.ConformanceReadsBack | mobileag/analysis/macho_parser.py:568-619 | a conformance entry is followed to the pair of a type name and a protocol name if and only if a record points first to that protocol and then to that type |
| SwiftFieldLayout.RecordReadsBack | mobileag/analysis/macho_parser.py:439-501 | a field record is read with its name, its three flags and its mangled type or none, if and only if it is so written |
| SwiftFieldLayout.FieldsReadBack | mobileag/analysis/macho_parser.py:407-432 | the records of a type are found if and only if a field descriptor with their number is written in a field-metadata section |
| SwiftFieldLayout.ConformancesListedExactly | mobileag/analysis/macho_parser.py:589-625 | whatever the status, a new pair is that of a conformance written at an entry, and each of these is listed if there is room |
| SwiftFieldLayout.ProtocolsListedExactly | mobileag/analysis/macho_parser.py:517-558 | the same for protocol names |
| SwiftFieldLayout.TypesListedExactly | mobileag/analysis/macho_parser.py:360-406 | the same for type names |
| SwiftFieldLayout.EntryIsExamined | mobileag/analysis/macho_parser.py:360-368 | every entry of a section inside the file, of at most ten thousand entries, is examined unless all sections together have more |
| SwiftFieldLayout.WrittenFieldIsListed | mobileag/analysis/macho_parser.py:354-506 | if the types were parsed, the metadata of a record written for a type at an entry is listed with the type's name, the record's name and its flags, and the mangled type with them |
| SwiftFieldLayout.ParsedNamesListed | mobileag/analysis/macho_parser.py:433-508 | if the types were parsed, the names of the records of a type are listed together and in order, if there is room |
| SwiftFields.RecordsAt | mobileag/analysis/macho_parser.py:407-432 | the field records of a descriptor lie inside a field-metadata section of the file |
| SwiftFields.AfterRecordHolds | mobileag/analysis/macho_parser.py:439-506 | one more record keeps every listed item traceable to a record seen, and nothing is lost without being recorded |
| SwiftFields.LosesExactly | mobileag/analysis/macho_parser.py:439-506 | reading records in order loses something if and only if one of them is not in the resulting lists with all it says |
| SwiftFields.FirstRecordsAreRead | mobileag/analysis/macho_parser.py:434-438 | with the budget spread over the types one after the other, the records read are the first ten thousand of all |
| SwiftFields.ListFields | mobileag/analysis/macho_parser.py:433-508 | the records of a type are listed in order, all or as many as are left of ten thousand; the counter stops one beyond, and the status is partial exactly if it was, records are left out or one is lost |
| SwiftFields.ExtractSwiftTypeNames | mobileag/analysis/macho_parser.py:354-508 | names, metadata, types and field lists are exactly what following the entries in order and reading the first ten thousand records leaves, and the status is partial exactly if an entry was in the way or a record missed or lost |
| SwiftFields.PartialExactly | mobileag/analysis/macho_parser.py:354-508 | the status is partial if and only if an entry was in the way, a type has a broken field descriptor, there are more than ten thousand records, or one of the first ten thousand is not listed with all it says |
| SwiftFields.ParsedMeansComplete | mobileag/analysis/macho_parser.py:354-508 | a status of parsed means every entry was followed, every name is listed or the list is full, and every record is listed with all it says |
| SwiftFields.MetadataIsGrounded | mobileag/analysis/macho_parser.py:459-471 | whatever was lost, listed metadata comes from a record of a type that an entry leads to |
| CallSplitters.SplitIsUnique | mobileag/analysis/source_syntax.py:40-46 | a text has only one list of pieces cut at its top-level commas |
| CallSplitters.BalancedExactly | mobileag/analysis/source_syntax.py:32-42 | the stack accepts exactly the texts of the bracket grammar |
| CallSplitters.SplitCall | mobileag/analysis/source_syntax.py:28-46 | the first closing parenthesis after balanced text, and spans that tile the arguments and are their pieces; nothing if no call closes |
| CallSplitters.CallIsDetermined | mobileag/analysis/source_syntax.py:28-46 | a call has only one end and one list of argument spans, so the splitter's promise determines its result |
| CallSplitters.CallSites | mobileag/analysis/source_syntax.py:19-53 | one site per match whose call closes, in order, with trimmed arguments from both texts and none for a blank list |
| CallSplitters.CallEnd | mobileag/analysis/pending_intent_auditor.py:79-86 | the first parenthesis at which as many are closed as opened |
| CallSplitters.Arguments | mobileag/analysis/pending_intent_auditor.py:89-98 | the pieces between the commas at bracket depth zero; rejoined they are the text |
| CallSplitters.AcceptsExactly | mobileag/analysis/source_syntax.py:27-44 | the stack accepts a call if and only if counting finds an end with balanced text before it, and then at the same place |
| CallSplitters.SplittersAgree | mobileag/analysis/pending_intent_auditor.py:79-98 | when the stack accepts a call, counting finds the same end and the same pieces |
| CallSplitters.PiecesAreBalanced | mobileag/analysis/source_syntax.py:40-46 | every piece of an accepted call is balanced |
| CallSplitters.CountingIsLaxer | mobileag/analysis/pending_intent_auditor.py:79-86 | a text that counting accepts and the stack refuses |
| CommentMasks.MaskJavaKotlinComments | mobileag/analysis/api_mapper.py:16-64 | the in-place loop blanks exactly the comment characters of the tokeniser, never a line break or a literal |
| CommentMasks.MaskSmaliComments | mobileag/analysis/api_mapper.py:67-92 | the same for Smali comments |
| CommentMasks.MaskJavascriptDartComments | mobileag/analysis/api_mapper.py:124-169 | the same for JavaScript and Dart, with template literals and both tripled quotes |
| CommentGrammar.BlockEndsExactly | mobileag/analysis/api_mapper.py:35-48 | a block comment ends where a body of characters and nested comments meets a closing mark, and at the end of the text if and only if there is no such place or it is there |
| CommentGrammar.LiteralEndsExactly | mobileag/analysis/api_mapper.py:49-60 | a literal ends behind the first delimiter that no backslash takes along, or else at the end of the text |
| CommentGrammar.SomePiece | mobileag/analysis/api_mapper.py:26-62 | every text starts with a line comment, a closed or open block comment, a closed or open literal, or another character |
| CommentGrammar.MaskOfPiece | mobileag/analysis/api_mapper.py:16-64 | a mask shows the piece a text starts with, blanked if it is a comment but for its line breaks, and goes on with the mask of the rest |
| CommentGrammar.MaskersMaskPieces | mobileag/analysis/api_mapper.py:16-169 | this holds for the three maskers with the comments and quotes of their languages, which with the piece every text starts with determines them |
| CommentMasks.KindsOfMasked | mobileag/analysis/api_mapper.py:16-64 | masked text has the tokens of the text with code in the place of comments |
| CommentMasks.MaskingTwice | mobileag/analysis/api_mapper.py:16-169 | masking masked text changes nothing |
| CommentMasks.MaskersLeaveNoComment | mobileag/analysis/api_mapper.py:16-169 | what each of the three maskers yields has no comment left, and masking it again changes nothing |
| LineNumbers.NewlinesCounted | mobileag/analysis/api_mapper.py:208-216 | what the counters count are the places of line feeds |
| LineNumbers.MatchesWithLineNumbers | mobileag/analysis/api_mapper.py:208-216 | the running counter is one plus the line breaks before each match |
| LineNumbers.LinesSurviveMasking | mobileag/analysis/api_mapper.py:16-169 | a position has the same line in masked and unmasked text |
| LineNumbers.FindClose | mobileag/analysis/api_mapper.py:249-272 | the first unquoted parenthesis that closes the annotation within the limit, or none |
| LineNumbers.ScanMore | mobileag/analysis/api_mapper.py:233-288 | scanning on from a visit keeps every marker visited or inside an earlier span, the spans disjoint, and the counts right |
| LineNumbers.RetrofitHttpDeclarations | mobileag/analysis/api_mapper.py:229-288 | every marker is visited or inside an earlier span; lines, declarations and both diagnostics are those of the visits |
| Traversal.SortedInOrder | mobileag/analysis/bounded_sources.py:56-66 | sorting puts the folded names into order and keeps the entries |
| Traversal.BeforeExactly | mobileag/analysis/bounded_sources.py:56-66 | that order is lexicographic by characters |
| Traversal.SortingKeeps | mobileag/analysis/bounded_sources.py:56-66 | the order of the entries does not change what they hold |
| Traversal.SourceInventory.ReadFile | mobileag/analysis/bounded_sources.py:144-178 | one entry is ignored, skipped with its reason, yielded and counted, or stops the scan at the byte budget; it is yielded if and only if it is selected, readable, regular, not too large and fits |
| Traversal.SourceInventory.ReadTree | mobileag/analysis/bounded_sources.py:106-186 | what is yielded is, in the order of the traversal up to the directory with too many entries, the longest beginning whose files fit the byte budget; within the budgets this is exactly the tally of the tree, beyond them a limit is recorded; the budgets hold over several roots; the status is partial exactly when a limit or a skip is recorded |
| Traversal.LongestFitIsUnique | mobileag/analysis/bounded_sources.py:159-177 | there is one such longest beginning, so budgets and tree determine what is yielded |
| Traversal.LimitExactlyOver | mobileag/analysis/bounded_sources.py:131-134 | a limit is recorded if and only if the tree is more than the budgets have left |
| Traversal.ReachedIsCounted | mobileag/analysis/bounded_sources.py:135-178 | whatever can be reached by names is counted as what it is |
| Traversal.CountedIsReached | mobileag/analysis/bounded_sources.py:135-178 | every counted file can be reached by its path |
| Traversal.CountedOnce | mobileag/analysis/bounded_sources.py:174-176 | with distinct names no file is counted twice |
| Traversal.OnlyFilesOfTheTree | mobileag/analysis/bounded_sources.py:174-186 | whatever happens, only files of the tree are yielded, none more often than it is there |
| Traversal.NothingIsLostSilently | mobileag/analysis/bounded_sources.py:106-186 | a scan that is not partial has yielded every selected reachable file exactly once, left out no directory, and yielded nothing else |

## Left out

- The orders of the evaluator: sorted orders of expectations and observations are arbitrary enumerations; the theorems hold for all of them.
- Evaluation.Validate: models the checks for an empty corpus and for repeated expectations; the other checks of
  `validate_corpus` concern the shape and spelling of single fields.
- Evaluation.EvaluateInstances: the refusals of those other checks, precision and recall, which are quotients of the totals,
  the coverage labels and `corpus_sha256` are not modelled.
- The evaluator's normalisation of paths and methods.
- Python's recursion limit, which a long augmenting path could hit.
- Recognition of Smali text: instructions, successor lists and the tables of framework methods are given. Two pairs of
  tables overlap (`mobileag/analysis/call_graph.py:190-208`): `Ljava/util/Scanner;` is a path stream and a wrapper,
  `Ljava/io/BufferedReader;` is in both reader tables. Each call still has one summary, because the constructors are
  tested one after the other and the two reader tables are asked for different methods.
- The seeds of lifecycle callbacks and JavaScript interfaces are given with each method; `_inherits_from` is not modelled.
- The flag `via_interprocedural_return` and the diagnostics other than the step budget, which do not influence what is reported.
- RegisterFlow.CarriesExactlyPaths: stated for methods without the four guarded forms, because with them the analysis is not
  monotone and the order of visits matters; what holds with them is RegisterFlow.AnalysisInvariant.
- RegisterFlow.ReportsExactlyPaths: for the same reason stated for methods without the guarded forms; for all methods
  RegisterFlow.RecordedIsHeld says that what is recorded is in the final states.
- RegisterFlow.RecordedIsHeld: for a flow or an argument no guarded constructor may itself be the sink or the method called;
  none of the source's sinks is one.
- Interprocedural.Engine.BuildFlows: the statements about path-closed tables are for programs without the guarded forms;
  raising, closure and the fact count are for all.
- CallPaths.LosesUnmarkedExactly: where some method calls w sinks, CallPaths.MissesByCount leaves open what happens with fewer
  than w triples beyond the cap, where the order of the last walk decides.
- The step budget of one analysis is a parameter; the source uses 100000. The other caps are the source's constants.
- A refused fact leaves an empty set behind in the source's tables; the model does not create it.
- A call-path finding is identified by its path and sink, in the source by their joined text; the two agree because the text can be
  taken apart again.
- JNI names are sequences of UTF-16 code units. Comparing with declared Java methods is not modelled.
- Version 1 signatures, PKCS #7 and certificate parsing.
- Of the Mach-O parser: 32-bit and universal files, which walk the same structures with other widths, processor types, C strings,
  and the whole-file searches for URLs and frameworks. Decoding bytes as text is a parameter.
- The Swift type-name list stops silently at a thousand names in the source, without a partial status; the statements say so.
- Operation patterns are given as the spans they match, masked text is given for the splitters, and generic type arguments are not
  understood, as in the source.
- `_mask_xml_comments`, URL and route patterns, and the pattern part of the Retrofit declarations; the word and space tests of
  regular expressions are parameters.
- `SourceInventory.paths`, the same traversal without reading. A scan is run to its end; a caller that stops early is not modelled.
- Matching by extension, name and suffix, case folding, and the caller's filter are parameters. Files do not change between
  their size check and their reading, so the two later checks of the source never apply.
