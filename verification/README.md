# A verified model of the gem5-to-McPAT pipeline

The repository turns a gem5 simulation into a McPAT power estimate and sweeps over processor sizes. This
project models the parts of it that carry state or arithmetic, and proves for all inputs, all runs or all
reachable states what they compute, keep and guarantee. `dafny verify dfyconfig.toml` checks everything.

| module | what it models |
|---|---|
| `ArraySearch` | the timing-driven search of `ArrayST::optimize_array`, with the ownership of the solver's results |
| `Template` | `prepareTemplate`: a list of children that grows and shrinks while an index runs over it |
| `Reader` | the positional component walk of `ParseXML::parse` |
| `Composition`, `Copies` | the two together: which configurations the reader accepts, what every slot is filled from, and what each copy says of its cpu |
| `StatExpr`, `Arithmetic`, `CpuTotal`, `TotalCycles` | substitution of statistics by regular expressions, evaluation, totals over all cpus |
| `CommaList`, `Decimal` | the comma-separated integer lists, written by the script and read by the character loop |
| `Scanner`, `Formatter`, `Blob` | the `$` template scanner, the indenting formatter, and the byte arrays written with it |
| `Power`, `Chip`, `CorePipeline` | power figures, the aggregation of the chip's area and power, the pipeline's split within a core |
| `Sweep` | the bounded job pool as a transition system, and its loops |
| `Arbiter`, `PowerOfTwo` | the arbiter-tree count and the size checks |
| `Text`, `Xml`, `Wrappers` | strings, trees and options the others share |

Objects that are updated in place are classes whose methods are proved against functions; what is promised of
the functions is proved beside them. Doubles are reals and integers unbounded except where a width matters: the
reader's component order is an unsigned 32-bit variable and is modelled as one. The cache solver, the square
root, wire areas, component energies, process completion and CPU load are parameters, so every result holds for
all of them. The proofs are about the model; the programs themselves are not run.

## Where the code differs from what one would expect

* The search can deliver a result it has already deleted: two rounds that each meet only one constraint end the
  loop on a cleaned-up result (`AlternatingSolverIsUnsafe`). It happens exactly when the solver is not `Safe`;
  a solver whose met constraints stay met is. Results are also lost undeleted, exactly when the search is not
  `Frugal` (`BeatenCandidateLeaks`).
* With private L2s and n cores the L2 copies land behind the next n - 1 siblings, not in the template's place
  (`ExpansionLaw`). The reader then accepts the description if and only if those siblings hold no component and
  the homogeneity flags allow it (`CompatibleAccepted`, `IncompatibleRejected`; `DisplacedAlone` is a template
  that is refused for this reason only).
* For a shared L2 the script computes new values for the L2's children and does not store them
  (gem5tomcpat.py:251-254); the model keeps the old values.
* A NoC of the wrong name is no error for the reader, it only stalls the position (mcpat/XML_Parse.cc:1115-1228).
* Heterogeneous first-level directories enter the chip's power unscaled (mcpat/processor.cc:217 and 220), so the
  chip's power is the sum of its subtotals if and only if the directories are `Balanced`.
* The McPAT manual (mcpat/README:130-142) says one representative can stand for n identical components. This
  holds for area and peak power; in runtime power the representative must carry the statistics of all n
  (`ShortcutRefinesLoop`).
* Taking the text of a formatter replaces its chunks by one, which changes the next append exactly when that
  opens with a blank line and the text was at a line's beginning before but is not the single line break, or the
  reverse (`StrBeforeAppend`). A fresh formatter is such a case (`StrNoticed`).
* A dot in a statistic's name is a wildcard when it is substituted, so one name may be put in another's place
  (`WildcardClash`), and of two names the longer must come first if one begins the other (`LongerFirst`). The
  substitution stays on course exactly for the expressions that are `Clean`.
* A name in a formatter's template may begin with a bracket, a backslash, a caret or a backquote, since the range
  `A-z` holds them (`NameBeginnings`).
* Numbering the cpus can make two names alike that were told apart before (`NumberingConfuses`), so a total needs
  names that differ before the number, or only behind it.
* A sweep whose pool may hold no job at all never ends (`CanAlwaysEnd`).

## Model

| member | source | states |
|---|---|---|
| `ArraySearch.ArrayST.constructor` | mcpat/array.cc:44-63 | the cache size is raised to 64, and no result is allocated yet |
| `ArraySearch.ArrayST.ComputeBasePower` | mcpat/array.cc:66-81 | a solver call allocates a fresh block and yields the figures of the current settings |
| `ArraySearch.ArrayST.Cleanup` | mcpat/cacti/cacti_interface.cc:169-213 | cleanup frees the block and nulls that copy's pointer; freeing a dead block is a fault |
| `ArraySearch.ArrayST.TouchResult` | mcpat/array.cc:259-291 | following the delivered pointer is a fault unless its block is alive |
| `ArraySearch.ArrayST.Destroy` | mcpat/array.cc:340-343 | the destructor frees the delivered block; doing so twice is a fault |
| `ArraySearch.ArrayST.Round` | mcpat/array.cc:132-163 | which flags a round clears and whether its result is saved, kept in place or freed |
| `ArraySearch.ArrayST.Advance` | mcpat/array.cc:130-167 | a round takes the state after k rounds, live blocks included, to the state after k + 1 |
| `ArraySearch.ArrayST.TightenLoop` | mcpat/array.cc:122-167 | the loop runs exactly up to the first round after which both flags are cleared, at most eight, and leaves exactly the saved results alive |
| `ArraySearch.Stop` | mcpat/array.cc:130 | between one and eight rounds are run |
| `ArraySearch.StopFrom` | mcpat/array.cc:130 | the loop stops at the first moment both constraints have been cleared, not necessarily by the same round |
| `ArraySearch.ArrayST.SelectCandidate` | mcpat/array.cc:198-222 | the winner is the running strict minimum and the losers alone are freed, each while alive |
| `ArraySearch.SelectionMatchesRounds` | mcpat/array.cc:198-222 | the winner is the first saved round of minimal read energy; the freed candidates are exactly those that are no strict prefix minimum |
| `ArraySearch.RoundsRun` | mcpat/array.cc:130-167 | the rounds run are those up to the first by which each limit has been met by some round, all eight if none is |
| `ArraySearch.LeastEnergyDelivered` | mcpat/array.cc:137-222 | if some kept round stays below the energy bound, the delivered round is the first of least read energy among the kept; otherwise it is the last |
| `ArraySearch.CandidateBlocks` | mcpat/array.cc:140 | the candidates own pairwise different blocks, those of the saved rounds |
| `ArraySearch.LosersGone` | mcpat/array.cc:198-222 | what survives is what the rounds left less what the selection frees |
| `ArraySearch.ArrayST.SearchTightened` | mcpat/array.cc:104-223 | the search proper never frees a dead block and ends with the surviving blocks, result and flags given by the rounds |
| `ArraySearch.ArrayST.OptimizeArray` | mcpat/array.cc:83-295 | for every solver: it searches on if and only if told to, the cache is above 2048 (a cam's above 256) and a time exceeds its limit by more than 1e-10; the settings of every solver call in order, with deviations from 100 down; number of calls, warnings, surviving blocks and result; it uses a dead result if and only if it tightened and the solver is not `Safe` |
| `ArraySearch.ArrayST.Live` | mcpat/array.cc:44-343 | from construction to destruction the same calls are made and a fault happens if and only if the solver is not `Safe`; without one, nothing leaks if and only if the search was `Frugal` |
| `ArraySearch.OutcomeAlive` | mcpat/array.cc:199-223 | the delivered struct points to a live block if and only if the solver is `Safe`, and its figures are those of one round |
| `ArraySearch.OutcomeBlock` | mcpat/array.cc:199-223 | the delivered block is a prefix minimum's, or the eighth round's if there is none |
| `ArraySearch.FrugalMeans` | mcpat/array.cc:158-222 | only the delivered block survives if and only if no candidate is beaten by a later one and an unsaved last round does not lose to a candidate |
| `ArraySearch.MonotoneSolverIsSafe` | mcpat/array.cc:95-223 | if met constraints stay met and energies are below the bound, every path is free of faults |
| `ArraySearch.SetAssociativeDelivery` | mcpat/array.cc:102-177 | for set-associative arrays the result is that of the largest deviation meeting both constraints, the smallest deviation if none does, and each warning is printed exactly when the result violates its constraint |
| `ArraySearch.LastRoundDelivered` | mcpat/array.cc:130-223 | away from cams the last round is delivered and is the only survivor |
| `ArraySearch.WarningsExactly` | mcpat/array.cc:170-177 | for any solver, a warning is printed if and only if no round met the constraint |
| `ArraySearch.AlternatingSolverIsUnsafe` | mcpat/array.cc:130-163 | a solver on which the search delivers a freed result |
| `ArraySearch.BeatenCandidateLeaks` | mcpat/array.cc:205-216 | a well-behaved solver on which two results survive |
| `Template.StepProgress` | gem5tomcpat.py:149-254 | every pass of the loop uses up a template or an unvisited child, so the walk over the mutated list ends |
| `Template.ActProgress` | gem5tomcpat.py:172-254 | the same of each expansion, whatever it inserts |
| `Template.Expander.constructor` | gem5tomcpat.py:147-148 | the walk starts with the counter at zero |
| `Template.Expander.InsertCopies` | gem5tomcpat.py:211-213 | inserting one by one at a moving counter inserts the block of copies, in order, where the counter was |
| `Template.Expander.ActOn` | gem5tomcpat.py:172-254 | the in-place updates of one child; the child removed is the one visited |
| `Template.Expander.VisitChild` | gem5tomcpat.py:149-254 | one pass of the loop body is one step of the specification |
| `Template.Expander.PrepareTemplate` | gem5tomcpat.py:136-254 | the loop terminates and leaves what the specification's run leaves, of which `ExpansionLaw` says where and `Copies` what the copies are |
| `Template.ExpansionLands` | gem5tomcpat.py:211-215 | where the copies of any template land: past as many siblings as the counter leads the index, at most all that remain, and by how much the counter leads afterwards |
| `Template.CoreInPlace` | gem5tomcpat.py:172-215 | a first core expansion is exactly in place for every n, after which the counter leads by n - 1 |
| `Template.RunPlain` | gem5tomcpat.py:149-170 | children that are no templates are refreshed in place and keep the lead |
| `Template.RunOut` | gem5tomcpat.py:149-254 | behind the last template every child but the first is visited once more |
| `Template.L2Expansion` | gem5tomcpat.py:227-254 | the L2's part of the walk, private and shared |
| `Template.ExpansionLaw` | gem5tomcpat.py:136-254 | the whole output for every document with one core and one L2 and every number of cores, in closed form |
| `Template.RefreshKeeps` | gem5tomcpat.py:152-170 | refreshing a child changes nothing but its value |
| `Copies.ValueNamed` | gem5tomcpat.py:191-196 | a value that speaks of cpu statistics names cpu k at every place, one of configurations holds the index k behind every cpu, any other is kept |
| `Copies.StatisticNamed` | gem5tomcpat.py:191-193 | an expression over statistics is the one over those of cpu k |
| `Copies.ConfigurationNamed` | gem5tomcpat.py:194-196 | every cpu of a configuration value gets its index |
| `Copies.KidNamed` | gem5tomcpat.py:179-210 | a child of core k: its id, its value, its children's values, and the instruction set flag of the k-th configured cpu |
| `Copies.CoreCopyMeans` | gem5tomcpat.py:172-215 | copy k of a core is named and numbered k and every child and grandchild names cpu k |
| `Copies.L2CopyMeans` | gem5tomcpat.py:227-247 | the same of private L2s |
| `Copies.RefreshMeans` | gem5tomcpat.py:152-170 | the counts and the privacy flag written, and any other cpu statistic replaced by the sum of its forms on cpus 0 to n - 1 |
| `Copies.RefreshedTotal` | gem5tomcpat.py:165-356 | such a refreshed statistic, substituted and evaluated, is the sum of its values on all cpus |
| `Copies.PassedKeeps` | gem5tomcpat.py:149-170 | what the walk does to other children leaves their names, ids and children alone |
| `Copies.SlotContents` | mcpat/XML_Parse.cc:125-845 | what the reader finds in core slot k and L2 slot k of an expanded template speaks of cpu k throughout |
| `Reader.XmlParser.constructor` | mcpat/XML_Parse.h:585-590 | the component arrays have 64 slots each |
| `Reader.XmlParser.ReadRun` | mcpat/XML_Parse.cc:605-712 | a run fills slot i from its i-th component, and fails at the first wrong one or beyond the array |
| `Reader.XmlParser.Fill` | mcpat/XML_Parse.cc:614-619 | filling the next slot keeps the earlier ones |
| `Reader.XmlParser.ReadGroup` | mcpat/XML_Parse.cc:599-605 | where a run starts, how long it is and the order after it, in 32-bit arithmetic |
| `Reader.XmlParser.ReadSingle` | mcpat/XML_Parse.cc:1268-1274 | a single controller is looked for one position on, unless the order is still zero |
| `Reader.XmlParser.ReadFront` | mcpat/XML_Parse.cc:125-829 | cores and directories |
| `Reader.XmlParser.ReadBack` | mcpat/XML_Parse.cc:831-1228 | L2s, L3s and NoCs |
| `Reader.XmlParser.ParseSystem` | mcpat/XML_Parse.cc:47-1415 | the outcome is that of the layout, and every array holds its run in order |
| `Reader.RunLength` | mcpat/XML_Parse.cc:605-619 | the longest prefix of a run that passes its test |
| `Reader.ShortRun` | mcpat/XML_Parse.cc:605-712 | a run read to its end fits its array, is taken from consecutive components and passed every test |
| `Reader.TestsMean` | mcpat/XML_Parse.cc:125-1378 | the text each of the ten tests looks for, and whether in the name or the id, where it may stand anywhere |
| `Reader.NoParameters` | mcpat/XML_Parse.cc:1418-1440 | by default there is one of everything, and everything is homogeneous |
| `Reader.NocStalls` | mcpat/XML_Parse.cc:1115-1228 | a component that is no NoC ends the run of NoCs without an error, the end of the list is one |
| `Reader.Difference` | mcpat/XML_Parse.cc:601-605 | the difference of wrapped orders is the wrapped count |
| `Composition.CompatibleAccepted` | mcpat/XML_Parse.cc:125-1415 | on every compatible pair of configuration and template the expander's output passes all layout checks, and slot i of each array is filled from the i-th component of its run |
| `Composition.IncompatibleRejected` | mcpat/XML_Parse.cc:125-1378 | on every other pair the reader gives up, for any number of cores |
| `Composition.HugeRejected` | mcpat/XML_Parse.cc:128-138 | so many cores are refused however the counts wrap around |
| `Composition.HeterogeneousTemplate` | mcpat/XML_Parse.cc:833-845 | a template with heterogeneous flags and exactly its compatible configurations |
| `Composition.DisplacedAlone` | gem5tomcpat.py:227-247 | with that template and several cores, private L2s are refused and a shared one is read |
| `Composition.SmallestTemplate` | mcpat/XML_Parse.cc:1418-1440 | a template in the expected order with default flags, compatible with exactly the single-core configurations |
| `Composition.ExpandedCounts` | gem5tomcpat.py:152-155 | the reader finds the real numbers of cores and L2s and the template's other counts |
| `Composition.LastParameter` | mcpat/XML_Parse.cc:54-101 | a parameter sets its own count or flag, whatever stood there before, and no other |
| `Composition.RefreshedParam` | mcpat/XML_Parse.cc:54-101 | what refreshing does to the value of each integer parameter |
| `Composition.DisplacedComponents` | gem5tomcpat.py:227-247 | the component order when the L2 copies land past a component |
| `Composition.PrivateComponents` | gem5tomcpat.py:227-247 | the component order when private L2s land in place |
| `Composition.SharedComponents` | gem5tomcpat.py:248-254 | the component order with a shared L2 |
| `Composition.FrontComponents` | gem5tomcpat.py:172-215 | the copied cores followed by the directories |
| `Composition.CoreCopyTests` | gem5tomcpat.py:177-178 | a core copy passes the core test and none of the others, whatever its number |
| `Composition.InOrderAccepted` | mcpat/XML_Parse.cc:125-1378 | components in the order of the counts are accepted, slot by slot |
| `Composition.AcceptedMeans` | mcpat/XML_Parse.cc:125-1274 | what is accepted passed its tests at its positions, with the controller right behind the runs |
| `Composition.SecondCoreRejected` | mcpat/XML_Parse.cc:128-138 | a second core behind a homogeneous one is refused |
| `Composition.LateControllerRejected` | mcpat/XML_Parse.cc:1268-1274 | counts that are too small, or more components than six full arrays before it, are refused at the controller |
| `Composition.WrongL2Rejected` | mcpat/XML_Parse.cc:836-845 | a component before the L2s is refused |
| `Composition.ManyCoresRejected` | mcpat/XML_Parse.cc:129-138 | more cores than slots are refused |
| `StatExpr.Substitute` | gem5tomcpat.py:331-353 | the loop substitutes the references found in the original text one after another, with the fallback for a single cpu |
| `StatExpr.FlattenTokenize` | gem5tomcpat.py:327-332 | the references found and the text between them make up the expression |
| `StatExpr.TokenizeFlatten` | gem5tomcpat.py:327-332 | pieces in which "stats" only begins references are what their text is cut into |
| `StatExpr.ReferenceFound` | gem5tomcpat.py:327-332 | a name of letters, digits, underscores, colons and dots is found whole, and what follows it on its own |
| `StatExpr.WildcardFires` | gem5tomcpat.py:338-344 | where a substitution fires: after "stats", any character and the name, any character for each dot, none of them a line feed |
| `StatExpr.OwnOnly` | gem5tomcpat.py:338-344 | one substitution, of any value in any text, fills exactly its own references if its pattern matches nowhere else |
| `StatExpr.OwnOnlyNeeded` | gem5tomcpat.py:338-344 | and only if, for a value that can be told from the text it would replace |
| `StatExpr.SequentialIsSimultaneous` | gem5tomcpat.py:334-344 | substituting one after another is substituting all at once, for every clean expression and all values |
| `StatExpr.SubstitutionExactly` | gem5tomcpat.py:334-344 | after every substitution of the loop the text is the one with the references so far filled in, if and only if the expression is clean |
| `StatExpr.CleanExactly` | gem5tomcpat.py:334-344 | the same for any list of names and any pieces |
| `StatExpr.SafeIsClean` | gem5tomcpat.py:334-344 | an expression is clean if "stats" only begins references and each name is told apart from those still there at its turn |
| `StatExpr.LongerFirst` | gem5tomcpat.py:334-339 | of two names, one the beginning of the other, one order is clean and the other is not |
| `StatExpr.FillQuiet` | gem5tomcpat.py:338-344 | filling in a value completes no new "stats" with its neighbours |
| `StatExpr.WildcardClash` | gem5tomcpat.py:338-339 | an expression and values on which the two differ |
| `Arithmetic.EvalShown` | gem5tomcpat.py:353-356 | a written expression of sums, differences, products, quotients, signs and parentheses evaluates to its value, failing exactly on a division by zero |
| `Arithmetic.NumeralsAre` | gem5tomcpat.py:353-356 | numbers are the texts of digits and points |
| `Arithmetic.Operations` | gem5tomcpat.py:353-356 | the four operations, that a product binds before a difference and that differences associate to the left |
| `Arithmetic.GroupsSum` | gem5tomcpat.py:166-169 | a sum of parenthesised expressions is worth the sum of their values |
| `Arithmetic.GroupValue` | gem5tomcpat.py:166-169 | parentheses shield an expression from what follows |
| `CpuTotal.TokenizeSplit` | gem5tomcpat.py:327-332 | a character no name may hold cuts an expression into independent parts |
| `CpuTotal.SumIsGroups` | gem5tomcpat.py:165-170 | the rewritten total is the sum of the expressions for the single cpus |
| `CpuTotal.TotalOverCpus` | gem5tomcpat.py:165-356 | the value written is the sum over all n cpus of the expression's value on each, if the rewritten expression is clean |
| `CpuTotal.SingleCpuFallback` | gem5tomcpat.py:340-344 | a reference to cpu 0 is that statistic, failing that the unnumbered one, failing that none, however often the name holds the cpu |
| `TotalCycles.NamesApart` | gem5tomcpat.py:338-339 | statistics that differ before the number or only behind it are told apart on all cpus, whatever their numbers |
| `TotalCycles.NumberingConfuses` | gem5tomcpat.py:165-169 | two names told apart, and numbers that make them alike |
| `TotalCycles.Rewritten` | gem5tomcpat.py:165-169 | rewriting an expression for a cpu numbers its statistics and changes nothing else |
| `TotalCycles.CpuText` | gem5tomcpat.py:165-169 | the rewritten expression is cut into the numbered references and the text between them |
| `TotalCycles.SumIsSafe` | gem5tomcpat.py:165-170 | the rewritten total can be substituted one by one, for every number of cpus and every expression over statistics of one cpu |
| `TotalCycles.TotalOfExpression` | gem5tomcpat.py:165-356 | the total McPAT is given is the sum of the expression's values over all cpus, however many |
| `TotalCycles.BusyCyclesWellFormed` | mcpat/ProcessorDescriptionFiles/template_x86.xml:47 | the shipped template's busy cycles are such an expression |
| `TotalCycles.DifferenceWritten` | mcpat/ProcessorDescriptionFiles/template_x86.xml:47 | the text of a difference of two statistics |
| `TotalCycles.TotalOfDifference` | gem5tomcpat.py:165-356 | the total of a difference of two statistics is the sum over the cpus of the one's value less the other's |
| `TotalCycles.BusyCyclesTotal` | mcpat/ProcessorDescriptionFiles/template_x86.xml:47 | the busy cycles are all cycles less the idle ones, summed over the cpus |
| `TotalCycles.TotalOfStatistic` | gem5tomcpat.py:165-356 | the same for a single statistic |
| `TotalCycles.TotalOfSingleCpu` | gem5tomcpat.py:340-344 | with one cpu it is the unnumbered statistic |
| `CommaList.ListReader.ReadList` | mcpat/XML_Parse.cc:168-189 | the character loop succeeds exactly on lists that fit, stores their values, keeps the later slots and leaves the shared buffer empty |
| `CommaList.ListReader.Store` | mcpat/XML_Parse.cc:180-183 | storing a token extends the stored values by one and empties the buffer |
| `CommaList.SplitJoin` | gem5tomcpat.py:312-322 | splitting undoes joining |
| `CommaList.RoundTrip` | gem5tomcpat.py:312-322 | the values read are the integers written; lists of at most 20 integers of less than 60 characters fit and no others |
| `Decimal.AtoiToString` | mcpat/XML_Parse.cc:180 | reading a written integer gives it back, whatever follows |
| `Decimal.AtoiForms` | mcpat/XML_Parse.cc:180 | blanks in front and a plus sign are passed over, and text that begins otherwise is worth zero |
| `Scanner.EscapeRoundTrip` | gem5/build_tools/code_formatter.py:94-125 | doubling every dollar of any text is undone by the scanner |
| `Scanner.FormatSegments` | gem5/build_tools/code_formatter.py:270-331 | quoted text and references of every form, braced, bare or alone on a line, come out in order, and the call fails exactly when a reference does |
| `Scanner.ScanReference` | gem5/build_tools/code_formatter.py:270-304 | a braced name, position or expression is replaced by its value whatever follows it, a bare one up to its last character, and a name alone on its line by its value with every line indented |
| `Scanner.ScanText` | gem5/build_tools/code_formatter.py:306-308 | quoted text is copied up to whatever follows it, unless it ends in the indentation of a lone name |
| `Scanner.MatchBare` | gem5/build_tools/code_formatter.py:94-111 | a bare name is read up to its last word character |
| `Scanner.MatchBareArg` | gem5/build_tools/code_formatter.py:94-111 | a bare position is read up to its last digit |
| `Scanner.MatchLone` | gem5/build_tools/code_formatter.py:94-111 | a name alone on a line is read together with the blanks before it |
| `Scanner.IndentEach` | gem5/build_tools/code_formatter.py:271-282 | every line of such a name's value is put behind those blanks |
| `Scanner.ArgOfNumber` | gem5/build_tools/code_formatter.py:289-298 | position i stands for argument i and fails if there are not so many |
| `Scanner.InvalidExactly` | gem5/build_tools/code_formatter.py:94-111 | a dollar is invalid exactly if no escape, name, position, braced name or expression begins at it |
| `Scanner.InvalidFails` | gem5/build_tools/code_formatter.py:310-328 | and the call fails with it |
| `Scanner.NameBeginnings` | gem5/build_tools/code_formatter.py:130 | which characters a name may begin with |
| `Formatter.CodeFormatter.constructor` | gem5/build_tools/code_formatter.py:139-148 | an empty text, level zero, newline fixing as told |
| `Formatter.CodeFormatter.DoIndent` | gem5/build_tools/code_formatter.py:153-154 | the level grows by four a count, nothing else changes |
| `Formatter.CodeFormatter.DoDedent` | gem5/build_tools/code_formatter.py:156-158 | the level shrinks by four a count, or the assertion fails, exactly when it is too small, and nothing changes |
| `Formatter.CodeFormatter.EmitLine` | gem5/build_tools/code_formatter.py:248-254 | the chunks one line adds |
| `Formatter.CodeFormatter.DoAppend` | gem5/build_tools/code_formatter.py:241-256 | the append's loop against its specification |
| `Formatter.CodeFormatter.DoStr` | gem5/build_tools/code_formatter.py:215-218 | the text, with the chunks merged into one and the text kept |
| `Formatter.CodeFormatter.DoNewline` | gem5/build_tools/code_formatter.py:259-261 | an empty call adds one line break and nothing else |
| `Formatter.CodeFormatter.Call` | gem5/build_tools/code_formatter.py:258-332 | a call appends the filled-in template, which `FormatSegments` describes, or fails and appends nothing |
| `Formatter.StepTidy` | gem5/build_tools/code_formatter.py:153-261 | every call keeps a newline-fixing text empty or ended, and the level a non-negative multiple of four, except exactly an indentation to below zero |
| `Formatter.RunTidy` | gem5/build_tools/code_formatter.py:153-261 | the same over all runs whose indentations are not negative |
| `Formatter.AppendRoundTrip` | gem5/build_tools/code_formatter.py:241-256 | an append only adds, and what it adds, its indentation removed, is its lines less at most one leading blank one |
| `Formatter.SplitJoined` | gem5/build_tools/code_formatter.py:247-254 | splitting and stripping indented lines gives them back |
| `Formatter.SplitAtBreak` | gem5/build_tools/code_formatter.py:247 | every kind of break ends a line, a carriage return and a line feed together only one |
| `Formatter.RunAlike` | gem5/build_tools/code_formatter.py:153-261 | runs from states of equal text, level and line position stay so |
| `Formatter.StrBeforeAppend` | gem5/build_tools/code_formatter.py:215-218 | taking the text changes the next append exactly when that opens with a blank line and the one chunk left is judged differently from the last chunk before |
| `Formatter.StrNoticed` | gem5/build_tools/code_formatter.py:215-256 | a fresh formatter on which taking the text changes the next append |
| `Formatter.StrUnnoticed` | gem5/build_tools/code_formatter.py:215-256 | before an append that opens with text, taking the text changes no later text of any run |
| `Blob.BytesToCppArray` | gem5/build_tools/blob.py:30-42 | the loop emits the declaration's header, body lines and footer at the current level, or run together without newline fixing, and restores the level |
| `Blob.RoundTrip` | gem5/build_tools/blob.py:34-42 | the body, stripped, joined and parsed as comma-ended decimals, is the bytes again |
| `Blob.LineShape` | gem5/build_tools/blob.py:36-40 | line k holds the bytes from 16k up to 16k + 16 or the end |
| `Power.AddLaws` | mcpat/cacti/io.cc:803-841 | adding power is associative and commutative with a zero |
| `Power.ScaleSplits` | mcpat/cacti/io.cc:818-851 | scaling is linear in the mask |
| `Power.ScaleFigureParts` | mcpat/cacti/io.cc:843-851 | which figures each part of a mask reaches |
| `Chip.Processor.constructor` | mcpat/processor.cc:48-54 | all subtotals start empty |
| `Chip.Processor.AddGroup` | mcpat/processor.cc:105-251 | a group's loop adds its subtotal to the chip, or for first-level directories the unscaled sum |
| `Chip.ShortcutRefinesLoop` | mcpat/processor.cc:105-194 | for n identical units one representative scaled by n gives the loop's area and peak power; runtime dynamic figures differ by the factor n |
| `Chip.RepeatedShare` | mcpat/processor.cc:120-131 | n rounds of the accumulating loop are one scaling by n |
| `Chip.Noc.constructor` | mcpat/noc.cc:46-131 | a router's area counts once a node and it has no links yet; a bus is as long as it is told |
| `Chip.Noc.InitLinkBus` | mcpat/noc.cc:133-160 | link length, link area per router and the network's area |
| `Chip.Processor.TallyArea` | mcpat/processor.cc:325-347 | a network's area enters subtotal and chip alike |
| `Chip.Processor.TallyLinks` | mcpat/processor.cc:360-375 | so does that of later links |
| `Chip.Processor.AddNocAreas` | mcpat/processor.cc:320-349 | subtotal and chip gain the networks' own areas, each as often as it counts; a router's is its nodes', a bus's that of its wires on the chip so far; it fails only on a side that is not positive, which sound networks on a chip with area do not have |
| `Chip.Processor.LinkUp` | mcpat/processor.cc:355-360 | one network gains the wires of its links on the chip of that moment |
| `Chip.Processor.AddNocLinks` | mcpat/processor.cc:355-377 | exactly the routers with global links get them, each on the chip with all networks and the earlier links, and subtotal and chip gain their area as often as it counts |
| `Chip.Processor.AddNocPower` | mcpat/processor.cc:379-402 | subtotal and chip gain the networks' power |
| `Chip.Processor.AddNocs` | mcpat/processor.cc:318-403 | over all three loops the chip gains what the subtotal holds, and every network has the area and link length its plan and place give it |
| `Chip.LinksGrow` | mcpat/noc.cc:143-158 | links of a sound network on a positive side have positive length and take no negative area |
| `Chip.LinkLengthMeans` | mcpat/noc.cc:143-148 | links as many as the mean of a row and a column make up the side, or half of it if there are several nodes |
| `Chip.MeshLinks` | mcpat/noc.cc:143-148 | the links of an n by n mesh are a 2n-th of the side |
| `Chip.LinkedPortsMeans` | mcpat/noc.cc:149-158 | all ports of a router but a local input and output have links |
| `Chip.Processor.AddController` | mcpat/processor.cc:253-316 | a controller is added to its subtotal and the chip if it is there |
| `Chip.Processor.AddControllers` | mcpat/processor.cc:253-316 | the four kinds of controllers, each scaled as its kind is |
| `Chip.FlashMeans` | mcpat/processor.cc:269-284 | n flash controllers are n unscaled units |
| `Chip.InterfaceMeans` | mcpat/processor.cc:286-316 | n interfaces are n units whose energies, runtime ones too, become power by their clock |
| `Chip.Processor.AddGroups` | mcpat/processor.cc:105-251 | the five groups, L2s only if not private |
| `Chip.Processor.Build` | mcpat/processor.cc:48-413 | area is conserved in every mix of groups and the networks' part is that of the finished networks; peak and runtime power are conserved if and only if the first-level directories are balanced; it fails on mismatched private L2s or a side that is not positive and nowhere else, and not at all if these match, the chip has area before its networks and the networks are sound |
| `Chip.Balance` | mcpat/processor.cc:105-402 | the chip's total against the sum of subtotals, with the directories moved to the end |
| `Chip.DirectoryBalanced` | mcpat/processor.cc:212-221 | directories contribute what their subtotal holds if and only if they are homogeneous or scaling changes none of the six dynamic sums |
| `Chip.RawDiffersInDynamic` | mcpat/processor.cc:212-221 | what is unscaled differs in dynamic figures only |
| `Chip.SurplusMissing` | mcpat/processor.cc:212-221 | by how much each dynamic sum falls short |
| `Chip.DirectoryUnbalanced` | mcpat/processor.cc:217 | one directory that burns energy and is not clocked at one hertz breaks the conservation |
| `CorePipeline.Core.constructor` | mcpat/core.cc:1814-1856 | the units a core starts with |
| `CorePipeline.Core.GiveArea` | mcpat/core.cc:1871-1890 | an existing unit grows by the share and enters the core |
| `CorePipeline.Core.AddAreas` | mcpat/core.cc:1858-1910 | the core's area is the units' own plus one share for each unit that takes one; it holds the pipelines exactly once if and only if no unit is missing or they have no area |
| `CorePipeline.Core.GivePower` | mcpat/core.cc:3890-3923 | the same for power, under the unit's duty cycle |
| `CorePipeline.Core.AddPeakPower` | mcpat/core.cc:3871-3936 | the core's peak power is the units' own plus the pipeline's by the sum of the masks; its leakage holds the pipelines' exactly once if and only if no unit is missing or there is none to hold |
| `CorePipeline.PipelineHeldOnce` | mcpat/core.cc:1858-1909 | area and peak leakage hold the pipelines exactly once if and only if no unit is missing or there is no pipeline, in 5-way and 4-way splits |
| `CorePipeline.SharedExactlyOnce` | mcpat/core.cc:1860-1867 | shares add up to the whole exactly when each is taken, or the whole is zero |
| `CorePipeline.MaskLeakage` | mcpat/core.cc:3882-3918 | all leakage figures are shared alike, independently of duty cycles |
| `CorePipeline.DynamicShare` | mcpat/core.cc:3882-3923 | a complete core's dynamic share: each unit's part by its duty cycle, memory management by the mean of one and the load-store unit's, renaming in full |
| `CorePipeline.L2Clocked` | mcpat/core.cc:3927-3934 | a private L2's dynamic power is by the ratio of the clocks, its leakage as it is |
| `CorePipeline.DynamicBounded` | mcpat/core.cc:3882-3918 | with duty cycles between 0 and 1 no more than the whole dynamic power is shared out |
| `Sweep.StepKeeps` | vary_rob_lsq.py:101-144 | every step keeps the pool within its bound and every job in exactly one place |
| `Sweep.RunSafe` | vary_rob_lsq.py:101-144 | in every state of every run: pool bounded, each started job active or parsed and so once, nothing parsed before its process exited |
| `Sweep.LiveBounded` | vary_rob_lsq.py:120-135 | no more processes are alive than the pool may hold |
| `Sweep.RunComplete` | vary_rob_lsq.py:140-144 | a run that ends has parsed every job exactly once, after its exit |
| `Sweep.CanAlwaysEnd` | vary_rob_lsq.py:119-144 | from every reachable state some run goes on to the end, if and only if the pool may hold a job or none is left to start |
| `Sweep.Sweeper.constructor` | vary_rob_lsq.py:101-102 | the sweep starts with an empty pool and no results |
| `Sweep.Sweeper.Parse` | vary_rob_lsq.py:126-128 | a job's results are kept if it left any, and read of an ended process only |
| `Sweep.ResultsExactly` | vary_rob_lsq.py:126-128 | results are those of the jobs that left a file, as often as they were read |
| `Sweep.ResultsInOrder` | vary_rob_lsq.py:126-128 | and in the order in which they were read |
| `Sweep.Sweeper.Poll` | vary_rob_lsq.py:123 | a process found ended has exited, and an exited one is found so |
| `Sweep.Sweeper.Wait` | vary_rob_lsq.py:141 | after the wait the process has exited |
| `Sweep.Sweeper.ReapPass` | vary_rob_lsq.py:121-129 | a pass keeps those whose poll finds them alive and parses the others, both in order, for all answers |
| `Sweep.Sweeper.FinalWait` | vary_rob_lsq.py:140-144 | the last loop waits for what remains and parses it, in order |
| `Sweep.PassIsPolls` | vary_rob_lsq.py:121-129 | the loop over the pool is a run of polls and exits, for all answers the processes can give |
| `Sweep.PassReaches` | vary_rob_lsq.py:120-130 | what the method leaves after a pass, the transition system reaches |
| `Sweep.FinalWaitReaches` | vary_rob_lsq.py:140-144 | what the last loop leaves, the transition system reaches, at its end |
| `Sweep.PassDrains` | vary_rob_lsq.py:121-129 | once all have exited, one pass empties the pool |
| `Arbiter.SelectionLogic.CountArbiters` | mcpat/logic.cc:86-92 | the loop counts the arbiters of all levels and leaves a window of at most four |
| `Arbiter.EnoughArbiters` | mcpat/logic.cc:86-92 | n inputs get at least (n - 1) / 3 arbiters |
| `Arbiter.FewArbiters` | mcpat/logic.cc:86-92 | rounding wastes at most one arbiter a level |
| `Arbiter.TreeHeight` | mcpat/logic.cc:88-92 | with L rounds n lies above the L-th and not above the next power of four |
| `Arbiter.FullTrees` | mcpat/logic.cc:86-92 | the lower bound is met if and only if n is a positive power of four |
| `PowerOfTwo.AndBits` | simulate.py:96 | the operator is bitwise and, on all integers and all bits |
| `PowerOfTwo.BitTest` | simulate.py:151-177 | over all integers the test passes exactly zero and the powers of two |
| `PowerOfTwo.StrictTest` | simulate.py:96-98 | with the sign check it passes exactly the powers of two |
| `PowerOfTwo.OptionsPass` | simulate.py:151-200 | which sizes each option accepts, ignores or refuses |
| `PowerOfTwo.MinimumsPass` | simulate.py:161-195 | branch target buffers pass as powers of two from 128 on, return stacks from 16 on, first-level caches from 2 on; an option not given passes as the default |
| `PowerOfTwo.CheckSizes` | simulate.py:90-105 | the loop accepts exactly four powers of two of which the third is at least 128 and the fourth at least 16 |

## Left out

- ArraySearch: the tag array and the queue a result also owns are one block with its data array, since they are freed together.
- The solver's own search (mcpat/cacti) is a parameter; the scaling of the delivered result's figures (mcpat/array.cc:225-292) is straight arithmetic.
- Reader.XmlParser.ParseSystem: a parameter or component without the attribute that is looked at counts as one with an empty attribute, and the loop over the system's parameters is a function.
- Reader.XmlParser.ReadRun: what is read inside a component is not modelled, only which component a slot is filled from; of the lists inside, `CommaList` models the integer ones, not the floating-point ones.
- Decimal.AtoiToString: integers are unbounded, so an overflow of the C conversion is not modelled.
- Template.Expander.PrepareTemplate: a grandchild of a core without a value keeps having none; the script would store a null there.
- Template.ExpansionLaw: is stated for one core and one L2 template in that order, as the reader demands; the position law of one expansion and termination hold for all lists.
- Composition.CompatibleAccepted: like its counterpart, is stated for templates whose components stand in the reader's order, with all parameters in front of the core; comments and statistics may stand anywhere.
- StatExpr.SubstitutionExactly: excludes values that are empty or begin with an 's', which a wrong place may not show. Being clean is exact for the texts along the way; two wrong substitutions can still end in the right text.
- StatExpr.SafeIsClean: is a sufficient condition on the expression and the values; it leaves out expressions in which "stats" stands outside references, and values made of 't' and 'a' only or holding an 's'.
- TotalCycles.TotalOfExpression: every reference of the expression is a statistic of one cpu, in which "cpu." occurs once.
- Arithmetic.GroupsSum: the evaluator covers numbers, the four operations, and parentheses, not all of Python; how a numeral is read is a parameter.
- Substitution of configuration values and `getConfValue` (gem5tomcpat.py:260-324). Names of configuration values may also hold brackets, which the substitution then reads as character classes.
- Scanner.EscapeRoundTrip: word characters are the ASCII ones; Python's also hold other scripts' letters. Evaluation and name lookup are parameters.
- Formatter.CodeFormatter.constructor: initial arguments are left out. Appending one formatter to another and writing to a file are not modelled either.
- Blob.BytesToCppArray: the formatter's level is not negative, as it is after any run without negative indentations.
- Chip.Noc.InitLinkBus: requires at least two nodes along the two axes together, below which the source goes on with an infinite length; so does the constructor for a bus. Networks' energies are a function of the link length.
- CorePipeline.Core.AddPeakPower: the runtime branch of the same method is not modelled.
- Sweep.CanAlwaysEnd: that a run can go on to the end, not that it must, since nothing forces a process to exit or the load to fall; the launch loop is a transition system and not a method for that reason.
- PowerOfTwo.CheckSizes: takes the numbers, not the text of the option.
- Constants and curve fits of controllers, functional units and wires, all printing, the Excel output, the container launcher and the gem5 sources.
- mcpat/gem5tomcpat.py, a near copy of the root script, and the other scripts over the formatter, which hold no state of their own.
