# Verified models of gometalinter's algorithms

Most of gometalinter starts processes and moves their output about. The algorithms are in the linters
that it carries with it and in the YAML library of one of them. This project models them and proves what
they are for. Code that changes things step by step is modelled by classes and loops with the same
fields and branches; each is proved against a value-level specification, and the properties are lemmas
about that specification.

| files | what they model |
|---|---|
| SuffixTree*.dfy | dupl: online construction of a suffix tree with suffix links, and the maximal repeats found from it |
| Ineff*.dfy | ineffassign: the builder of the block graph with exactly its edges, the search for uses, and why a report is right, also for executions on a store |
| Misspell*.dfy | misspell: the trie replacer with its byte table, against a scan of the rule list |
| Maligned*.dfy | maligned: sizes, alignments and the order of struct fields |
| RunLinters.dfy | the goroutines of `runLinters` as a step machine |
| Partition.dfy, Glob.dfy | command lines cut to a maximal size; glob patterns |
| YamlEvents/Steps/Parser/Builder.dfy | yaml.v2: token streams to events to trees |
| YamlPresent/Keyed.dfy | yaml.v2: how trees are presented as tokens, and which presentations are read back |
| YamlQueue/Fetch/Scanner/Eager.dfy | yaml.v2: the token queue, simple keys and indentation |
| YamlLayout.dfy | yaml.v2: how trees are laid out as lexemes, and the tokens that they give |
| YamlUnicode/Reader.dfy | yaml.v2: the chunked transcoder |
| YamlChars/QuoteWriter/QuoteScanner/Quotes/Folding.dfy | yaml.v2: quoted scalars written and scanned again, and scanned from any text |
| Options.dfy | a helper |

`dafny verify dfyconfig.toml` checks everything.

## Findings

Six properties that one would expect do not hold of the code. Each has an input and the exact condition.

- Deadlock after failures (execute.go:68, main.go:232-244). The error channel has room for as many errors as
  there are linters, it is read only after the issue channel is closed, and a linter sends one error for each
  partition that fails. Input: one linter with two partitions that both fail (`RunLinters.TwoFailuresBlock`).
  Condition on a run: it closes both channels, if it goes on as long as it can, iff the errors are not more than
  the linters, and the concurrency is not 0 if there is a job (`RunLinters.MaximalRuns`). Condition before the
  call: the channels are closed whatever the executions do iff the linters that cannot be partitioned and the
  jobs of the others together are not more than the linters, and the concurrency is not 0 if there is a job
  (`RunLinters.AlwaysClosesIff`).
- Endless recursion in the partitioner (partition.go:75-90). `new` adds the base arguments by `add`, and `add`
  calls `new` when they do not fit. Input: any base arguments longer than the maximum. Condition: it comes to
  an end iff the base arguments fit (`Partition.NewEndsIff`).
- The "optimal" struct size is not optimal on amd64p32 (_linters/src/github.com/mdempsky/maligned/maligned.go:70-125),
  where words have 4 bytes and alignments go up to 8, so that the 12 bytes of a slice are not a multiple of its
  alignment. Input: two slices and two 4-byte fields, 40 bytes instead of 32 (`MalignedOrder.SlicesWaste`).
  Condition: the order is best for all structs iff word size equals largest alignment (`MalignedOrder.AlwaysBestIff`).
- The YAML node builder panics when it is called again after the parser has failed
  (_linters/src/gopkg.in/yaml.v2/decode.go:101-160): there is no event then, and that is not one it knows. Input: a
  stream that breaks off right after its start, such as the text `@`, and two calls
  (`YamlBuilder.PanicsOnSecondCall`). Condition, for any number of calls on any tokens: a call panics iff the stream
  has a start and an earlier call failed because the parser did (`YamlBuilder.Calls`). It does not panic after
  an unknown anchor, which fails again in the same way, nor if the stream has no start, where every later call
  fails to find it (`YamlBuilder.FailsOnSecondCall`).
- The YAML parser passes over a token where a single pair of a flow sequence has an empty key
  (_linters/src/gopkg.in/yaml.v2/parserc.go:833-852): the `:` before its value, a comma, or the end of the sequence.
  Input: `[? : v]`, where the value comes out empty and the parser fails at `v` (`YamlKeyed.EmptyKeyFails`).
  Condition: a presentation of documents is read back iff in every single pair with an empty key the value is
  empty as well, with its `:`, or there is none and the pair is the last one before a trailing comma
  (`YamlKeyed.ReadIff`).
- Ineffassign walks an assignment from the left and assigns as it goes, while the operands of all parts are
  evaluated first (_linters/src/github.com/gordonklaus/ineffassign/ineffassign.go:233-259). Input:
  `i = 5; i, a[i] = 1, 2`, where `i = 5` is reported although `a[i]` reads it (`IneffOrder.IndexExample`). Condition:
  an assignment is misread in some program iff it assigns a variable before an operand further right that reads it,
  unless a right-hand side or an operand before reads it, too (`IneffOrder.MisreportedIff`); in a body without such
  assignments every report is harmless (`IneffChecker.CheckFunction`).

One precondition is necessary. Folded scalars need indentation
(_linters/src/gopkg.in/yaml.v2/emitterc.go:1201-1219, scannerc.go:2313-2325): all values come back from double quotes
iff it is at least 1 (`YamlQuotes.AlwaysReadsBackIff`); with 0, a line broken before a document indicator cannot be
scanned again (`YamlQuotes.NoMarginExample`). The emitter's formula gives scalars no less than 1
(`YamlQuotes.ScalarsHaveMargin`), so this is no input that the code receives.

## Model

| member | source | states |
|---|---|---|
| SuffixTree.STree.constructor | _linters/src/github.com/mibk/dupl/suffixtree/suffixtree.go:31-39 | A new tree is valid for the empty text: root and auxiliary state only, no suffix pending. |
| SuffixTree.STree.Update | _linters/src/github.com/mibk/dupl/suffixtree/suffixtree.go:42-49 | After any number of calls with any tokens the tree is valid for the whole text (the heap is the value tree `t`, which meets `Between`, from which the four lemmas below follow), and over the whole run there are at most 2 + 2n states, at most n forks and at most n edge advances of `canonize`. |
| SuffixTree.STree.UpdateTree | _linters/src/github.com/mibk/dupl/suffixtree/suffixtree.go:52-79 | One token: the loop ends, the tree over `end` tokens becomes one over `end + 1`, no suffix link is missing at the end, and the pair where it stops already goes on with the new token. |
| SuffixTree.STree.OneRound | _linters/src/github.com/mibk/dupl/suffixtree/suffixtree.go:52-79 | One turn of the loop either stops with the tree unchanged, or puts in exactly one leaf and makes at most as many advances as `start` grows by. |
| SuffixTree.STree.TestAndSplit | _linters/src/github.com/mibk/dupl/suffixtree/suffixtree.go:85-104 | The end point is reported iff the pair goes on with the new token; otherwise the state returned is explicit, spells the pending suffix and has no transition for the new token. |
| SuffixTree.STree.SplitTran | _linters/src/github.com/mibk/dupl/suffixtree/suffixtree.go:85-104 | The heap after the split is the value-level split of the transition: the old one is cut before the split point and the new state goes on with the rest. |
| SuffixTree.STree.Canonize | _linters/src/github.com/mibk/dupl/suffixtree/suffixtree.go:109-136 | For every readable pair (also from the auxiliary state) no transition is missing on the way, so neither panic is reached; the result is canonical, denotes the same string, and each edge followed raises `start`. |
| SuffixTree.STree.ForkState | _linters/src/github.com/mibk/dupl/suffixtree/suffixtree.go:179-183 | The heap gets one open leaf transition below the state and nothing else changes. |
| SuffixTree.STree.Lookup | _linters/src/github.com/mibk/dupl/suffixtree/suffixtree.go:186-199 | The transition that starts with the token, or nil iff there is none. |
| SuffixTreeSteps.TreeIsExact | _linters/src/github.com/mibk/dupl/suffixtree/suffixtree.go:42-104 | Between updates the strings that can be read from the root are exactly the substrings of the text seen so far. |
| SuffixTreeSteps.LinksDropFirst | _linters/src/github.com/mibk/dupl/suffixtree/suffixtree.go:52-79 | Between updates every branching state but the root has a suffix link, and its target spells the string of the state without the first token. |
| SuffixTreeSteps.LeafSuffixIsNew | _linters/src/github.com/mibk/dupl/suffixtree/suffixtree.go:52-79 | A suffix that has its leaf occurs nowhere earlier; as the pending suffix does, the active point is the longest suffix that also occurs before. |
| SuffixTreeSteps.EndPointExplicit | _linters/src/github.com/mibk/dupl/suffixtree/suffixtree.go:52-79 | While a new state still waits for its suffix link the update can stop only at an explicit state, so the link never goes to a state that is not there. |
| SuffixTreeSteps.UniqueEndGivesAllLeaves | _linters/src/github.com/mibk/dupl/suffixtree/suffixtree.go:42-104 | If the last token occurs nowhere else, every suffix has its own leaf. |
| SuffixTreeModel.SplitInv | _linters/src/github.com/mibk/dupl/suffixtree/suffixtree.go:85-104 | Splitting a transition at any place within its label keeps the tree invariant. |
| SuffixTreeModel.ForkInv | _linters/src/github.com/mibk/dupl/suffixtree/suffixtree.go:179-183 | A new leaf for the next suffix keeps the tree invariant. |
| SuffixTreeDupl.FindDuplOver | _linters/src/github.com/mibk/dupl/suffixtree/dupl.go:59-67 | For a text with a unique last token and a threshold of at least 1: a match is reported for a string iff it is at least that long, is followed by two different tokens and preceded by two different contexts; each such string once, and each match lists every occurrence exactly once. |
| SuffixTreeDupl.WalkTrans | _linters/src/github.com/mibk/dupl/suffixtree/dupl.go:69-98 | Of one transition: the context list holds exactly the occurrences of the string it leads to, by context, and the matches sent are exactly the maximal repeats below it. |
| SuffixTreeDupl.ContextList.Append | _linters/src/github.com/mibk/dupl/suffixtree/dupl.go:47-55 | The lists of both, merged context by context. |
| SuffixTreeDupl.ContextList.GetAll | _linters/src/github.com/mibk/dupl/suffixtree/dupl.go:34-45 | Every position once, by ascending context. |
| SuffixTreeRepeats.BranchingIsTwoNext | _linters/src/github.com/mibk/dupl/suffixtree/dupl.go:69-98 | The branching states of the finished tree are exactly the strings that are followed by two different tokens. |
| IneffChecker.CheckFunction | _linters/src/github.com/gordonklaus/ineffassign/ineffassign.go:369-386 | For every well-formed function body: the graph lays it out and has exactly the edges of the layout; the identities reported are exactly the assignments to non-escaping variables, in blocks that can be reached from the first, whose value is not used in the graph; and for each of them, in no execution of the body is the next operation on the variable a use. If the assignments of the body are in order, whatever else a reported one wrote, no execution would read another value or go another way. |
| IneffChecker.DeadIsIneffectual | _linters/src/github.com/gordonklaus/ineffassign/ineffassign.go:547-581 | An assignment that is dead in a graph built for a body is read next in no execution of the body, wherever the execution is cut off. |
| IneffStore.SimpleDoesOps | _linters/src/github.com/gordonklaus/ineffassign/ineffassign.go:233-278 | In a store semantics of its own, where `x++` and `x op= e` compute from the old value and the operands of an assignment are evaluated before any of its parts is assigned, a simple statement in order reads exactly the variables that its operations use, in their order and in the store before it, and writes exactly those that they assign. |
| IneffStore.CleanIsHarmless | _linters/src/github.com/gordonklaus/ineffassign/ineffassign.go:369-386 | An assignment that is read next in no execution of the body could write any other value: in every execution, complete or cut off, all that is read and the way it goes stay the same. |
| IneffOrder.MisreportedIff | _linters/src/github.com/gordonklaus/ineffassign/ineffassign.go:233-259 | There is a program with this assignment in which a value that is read is reported, iff the assignment is out of order: it assigns a variable before an operand further right that reads it. |
| IneffOrder.IndexExample | _linters/src/github.com/gordonklaus/ineffassign/ineffassign.go:233-259 | `i = 5; i, a[i] = 1, 2`: `i = 5` is reported although `a[i]` reads it. |
| IneffChecker.FindUse | _linters/src/github.com/gordonklaus/ineffassign/ineffassign.go:583-598 | On every graph, with cycles: the search ends, answers yes only if a path reaches a use before another assignment, and exactly then if nothing seen before was cut short; a search that fails leaves `seen` closed, so that sharing it loses nothing. |
| IneffChecker.Checker.UsedAfter | _linters/src/github.com/gordonklaus/ineffassign/ineffassign.go:547-581 | With one `seen` shared by all children the answer is yes iff some child starts a path to a use. |
| IneffChecker.Checker.CheckBlock | _linters/src/github.com/gordonklaus/ineffassign/ineffassign.go:547-581 | Reports exactly the dead assignments of the block, and keeps earlier reports. |
| IneffChecker.Checker.Check | _linters/src/github.com/gordonklaus/ineffassign/ineffassign.go:547-581 | Visits every block below the given one once, whatever the cycles, and reports exactly their dead assignments. |
| IneffDead.UsedCases | _linters/src/github.com/gordonklaus/ineffassign/ineffassign.go:583-598 | Liveness of a position: the rest of its block starts with a use of the variable, or does not touch it and a child is live. |
| IneffDead.SeenNotUsed | _linters/src/github.com/gordonklaus/ineffassign/ineffassign.go:583-598 | In a set of blocks each of which was searched without success, no block is live. |
| IneffSound.WalkSound | _linters/src/github.com/gordonklaus/ineffassign/ineffassign.go:126-355 | If a graph lays out a statement, then in every execution, wherever it is cut off, the graph foresees each use as the next operation on its variable; no full trace inclusion is claimed. |
| IneffSound.SwitchSound | _linters/src/github.com/gordonklaus/ineffassign/ineffassign.go:388-434 | The same for switch, although the way past all clauses leaves from the block before them and not from the last case expression: those hold only uses. |
| IneffBuilder.Builder.Visit | _linters/src/github.com/gordonklaus/ineffassign/ineffassign.go:126-355 | Building a statement into the block graph leaves the older blocks as they were, adds each of its assignments once, the graph lays the statement out from where the builder was to where it is, and the edges are exactly the old ones and those of that layout. |
| IneffBuilder.Builder.VisitIf | _linters/src/github.com/gordonklaus/ineffassign/ineffassign.go:134-146 | The same for if, with or without else: no edge but to the two ways, within them, and from their ends to the block after. |
| IneffBuilder.Builder.VisitFor | _linters/src/github.com/gordonklaus/ineffassign/ineffassign.go:147-162 | The same for loops with condition and post statement: the blocks of break and continue, and no others, get their edges through the branch stacks. |
| IneffBuilder.Builder.VisitRange | _linters/src/github.com/gordonklaus/ineffassign/ineffassign.go:163-182 | The same for range. |
| IneffBuilder.Builder.VisitSwitch | _linters/src/github.com/gordonklaus/ineffassign/ineffassign.go:388-434 | The same for switch: the chain of list blocks, fallthrough, the default clause entered from the last list block, or the way past all clauses, and no other edges. |
| IneffBuilder.Builder.Jump | _linters/src/github.com/gordonklaus/ineffassign/ineffassign.go:220-231 | Break and continue make the current block a source of the branch that the label (or the innermost statement) names; the graph does not change yet. |
| IneffBuilder.Builder.AddSource | _linters/src/github.com/gordonklaus/ineffassign/ineffassign.go:515-520 | The block is remembered, and connected at once iff the destination is known. |
| IneffBuilder.Builder.SetDestination | _linters/src/github.com/gordonklaus/ineffassign/ineffassign.go:522-527 | Every source so far gets its edge, and nothing else changes. |
| IneffBuilder.Builder.Get | _linters/src/github.com/gordonklaus/ineffassign/ineffassign.go:506-513 | The innermost branch, or the innermost one with the label. |
| IneffBuilder.Builder.NewBlock | _linters/src/github.com/gordonklaus/ineffassign/ineffassign.go:452-458 | A new current block below exactly the parents given. |
| IneffEdges.ClauseDrawn | _linters/src/github.com/gordonklaus/ineffassign/ineffassign.go:388-434 | One clause adds the edges to its list and body, from a body before it that falls through, and within its body, and no others. |
| IneffEdges.ForTailDrawn | _linters/src/github.com/gordonklaus/ineffassign/ineffassign.go:147-162 | The end of a loop adds the edges of continue, post statement, condition and break, and no others. |
| IneffGrowth.OnePlace | _linters/src/github.com/gordonklaus/ineffassign/ineffassign.go:475-498 | If identities are distinct, an assignment has one place in the graph. |
| MisspellReplacer.GenericReplacer.constructor | _linters/src/github.com/client9/misspell/stringreplacer.go:207-237 | From any rules with lower-cased keys: the trie holds exactly the keys, each with its first rule. |
| MisspellReplacer.GenericReplacer.Lookup | _linters/src/github.com/client9/misspell/stringreplacer.go:160-205 | The earliest rule in the list whose key is a case-insensitive prefix (the empty key not if the root is ignored), and nothing iff there is none. |
| MisspellReplacer.GenericReplacer.WriteString | _linters/src/github.com/client9/misspell/stringreplacer.go:279-336 | For every text, also with an empty key: the loop ends and what is written is the left-to-right scan of the rule list, with each unmatched byte once; the count is that of the bytes written, and a failing writer has got a prefix of it. |
| MisspellReplacer.GenericReplacer.Replace | _linters/src/github.com/client9/misspell/stringreplacer.go:273-277 | The result is the left-to-right scan of the rule list. |
| MisspellReplacer.GenericReplacer.StartsNoKey | _linters/src/github.com/client9/misspell/stringreplacer.go:279-336 | The fast path skips a byte only where no rule matches. |
| MisspellReplacer.NothingToReplace | _linters/src/github.com/client9/misspell/stringreplacer.go:279-336 | A text in which no rule matches anywhere is not changed. |
| MisspellReplacer.MakeCoding | _linters/src/github.com/client9/misspell/stringreplacer.go:207-237 | The byte table: bytes that occur in keys get distinct indexes below the table size, all others get the table size. |
| MisspellReplacer.BestIsFirst | _linters/src/github.com/client9/misspell/stringreplacer.go:160-205 | The match of highest priority along the trie is the first rule of the list that matches. |
| MisspellTrie.AddFinds | _linters/src/github.com/client9/misspell/stringreplacer.go:97-158 | After adding a key exactly that key is found in addition, and a key that was there keeps its rule; in all cases of prefix splitting and table creation. |
| MisspellTrie.AddShape | _linters/src/github.com/client9/misspell/stringreplacer.go:97-158 | Adding keeps the shape of the trie: no prefix is empty, prefixes hold only bytes that occur in keys, tables have the size of the coding, and every entry has a positive priority. |
| MisspellNode.TrieNode.AddKey | _linters/src/github.com/client9/misspell/stringreplacer.go:97-158 | The heap nodes after `add` are the trie as a value after adding. |
| MisspellAscii.StringEqualFold | _linters/src/github.com/client9/misspell/ascii.go:31-48 | Equality letter by letter with bit 5 set is equality after lower-casing. |
| MisspellAscii.StringHasPrefixFold | _linters/src/github.com/client9/misspell/ascii.go:53-62 | A case-insensitive prefix, for texts of any lengths. |
| MisspellAscii.LettersAgree | _linters/src/github.com/client9/misspell/ascii.go:23-48 | The two folding routines agree on every pair of bytes. |
| MisspellAscii.ByteToLower | _linters/src/github.com/client9/misspell/ascii.go:15-20 | The branchless conversion lowers exactly the letters A to Z, on all 256 bytes. |
| Maligned.Malign | _linters/src/github.com/mdempsky/maligned/maligned.go:53-68 | A report is made iff some order of the fields makes the struct smaller, and the size reported is the least of all orders, where word size and largest alignment agree (amd64, 386), or whenever the fields' sizes are multiples of their alignments. |
| Maligned.OptimalSize | _linters/src/github.com/mdempsky/maligned/maligned.go:70-89 | The size of the struct whose fields are a permutation of the given ones sorted by `Less`. |
| Maligned.ByAlignAndSize.Sort | _linters/src/github.com/mdempsky/maligned/maligned.go:70-125 | The three parallel slices stay in step; the fields are permuted and end up sorted. |
| Maligned.ByAlignAndSize.Less | _linters/src/github.com/mdempsky/maligned/maligned.go:98-125 | Zero-sized first, then by alignment downwards, then by size downwards, as an order on types. |
| Maligned.ComputeAlignof | _linters/src/github.com/mdempsky/maligned/maligned.go:127-175 | The loops compute the recursive alignment. |
| Maligned.ComputeSizeof | _linters/src/github.com/mdempsky/maligned/maligned.go:177-223 | The loops compute the recursive size, with the extra byte for a trailing zero-sized field. |
| MalignedOrder.SortedIsBest | _linters/src/github.com/mdempsky/maligned/maligned.go:70-125 | If sizes are multiples of power-of-two alignments, the sorted order takes the sum of the sizes rounded up to the largest alignment, and no permutation takes less, the rule for a trailing zero-sized field included. |
| MalignedOrder.AlwaysBestIff | _linters/src/github.com/mdempsky/maligned/maligned.go:70-125 | The sorted order is best for all structs iff word size equals largest alignment. |
| MalignedOrder.SlicesWaste | _linters/src/github.com/mdempsky/maligned/maligned.go:70-125 | On amd64p32 two slices and two 4-byte fields take 40 bytes in sorted order and 32 in another. |
| MalignedLayout.SizeIsMultiple | _linters/src/github.com/mdempsky/maligned/maligned.go:127-223 | Where word size equals largest alignment, the size of every type is a multiple of its alignment. |
| MalignedLayout.AllAlignedIff | _linters/src/github.com/mdempsky/maligned/maligned.go:127-223 | It is so for all types iff word size equals largest alignment. |
| MalignedLayout.HeadersAreStructs | _linters/src/github.com/mdempsky/maligned/maligned.go:177-223 | Strings, interfaces and slices take as much as structs of two, two and three words. |
| MalignedLayout.AlignIsLeast | _linters/src/github.com/mdempsky/maligned/maligned.go:226-229 | `align` gives the least multiple not below its argument. |
| RunLinters.Safety | execute.go:67-138 | In every interleaving: at most `concurrency` executions at once, jobs start in order and each once, the channels are closed only when every goroutine that sends has ended, the wait group does not fall below zero, the error channel stays within its capacity. |
| RunLinters.StepKeeps | execute.go:96-136 | Every step of every goroutine keeps the invariant of the protocol. |
| RunLinters.MaximalRuns | execute.go:67-138 | A run that cannot go on has closed both channels iff there are at most as many errors as linters (and something may execute if there is anything to do); then every job has run, and all issues and errors were delivered. |
| RunLinters.AlwaysClosesIff | execute.go:67-138 | What a caller can know: every maximal run closes the channels, whatever the executions do, iff the linters that cannot be partitioned and the jobs of the others are together not more than the linters (and something may execute if there is anything to do). |
| RunLinters.RunIsBounded | execute.go:96-136 | No run is longer than a measure of the configuration. |
| RunLinters.RunsGoOn | execute.go:96-136 | Every run can be continued to one that cannot go on. |
| RunLinters.ProgramRuns | execute.go:98-130 | The jobs started are the partitions of the linters in order; the errors are those of partitioning and of failed executions. |
| RunLinters.TooManyErrors | execute.go:67-138 | With more errors than linters no run closes the channels. |
| RunLinters.TwoFailuresBlock | execute.go:67-138 | One linter with two partitions that both fail is enough for that. |
| Partition.PartitionToMaxSize | partition.go:53-67 | Parts are the base arguments with consecutive chunks of the paths; all parts keep within the maximum iff every path does with the base alone, and then no chunk is empty and no other cut has fewer. |
| Partition.GreedyIsBest | partition.go:69-97 | Among all order-preserving cuts that fit, the greedy one has the fewest chunks. |
| Partition.NewEndsIff | partition.go:75-90 | `new` and `add`, which call each other, come to an end iff the base arguments alone fit. |
| Partition.SizePartitioner.Add | partition.go:75-81 | The argument joins the current part iff it fits; otherwise that part is ended and the argument follows the base arguments in a new one. |
| Partition.SizePartitioner.New | partition.go:83-90 | The current part is ended (if there is one) and the next starts with the base arguments, without another part in between. |
| Glob.Glob | _linters/src/github.com/ryanuber/go-glob/glob.go:11-56 | True iff the subject is the pattern with some string in the place of every star. |
| Glob.FirstIsBest | _linters/src/github.com/ryanuber/go-glob/glob.go:11-56 | Taking the first occurrence of a piece loses no match. |
| Glob.FoundIsMatch | _linters/src/github.com/ryanuber/go-glob/glob.go:11-56 | Finding the pieces in order is matching the pattern from a star on. |
| YamlParser.Parser.Parse | _linters/src/gopkg.in/yaml.v2/parserc.go:62-73 | For every token stream: nothing after an error or the end; otherwise an error, or an event that the stack of what has to come accepts, with the new stack that of the new state; the `states` and `marks` stacks never underflow. On failure no event is left; the first call succeeds iff the first token is the start of the stream. The event, the tokens taken and the new states and directives are those of the step function, about which YamlPresent and YamlKeyed are. |
| YamlParser.Parser.StateMachine | _linters/src/gopkg.in/yaml.v2/parserc.go:93-169 | Every state dispatches to a production that moves the stack as the grammar of events says. |
| YamlParser.Parser.ParseNode | _linters/src/gopkg.in/yaml.v2/parserc.go:359-573 | On success the event starts or is a node where the stack has one to come, and the states below and the marks are those of what has to come next. |
| YamlParser.Parser.ParseDocumentStart | _linters/src/gopkg.in/yaml.v2/parserc.go:198-276 | On success the event (the start of a document, implicit or explicit, or the end of the stream) is accepted by the stack, and the new state stands for the new stack. |
| YamlParser.Parser.ParseBlockMappingKey | _linters/src/gopkg.in/yaml.v2/parserc.go:675-721 | The same for a key, an empty key or the end of a block mapping, whose stack counts nodes in pairs. |
| YamlParser.Parser.ParseFlowSequenceEntry | _linters/src/gopkg.in/yaml.v2/parserc.go:770-826 | The same for an entry, a single pair or the end of a flow sequence. |
| YamlParser.Parser.ParseFlowMappingKey | _linters/src/gopkg.in/yaml.v2/parserc.go:904-964 | The same for a key, a key without value or the end of a flow mapping. |
| YamlBuilder.AllEvents | _linters/src/gopkg.in/yaml.v2/parserc.go:93-992 | For every token stream the events up to an error are a prefix of STREAM-START (DOCUMENT-START node DOCUMENT-END)* STREAM-END with balanced collections and mappings of even length, and all of one if there was no error. If the tokens present documents, in whatever style, there is no error and the events are those of the documents iff the single pairs of flow sequences have the keys that they need. |
| YamlPresent.NodeReads | _linters/src/gopkg.in/yaml.v2/parserc.go:359-992 | Every presentation of a node (aliases, scalars, empty nodes with properties, block, indentless and flow collections, pairs with or without key and value, trailing commas, tags through declared handles) is read where it stands: its events come out, texts, anchors and tags included, its tokens are taken, and the state below goes on. |
| YamlPresent.StreamReads | _linters/src/gopkg.in/yaml.v2/parserc.go:174-992 | So is every stream of documents, with directives, with or without marks. |
| YamlPresent.RunIsStream | _linters/src/gopkg.in/yaml.v2/parserc.go:62-169 | Any run to its end on such a presentation ends well, with just the events of the documents. |
| YamlKeyed.ReadIff | _linters/src/gopkg.in/yaml.v2/parserc.go:833-852 | A presentation is read back to its end iff no token that matters is passed over where a single pair of a flow sequence has an empty key: the value is empty, too, or there is no value and the last comma follows. |
| YamlKeyed.StepFits | _linters/src/gopkg.in/yaml.v2/parserc.go:93-992 | A potential that no step makes smaller: the ends of flow sequences that are missing. Passing over such an end makes it larger for good, so that no run on a presentation can recover from it. |
| YamlKeyed.EmptyKeyFails | _linters/src/gopkg.in/yaml.v2/parserc.go:833-852 | `[? : v]`: the value is taken for an empty one, and the parser fails at `v`. |
| YamlEvents.AcceptedIff | _linters/src/gopkg.in/yaml.v2/parserc.go:93-992 | The event automaton accepts to the end exactly the streams of documents. |
| YamlEvents.AcceptedIsPrefix | _linters/src/gopkg.in/yaml.v2/parserc.go:93-992 | All that it accepts is a prefix of such a stream. |
| YamlBuilder.Builder.Parse | _linters/src/gopkg.in/yaml.v2/decode.go:141-160 | Callable in every state that calls can reach, after failures too: the tree built spells exactly the events consumed and its aliases name earlier anchors of the document; each failure says which state is left (no event after the parser failed, before or after the start of the stream, or the unknown alias still at hand); the unknown-event panic is reached iff the parser has failed after the start and no event is at hand. |
| YamlBuilder.Calls | _linters/src/gopkg.in/yaml.v2/decode.go:65-160 | Any number of calls on any tokens: a call panics iff the stream has a start and an earlier call failed because the parser did, and each result determines how the next may look; every document has its aliases bound. |
| YamlBuilder.PanicsOnSecondCall | _linters/src/gopkg.in/yaml.v2/decode.go:101-160 | A stream that breaks off right after its start: the first call fails, the second panics. |
| YamlBuilder.FailsOnSecondCall | _linters/src/gopkg.in/yaml.v2/decode.go:65-97 | A stream without a start: the second call fails as well, and does not panic. |
| YamlBuilder.Builder.Expect | _linters/src/gopkg.in/yaml.v2/decode.go:82-97 | Consumes one event of the kind expected and no other; after the parser has failed it fails too, without an event. |
| YamlBuilder.Builder.Peek | _linters/src/gopkg.in/yaml.v2/decode.go:101-109 | The next event stays and asking twice gives the same; once the parser has failed there is none. |
| YamlBuilder.Builder.ParseSequence | _linters/src/gopkg.in/yaml.v2/decode.go:201-210 | The children are those between start and end. |
| YamlBuilder.Builder.ParseMapping | _linters/src/gopkg.in/yaml.v2/decode.go:212-232 | The same, two nodes at a time; the number of children is even. |
| YamlBuilder.Builder.ParseDocument | _linters/src/gopkg.in/yaml.v2/decode.go:170-178 | One root; anchors of earlier documents are forgotten. |
| YamlQueue.TokenQueue.Insert | _linters/src/gopkg.in/yaml.v2/apic.go:7-24 | Whatever room the array has, the token is put in before the one at the position and the order of the others is kept. |
| YamlScanner.AllTokens | _linters/src/gopkg.in/yaml.v2/parserc.go:46-59 | Peeking and skipping to the end hands out, for every layout of trees of block and flow collections as lexemes, exactly the tokens of the trees: KEY and the starts of blocks before the first tokens of simple keys, one end for each block. |
| YamlLayout.StreamScans | _linters/src/gopkg.in/yaml.v2/scannerc.go:665-1425 | When all is fetched first, every good layout gives the tokens of its trees: nested blocks, sequences in the column of their mapping, compact nesting behind `-`, `?` and `:`, simple keys on one line and within 1024 characters, keys with `?`, flow collections with single pairs, properties, document marks. |
| YamlLayout.NodeScans | _linters/src/gopkg.in/yaml.v2/scannerc.go:665-1425 | The same for a node at any indentation; blocks that it leaves open end at the next lexeme in a lesser column. |
| YamlLayout.KeyFitsIff | _linters/src/gopkg.in/yaml.v2/scannerc.go:842-891 | A `:` behind a scalar or alias in a block, not on a new line, makes it a key if it is on the line where that starts and within 1024 characters, and is an error otherwise. |
| YamlLayout.NestedMapping | _linters/src/gopkg.in/yaml.v2/scannerc.go:1428-1485 | The words of `a:` and, on the next line, `  b: 1` give a mapping within a mapping. |
| YamlEager.AllIsEager | _linters/src/gopkg.in/yaml.v2/scannerc.go:626-662 | For all lexemes that stand in the text one behind the other, the tokens handed out in between are those that come out when all is fetched first and old keys are never given up: none is handed out too early, and it fails for the same streams. |
| YamlScanner.Scanner.FetchMoreTokens | _linters/src/gopkg.in/yaml.v2/scannerc.go:626-662 | Fetching ends, keeps the queue invariant (a possible simple key names a token that is in the queue) and makes available a head that no later key can precede; state, tokens and failure are those of the fetch function, about which YamlEager and YamlLayout are. |
| YamlScanner.Scanner.FetchLexeme | _linters/src/gopkg.in/yaml.v2/scannerc.go:665-837 | One lexeme: a new line allows a simple key in block context, old keys are given up, deeper blocks end, and its token and whether a simple key may follow are those of the fetch function. |
| YamlScanner.Scanner.FetchValue | _linters/src/gopkg.in/yaml.v2/scannerc.go:1268-1330 | A `:` after a simple key puts KEY, and BLOCK-MAPPING-START before it if the key opens a block, right before the first token of the key, which is still in the queue, and VALUE at the end; in every case that is no error the invariant holds and nothing was handed out; without a key it is an error in block context unless a key may start there. |
| YamlScanner.Scanner.SaveSimpleKey | _linters/src/gopkg.in/yaml.v2/scannerc.go:867-891 | On success the key at this level has the number that its first token will have, if one may start here, and is otherwise as it was. |
| YamlScanner.Scanner.StaleSimpleKeys | _linters/src/gopkg.in/yaml.v2/scannerc.go:842-863 | Afterwards no possible key is on an earlier line or more than 1024 characters back; an error if one was required. |
| YamlScanner.Scanner.RollIndent | _linters/src/gopkg.in/yaml.v2/scannerc.go:931-955 | A block is opened iff the column is deeper and there is no flow context, with its start token at the place asked for. |
| YamlScanner.Scanner.UnrollIndent | _linters/src/gopkg.in/yaml.v2/scannerc.go:960-981 | One BLOCK-END for each block closed, down to the column. |
| YamlScanner.Scanner.Skip | _linters/src/gopkg.in/yaml.v2/parserc.go:54-59 | The token handed to the parser is the head, and is not the first of a possible key. |
| YamlUnicode.Next8Sound | _linters/src/gopkg.in/yaml.v2/readerc.go:159-253 | What the UTF-8 decoder takes is the encoding of the character that it gives (RFC 3629 section 3). |
| YamlUnicode.Next8Complete | _linters/src/gopkg.in/yaml.v2/readerc.go:159-253 | It takes the encoding of every character allowed. |
| YamlUnicode.Next16Sound | _linters/src/gopkg.in/yaml.v2/readerc.go:254-336 | The same for UTF-16, surrogate pairs included (RFC 2781 section 2.2). |
| YamlUnicode.Next16Complete | _linters/src/gopkg.in/yaml.v2/readerc.go:254-336 | It takes the encoding of every character allowed, in both byte orders. |
| YamlUnicode.EncodingExamples | _linters/src/gopkg.in/yaml.v2/readerc.go:159-336 | The encodings are those of the examples in RFC 3629 section 7 and RFC 2781 section 4. |
| YamlUnicode.DecodingIsUnique | _linters/src/gopkg.in/yaml.v2/readerc.go:91-412 | An input encodes at most one list of characters. |
| YamlReader.Reader.UpdateBuffer | _linters/src/gopkg.in/yaml.v2/readerc.go:91-412 | For requests of up to 8, however the input comes in chunks: on success that much can be read at the buffer position and no write passed the 1536 bytes; it fails only if reading failed or the input is malformed. |
| YamlReader.BomIsMark | _linters/src/gopkg.in/yaml.v2/readerc.go:25-53 | What is taken for a mark is U+FEFF in the encoding that it announces. |
| YamlReader.MarkIsFound | _linters/src/gopkg.in/yaml.v2/readerc.go:25-53 | And such a mark is found, in UTF-8 and in both byte orders of UTF-16. |
| YamlReader.Reader.DeliveredIsDecoding | _linters/src/gopkg.in/yaml.v2/readerc.go:91-412 | If the whole input is a mark in some encoding and some characters in it, or UTF-8 that starts with no mark, the encoding found is that one, what was decoded is a prefix of the characters, and all of them at the end, and no error is found. |
| YamlReader.Reader.Pass | _linters/src/gopkg.in/yaml.v2/scannerc.go:491-496 | Each character passed over is the next one decoded, re-encoded as UTF-8. |
| YamlReader.Reader.UpdateRaw | _linters/src/gopkg.in/yaml.v2/readerc.go:56-85 | Unread bytes are kept and stay in front; a call that is neither at the end nor at a full buffer takes a chunk, bytes or the end of the input. |
| YamlReader.Reader.DetermineEncoding | _linters/src/gopkg.in/yaml.v2/readerc.go:25-53 | On success an encoding is set and the class invariant holds, which says that it is the one of the byte order mark of the whole input, even if that comes byte by byte. |
| YamlQuotes.DoubleQuotedRoundTrip | _linters/src/gopkg.in/yaml.v2/emitterc.go:1429-1548 | For every value, width, line break style, unicode flag, starting column and indentation of at least 1, scanning what was written in double quotes gives the value and stops after the right quote. |
| YamlQuotes.SingleQuotedRoundTrip | _linters/src/gopkg.in/yaml.v2/emitterc.go:1370-1427 | The same for single quotes, whenever they are allowed for the value. |
| YamlQuotes.WriteThenScan | _linters/src/gopkg.in/yaml.v2/emitterc.go:798-888 | Through the emitter's and the scanner's own code: analyse, choose the quotes, write, scan: the value comes back, whatever text follows (after single quotes, any that does not start with another). |
| YamlQuotes.UnescapeUndoesEscape | _linters/src/gopkg.in/yaml.v2/emitterc.go:1440-1516 | Every character is what its escape stands for. |
| YamlQuotes.FoldReads | _linters/src/gopkg.in/yaml.v2/emitterc.go:1201-1219 | A space folded into a line break and indentation reads as one space (YAML 1.2 section 6.5). |
| YamlQuotes.GuardReads | _linters/src/gopkg.in/yaml.v2/emitterc.go:1520-1532 | A fold before another space: the backslash keeps that space. |
| YamlQuotes.BreakPieceReads | _linters/src/gopkg.in/yaml.v2/emitterc.go:1391-1400 | The doubled first break and the kept separators of single quotes read back break by break. |
| YamlQuotes.AlwaysReadsBackIff | _linters/src/gopkg.in/yaml.v2/emitterc.go:1429-1548 | All values on lines of all widths come back from double quotes iff the indentation is at least 1, for each line break style and unicode flag: the precondition of the round trip is necessary. |
| YamlQuotes.NoMarginNoRoundTrip | _linters/src/gopkg.in/yaml.v2/emitterc.go:1201-1219 | Without indentation, a fold before what looks like a document indicator makes the scan fail. |
| YamlQuotes.NoMarginExample | _linters/src/gopkg.in/yaml.v2/emitterc.go:1201-1219 | One such value, for every line break style: `a --- b` on a line of width 0. |
| YamlQuotes.ScalarsHaveMargin | _linters/src/gopkg.in/yaml.v2/emitterc.go:197-210 | The indentation that scalars are written with is at least 1, for every setting. |
| YamlQuoteWriter.Emitter.WriteDoubleQuoted | _linters/src/gopkg.in/yaml.v2/emitterc.go:1429-1548 | The text appended is the function `Double` of value, settings and place, and the column kept is the column of the text. |
| YamlQuoteWriter.Emitter.WriteSingleQuoted | _linters/src/gopkg.in/yaml.v2/emitterc.go:1370-1427 | The same for single quotes. |
| YamlQuoteWriter.Emitter.WriteIndent | _linters/src/gopkg.in/yaml.v2/emitterc.go:1201-1219 | Afterwards the emitter is at the margin, on a new line unless only indentation is before it. |
| YamlQuoteWriter.AnalyzeScalar | _linters/src/gopkg.in/yaml.v2/emitterc.go:984-1130 | Single quotes are allowed iff all characters are printable (and ASCII without the unicode flag) and no space touches a line break; multiline iff there is a break. |
| YamlFolding.ScansIff | _linters/src/gopkg.in/yaml.v2/scannerc.go:2299-2552 | Any text, also one that the emitter would not write, scans to a value iff it is made of words, gaps, folds, joined lines, named and coded escapes and doubled quotes that mean this value: blanks, one break and blanks are a space, k + 1 breaks are k line feeds (YAML 1.2 section 6.5), a backslash, a break and blanks are nothing (section 7.3.1). |
| YamlFolding.NamesAre | _linters/src/gopkg.in/yaml.v2/scannerc.go:2358-2430 | Each named escape is the character of the table in section 5.7 of YAML 1.2, each coded one has its number of digits, and there are no others. |
| YamlFolding.CodeIs | _linters/src/gopkg.in/yaml.v2/scannerc.go:2430-2463 | A coded escape is the character with that number. |
| YamlQuoteScanner.Scanner.ScanFlowScalar | _linters/src/gopkg.in/yaml.v2/scannerc.go:2299-2552 | The loops compute the scan function, about which YamlFolding and YamlQuotes are: the value and the place after the right quote, or the error. |
| YamlQuoteScanner.Scanner.ScanEscape | _linters/src/gopkg.in/yaml.v2/scannerc.go:2358-2463 | Named and coded escapes, and their errors. |
| YamlQuoteScanner.Scanner.ReadLine | _linters/src/gopkg.in/yaml.v2/scannerc.go:538-568 | CR LF, CR, LF and NEL become a line feed; the line and paragraph separators are kept. |
| YamlChars.ByteTestsAreCharTests | _linters/src/gopkg.in/yaml.v2/yamlprivateh.go:58-173 | On the UTF-8 encoding of any character the byte tests (width, blank, break, printable, ASCII, byte order mark) are the tests on the character. |

## Left out

Suffix tree and duplicates:
- `printState`, `String` and `At`, which only show the tree; int32 wrap-around of edge lengths (the open end is a symbol).
- The back pointer from a state to its tree is the parameter `data`; position lists are sequences; the channel of matches is the sequence returned.
- FindDuplOver: requires a unique last token and a threshold of at least 1, as _linters/src/github.com/mibk/dupl/main.go:97 arranges; without such a token some suffixes have no leaf.

Ineffassign:
- Which variables escape (a parameter), function literals, named results, `maybePanic`, select, goto and type information.
- Conditions and ranges are nondeterministic; short-circuit operators are plain lists of uses; definitions by a zero literal and bare declarations are no assignments to report.
- CheckFunction: one function body at a time; identities of assignments are numbers instead of identifiers, so that its last clause speaks of those that occur once.
- Get: a label that is not on the stack, for which the code pushes a new branch, occurs in no program that compiles.

Misspell:
- GenericReplacer.constructor: keys are lower-cased bytes already; restyling a replacement to the case of what it replaces is a parameter; the panic on an odd number of arguments; the writer fails nondeterministically.

Maligned:
- int64 overflow; the loading of packages; `sort.Sort` is an insertion sort by the same comparison and swap.

runLinters:
- Processes, deadlines, output and directives; the issue channel is never full; the reader of errors starts when the issues have ended.

Partition and glob:
- The other partition strategies, which group paths by calls into the file system.
- PartitionToMaxSize: requires that the base arguments fit, because the code does not end otherwise (see Findings).

YAML:
- Marks and positions of events, styles, error messages and their offsets, the allocation of the emitter's buffer and its flushing.
- Tag resolution beyond directives; the node that an alias points to (that its name is bound is stated); decoding into Go values.
- YamlScanner takes tokens from the character level as lexemes: their kind, marks and length are parameters. Both brackets that open a flow collection are one kind there, and so are those that close one; the tokens of the parser tell them apart.
- StreamScans: a `:` with neither a key nor a `?` before it is in no layout (the parser rejects it in blocks).
- Block and plain scalars; comments; URI escapes in tags.
- The read handler is a list of chunks; a request of the scanner is at most 8 characters, as in the code.
- ScalarsHaveMargin: only the formula for the indentation; the emitter states that call it before a scalar are not modelled.
- UpdateBuffer: does not state which error message is set when it fails.
- In the quoted scalars a character is one unit instead of its UTF-8 bytes (`YamlChars.ByteTestsAreCharTests` and YamlUnicode say why that is the same), and the value of a coded escape does not overflow (64-bit int).
- AnalyzeScalar: only what decides about quotes; the flags for plain and block scalars are not modelled.
- DetermineEncoding: that the encoding found is the mark's is in the class invariant that its contract restores.
