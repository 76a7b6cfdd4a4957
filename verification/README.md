# Phlare, modelled and verified

Phlare is a profiling database.  This project models the parts of it whose correctness is hardest
to see from the code, and proves what they promise: that the columnar readers return exactly the
values asked for, that its two distributed protocols are safe in every interleaving, that stacks,
trees and flame graphs hold the same values, that interning and symbolisation keep names, that the
label indexes answer like brute force, that merging conserves values, and that the bucket never
shows an incomplete block.

`dafny verify dfyconfig.toml` checks everything.

| module | what it models |
|---|---|
| `RepeatedPages` | `repeatedPageIterator`: rows of a repeated column reassembled from pages, read in pieces |
| `RowNumbers`, `Iterators`, `ColumnIterator`, `JoinIterator` | row numbering, calls and answers of iterators, the background column scan with its skips, the join |
| `ColumnRows` | what a column scan gives, told from the repetition and definition levels alone |
| `ColumnJoin` | the join over column iterators, whatever their producers do |
| `Labels`, `Deduplication` | the order of profiles; the batched keep/drop protocol between querier and ingesters |
| `Quorum` | the quorum write of the distributor: atomic counters and two one-slot channels |
| `Tree` | stacks folded into a tree of nodes with parent pointers |
| `FlameGraph`, `FlameGraphReader` | the depth-first encoder with delta-encoded offsets; the level-by-level reader |
| `Pipeline` | stacks folded into a tree, encoded and read back |
| `Interning`, `Ingestion` | deduplicating tables; any number of concurrent ingests into the head |
| `Symbolization` | names of merged stacktraces, in the head and through the inverted maps of a block |
| `BlockMerge` | the merge of a block from its columns, next to that of the head |
| `Matchers`, `Postings` | label matchers and set-like regular expressions; postings algebra of blocks |
| `HeadIndex`, `ProfilesIndex` | the sharded inverted index of the head, and matchers split into index and filter |
| `Pprof`, `PprofReferences` | merging of samples while their list is compacted; dropping of unused references |
| `MergeStacktraces` | results merged in place, through shared slices, and sorted by name |
| `RangeSeries` | the heap merge of profile iterators, and points spaced by a step |
| `Shipping` | upload, clean-up, deletion and sync as steps on a bucket that may fail at any of them |

Assumptions are `requires` clauses.  Hashes are injective (`Injective`).  Pages
start on row boundaries and hold at least one value per row; recorded bounds are true bounds
(`TrueBounds`).  Requested rows ascend strictly (`Requested`).  Each ingester's stream ascends
strictly.  Profiles are well formed: ids are unique and references resolve.  Machine integers are
unbounded, except where the source shifts bits (`ProfilesIndex.ShiftRight`).

Protocols are step relations, and their theorems hold in every state of every run.  Code that
works in place is a class or works on an array; its methods are proved against functions of the
old state, and the properties are proved of these.  Where a property has two sides, both are
proved: what the code gives is nothing but what the specification says, and all of it.

Some results are about where a promise ends: they give an input on which it fails and the
condition under which it holds.

- `ColumnRows.NumbersRank`: the counters of a row number are the ranks that the Dremel paper gives exactly
  when every value repeats at a level at which the value before it is defined.  `ColumnRows.RowCounts` says what
  they count of any values: where the parent is not defined at a level, the first that repeats there is lost.
- `HeadIndex.FoundTwice`: looking up `l=~"^(?:a|a)$"` in the head lists the fingerprints twice.
  `HeadIndex.AscendingExactly` says when a lookup is free of repetitions: exactly when the last
  index matcher lists each fingerprint found once.  As a set the result is always right.
- `ProfilesIndex.AgreesThroughout`: after every one of a list of additions and deletions the index lists
  the series still there exactly when each series was added while its fingerprint had no labels and deleted
  with all of its labels.  `ProfilesIndex.QueryAfter` is then exact for these series.
- `ProfilesIndex.ProfilesIndex.ForMatchingLabels`: a series without labels is never visited, even by
  matchers that accept it.  If a label name is repeated, index matchers go by any of its values and
  filters by the first; where names are unique (`ProfilesIndex.AnswersByForce`) all others are visited
  exactly when the matchers accept them.
- `Symbolization.NamelessIsNamed`: a block gives a location without lines the first name of the whole
  result, and keeps one name, that with the greatest id, of a location with several lines; the head
  gives all lines.  `Symbolization.AlwaysAgree`: head and block agree on all samples exactly when any two
  stacktraces, read together, are named alike.  `Symbolization.NamedAlike` says when one is: exactly when it
  has locations and each has a single line, unless it mixes locations with none and with several, where
  the names may come out right by chance (`Symbolization.NamedAlikeByPosition`).
- `BlockMerge.MergeBothWays`: given single lines, head and block denote the same map exactly when the
  samples without locations cancel out: a block reads the null of an empty list as location 0.
- `FlameGraphReader.LosesBar`, `FlameGraphReader.MovesBar`: a flame graph does not come back if a bar starts
  before its parent, or has no width and lies where a bar before its parent ends.  `FlameGraphReader.RoundTrip`:
  whatever the figures, the tree comes back exactly when every bar fits its own parent and none of those that
  the reader passes on the way there (`FindsAll`).  Where totals are positive this is so exactly when no node
  with children has a negative value of its own (`FlameGraphReader.FindsAllExactly`), and of stacks, when no path
  below which a stack goes on has a negative sum (`Pipeline.StacksToProfileTree`).
- `Interning.EmptyStringStopsFlush`: a table of strings that holds nothing but the empty string cannot be
  flushed, since the average row size is 0.  `Interning.DeduplicatingSlice.Flush` fails exactly when there
  are more rows than bytes.

## Model

| member | source | states |
|---|---|---|
| RepeatedPages.RepeatedPageIterator.Next | pkg/phlaredb/query/repeated.go:91-222 | a call hands out the first of the chunks still to come and leaves the others, or says that there are none; it ends |
| RepeatedPages.RepeatedPageIterator.constructor | pkg/phlaredb/query/repeated.go:50-78 | everything `Chunks` says of the requested rows is still to come |
| RepeatedPages.RepeatedPageIterator.ReadNextRow | pkg/phlaredb/query/repeated.go:224-238 | the first row start in the buffer and the one after it, or that there is none |
| RepeatedPages.RepeatedPageIterator.Consume | pkg/phlaredb/query/repeated.go:165-220 | handing out takes the next chunk off; skipping changes nothing that is to come |
| RepeatedPages.RepeatedPageIterator.SkipRowGroups | pkg/phlaredb/query/repeated.go:97-106 | row groups that end before the requested row are left behind without losing a chunk |
| RepeatedPages.RepeatedPageIterator.ReadPage | pkg/phlaredb/query/repeated.go:110-140 | the page at hand starts with the requested row |
| RepeatedPages.RepeatedPageIterator.EndOfPage | pkg/phlaredb/query/repeated.go:157-162 | a page that is read up ends the requested row, since pages end on row boundaries |
| RepeatedPages.RowsReassembled | pkg/phlaredb/query/repeated.go:91-238 | for every read size, page cut, row-group cut and list of rows, the chunks of a requested row join to exactly its values, and nothing comes out for any other row |
| RepeatedPages.ChunksInOrder | pkg/phlaredb/query/repeated.go:91-238 | rows come out in ascending order and no chunk is empty |
| RepeatedPages.Lockstep | pkg/phlaredb/sample_merge.go:27-46 | columns of the same shape give chunks of the same rows and sizes |
| RepeatedPages.SamplesStayPaired | pkg/phlaredb/query/repeated.go:299-320 | two such columns read together give, for every requested row, its values paired position by position |
| RowNumbers.Next | pkg/phlaredb/query/iters.go:98-112 | the row number after a value with given levels, in place; `ColumnRows.RowCounts` says what its counters count |
| RowNumbers.Skip | pkg/phlaredb/query/iters.go:114-119 | the row number after rows left out, in place |
| RowNumbers.CompareRowNumbers | pkg/phlaredb/query/iters.go:59-69 | the sign tells before, same row and after, down to a level |
| RowNumbers.RowOrder | pkg/phlaredb/query/iters.go:59-69 | down to any level the comparison is a total preorder |
| ColumnIterator.EveryRunIsNaive | pkg/phlaredb/query/iters.go:288-502 | in every interleaving of the producer with calls of Next and Seek, the caller sees what an iterator over the naive, numbered, filtered scan would give |
| ColumnIterator.RunIsExplained | pkg/phlaredb/query/iters.go:431-502 | the same from any state on, for the rows the iterator then stands for |
| ColumnIterator.SkipShiftsNothing | pkg/phlaredb/query/iters.go:114-119 | leaving out whole rows shifts no later row number |
| ColumnIterator.ScanSkips | pkg/phlaredb/query/iters.go:322-373 | leaving out pages loses exactly the results of these pages |
| ColumnIterator.ScanAscends | pkg/phlaredb/query/iters.go:98-112 | the rows of a scan ascend at every level |
| ColumnIterator.MovedOnStandsFor | pkg/phlaredb/query/iters.go:308-373 | chunk, page and seek skips lose no row the caller will ask for |
| ColumnIterator.ReadValuesStandsFor | pkg/phlaredb/query/iters.go:375-423 | reading and sending values changes nothing the caller will see |
| ColumnIterator.SeekStandsFor | pkg/phlaredb/query/iters.go:481-502 | Seek returns the first row from its target on |
| ColumnIterator.NeverStuck | pkg/phlaredb/query/iters.go:288-502 | in every state of every run a call can return or some step can be made, which uses up work |
| ColumnIterator.CanStep | pkg/phlaredb/query/iters.go:431-502 | producer and consumer never wait for each other |
| ColumnIterator.ProducerWorks | pkg/phlaredb/query/iters.go:288-429 | every step of the producer uses up work, so its runs are bounded |
| ColumnIterator.WaitingWorks | pkg/phlaredb/query/iters.go:431-502 | while a call waits every step uses up work, so it returns |
| Iterators.SameAnswers | pkg/phlaredb/query/iters.go:431-502 | an iterator over a list has one answer to each call |
| ColumnIterator.RangePredicateSound | pkg/phlaredb/query/predicates.go:149-215 | a page or chunk dropped by its bounds holds no value the predicate keeps |
| ColumnIterator.IntPredicatesKeep | pkg/phlaredb/query/predicates.go:149-211 | the predicates for a range and for one integer keep exactly the values in the range and equal to the integer, and are sound; pages and chunks are kept exactly if some number within the recorded bounds is in the range, or none are recorded |
| ColumnRows.RowCounts | pkg/phlaredb/query/iters.go:83-112 | a counter is the number of values that repeat at its level after the last that repeats above it, less one if that one is not defined there |
| ColumnRows.NumbersRank | pkg/phlaredb/query/iters.go:83-112 | of each value the counters are -1 beyond its definition level and up to there the rank within the parent, exactly if the values are nested |
| ColumnRows.PaperTable | pkg/phlaredb/query/iters.go:86-97 | the five values of the table get the row numbers of the table |
| ColumnRows.RunGives | pkg/phlaredb/query/iters.go:288-502 | every run gives the values that the predicate keeps, each once, in order, under the row number counted so |
| ColumnRows.WindowGives | pkg/phlaredb/query/predicates.go:149-178 | with a window, it gives exactly the values in the window, both ends included |
| ColumnRows.EqualGives | pkg/phlaredb/query/predicates.go:182-211 | with a wanted integer, exactly its occurrences |
| ColumnIterator.KeyRange | pkg/phlaredb/block_querier.go:376-393 | least and greatest key of a map |
| ColumnIterator.NewMapPredicate | pkg/phlaredb/block_querier.go:376-420 | the predicate of a map keeps exactly its keys, and is sound |
| JoinIterator.JoinIterator.constructor | pkg/phlaredb/query/iters.go:536-544 | the whole join is to come |
| JoinIterator.JoinIterator.Next | pkg/phlaredb/query/iters.go:550-608 | returns the first row of the join that is still to come and leaves the rest, or ends; it terminates |
| JoinIterator.JoinIterator.Seek | pkg/phlaredb/query/iters.go:610-613 | the same from the first row that is not before the target, down to the level of the target |
| JoinIterator.JoinIterator.SeekAll | pkg/phlaredb/query/iters.go:615-627 | every child loses exactly its rows before the target, down to the level of the target |
| JoinIterator.JoinIterator.Peek | pkg/phlaredb/query/iters.go:629-639 | looking ahead changes nothing that is left of a child |
| JoinIterator.JoinIterator.Collect | pkg/phlaredb/query/iters.go:641-660 | the entries of all children for a row, in child order, and the children after that row |
| JoinIterator.JoinIsCorrect | pkg/phlaredb/query/iters.go:550-660 | the join ascends strictly and holds only rows that all children hold and the group predicate keeps, with all their entries |
| JoinIterator.GroupGathers | pkg/phlaredb/query/iters.go:641-660 | the entries of a row are, child by child, those of all results that the child holds for the row |
| JoinIterator.JoinIsComplete | pkg/phlaredb/query/iters.go:550-660 | a row of the first child, as its first result has it, is in the join with the entries of all children exactly when all children hold it and the group predicate keeps it |
| JoinIterator.SeekKeepsJoin | pkg/phlaredb/query/iters.go:604-606 | seeking all children to a row one of them has reached changes nothing of the join |
| JoinIterator.CollectTakesFirst | pkg/phlaredb/query/iters.go:591-602 | collecting the row at which all stand takes it off the join |
| JoinIterator.NothingJoins | pkg/phlaredb/query/iters.go:563-570 | an exhausted child ends the join |
| JoinIterator.TruncateKeepsOrder | pkg/phlaredb/query/iters.go:71-77 | truncating a row number keeps its order down to the level |
| JoinIterator.JoinIterator.SeekOf | pkg/phlaredb/query/iters.go:615-627 | a child passes over its rows before the target; the call and its answer are recorded |
| JoinIterator.JoinIterator.NextOf | pkg/phlaredb/query/iters.go:629-639 | a child gives its next result; the call and its answer are recorded |
| JoinIterator.JoinIterator.Pass | pkg/phlaredb/query/iters.go:550-608 | one pass finds that there is no more, finds a row, or comes closer to one; the join of what was passed grows by the row found |
| JoinIterator.JoinConcat | pkg/phlaredb/query/iters.go:550-660 | the join of lists in two parts, one before the other, is that of the parts |
| JoinIterator.CollectPasses | pkg/phlaredb/query/iters.go:641-660 | collecting a row adds just its group to the join of what was passed |
| JoinIterator.SeekPasses | pkg/phlaredb/query/iters.go:604-606 | rows passed over on the way to one that some child has reached add nothing to it |
| JoinIterator.AnswersJoin | pkg/phlaredb/query/iters.go:563-570 | once a child is exhausted the answers of all join to what was joined |
| ColumnJoin.JoinColumns | pkg/phlaredb/query/iters.go:550-660 | the rows are the join of the answers that the columns gave to the calls of the join, which are also those of every run of a column iterator given these calls, and are the join of the naive scans |
| ColumnJoin.RunsJoin | pkg/phlaredb/query/iters.go:550-660 | whatever runs the column iterators have under these calls, their answers join to the rows of the join |
| ColumnJoin.TracedAnswers | pkg/phlaredb/query/iters.go:288-502 | whatever its producer does, a column iterator gives the answers of its naive scan, call by call |
| ColumnJoin.ScanIsJoined | pkg/phlaredb/query/iters.go:98-112 | the scan of a column ascends and stays below the greatest row number |
| Labels.CompareLabelPairs | pkg/model/labels.go:250-272 | negative exactly if at the first difference the first set ends, or has the lesser name, or the same name and the lesser value; positive exactly the other way round; zero exactly for equal sets |
| Labels.StringsCompare | pkg/model/labels.go:257-267 | a string is less exactly if at the first difference it ends or has the lesser character |
| Labels.BeforeIsTotalOrder | pkg/querier/select_merge.go:204-210 | timestamp, then labels in this order, is a strict total order |
| Deduplication.EveryRunSelectsOnce | pkg/querier/select_merge.go:218-257 | whatever the streams, batch sizes, step and requeue orders, a finished run has selected every distinct profile at exactly one ingester, once, and nothing else |
| Deduplication.RunConsistent | pkg/querier/select_merge.go:77-138 | in every state each batch is answered by one keep vector of its length before the next receive, and what went through the merge is kept at exactly one place |
| Deduplication.StreamStepConserves | pkg/phlaredb/phlaredb.go:487-582 | no step of either side loses, repeats or reorders a profile or a keep mark |
| Deduplication.RoundKeepsMerged | pkg/querier/select_merge.go:218-257 | a round keeps one copy of the smallest profile and passes all of them |
| Deduplication.RunIsBounded | pkg/querier/select_merge.go:218-281 | every step uses up work, so runs end |
| Deduplication.InitialWork | pkg/iter/batch.go:8-31 | the work at the start is six steps a profile and seven a stream |
| Deduplication.CanStep | pkg/querier/select_merge.go:259-281 | a state that is not finished has a next step: the two sides never wait for each other |
| Quorum.EveryRunIsSafe | pkg/distributor/distributor.go:200-228 | in every interleaving at most one message enters each channel and never both; `done` means every profile has its quorum, `err` that some profile has too many failures |
| Quorum.EveryFinishedRunSendsOne | pkg/distributor/distributor.go:200-228 | once all replicas have reported exactly one message has been sent |
| Quorum.FinishedSendsOne | pkg/distributor/distributor.go:200-228 | `done` if every profile reached its quorum, else `err` |
| Quorum.StepConsistent | pkg/distributor/distributor.go:211-227 | every step keeps the counters equal to the senders that have reported |
| Quorum.AddToReplicas | pkg/distributor/distributor.go:168-171 | a profile joins the list of each of its replicas and no other |
| Quorum.GroupByIngester | pkg/distributor/distributor.go:159-172 | every ingester gets, once and in order, the profiles it is a replica of |
| Quorum.Senders | pkg/distributor/distributor.go:178-189 | one sender for every ingester, with its profiles, in any order |
| Quorum.SentToReplicas | pkg/distributor/distributor.go:159-189 | a profile is sent by as many senders as it has replicas |
| Quorum.Push | pkg/distributor/distributor.go:156-189 | grouping and senders make up a start of the protocol: quorum and tolerated failures add up to the senders of each profile |
| Tree.NewTree | pkg/querier/tree.go:17-30 | sibling names are unique, parent pointers agree with children, total is self plus the children's totals at every node, and self at a path is the sum of exactly the stacks with that path |
| Tree.StackToTree | pkg/querier/tree.go:42-83 | a stack becomes a chain of nodes from its last location down to its first |
| Tree.FindNodeOrParent | pkg/querier/tree.go:157-178 | the node of the path, or the last node on the way and the node to hang below it |
| Tree.Tree.MergeTree | pkg/querier/tree.go:109-131 | a stack is added to a tree that keeps all of this |
| Tree.AddValue | pkg/querier/tree.go:125-129 | a value added to a node and to the totals above it leaves every node balanced |
| Tree.AddToAncestors | pkg/querier/tree.go:120-129 | a difference is moved up to the root |
| Tree.Attach | pkg/querier/tree.go:113-119 | a chain hung below a node leaves children and parent pointers in agreement |
| Tree.PathsAreUnique | pkg/querier/tree.go:157-178 | distinct nodes have distinct paths |
| FlameGraph.NewFlameGraph | pkg/querier/flamegraph.go:18-104 | the levels are those of the tree, left to right, none missing and none beyond; names, totals, self values and offsets are right; names are unique; total and greatest self value are right; the first level is one bar named "total", from 0, with the total and no value of its own |
| FlameGraph.Walk | pkg/querier/flamegraph.go:35-78 | the depth-first walk visits every level right to left |
| FlameGraph.VisitAccounts | pkg/querier/flamegraph.go:37-78 | at any time a level consists of what the stack will give and what was visited |
| FlameGraph.NameIndex | pkg/querier/flamegraph.go:45-55 | the index of a name in a table without repetitions, "total" first |
| FlameGraph.PushChildren | pkg/querier/flamegraph.go:72-77 | children start after the own value, side by side |
| FlameGraph.DeltaEncode | pkg/querier/flamegraph.go:83-90 | offsets count from the end of the bar before, in place |
| FlameGraph.Slice | pkg/querier/stack.go:44-50 | the top of the stack comes first |
| FlameGraphReader.LevelsToTree | grafana/phlare-datasource/pkg/plugin/query.go:159-236 | ends on any data; on the levels of any tree gives that tree, with figures, names, depths, starts and children, exactly when every bar fits its own parent and none of those passed on the way there |
| FlameGraphReader.ReadLevel | grafana/phlare-datasource/pkg/plugin/query.go:183-232 | every item of a level goes to its own parent, in order |
| FlameGraphReader.RoundTrip | grafana/phlare-datasource/pkg/plugin/query.go:159-236 | encoding any tree and reading it back gives the tree under a root named "total" exactly on this condition |
| FlameGraphReader.LosesBar | grafana/phlare-datasource/pkg/plugin/query.go:200-230 | a tree that does not come back: a bar that starts before its parent has no place |
| FlameGraphReader.AllFound | grafana/phlare-datasource/pkg/plugin/query.go:200-215 | if the reader's items make up the tree every bar fits its own parent and none passed on the way there |
| FlameGraphReader.MovesBar | grafana/phlare-datasource/pkg/plugin/query.go:200-230 | a tree that does not come back: a bar without width is taken for a child of a bar before its parent |
| FlameGraphReader.FindsAllExactly | grafana/phlare-datasource/pkg/plugin/query.go:200-230 | where totals add up and are positive, the condition holds exactly when no node with children has a negative value of its own |
| FlameGraphReader.FoundIsNonNegative | grafana/phlare-datasource/pkg/plugin/query.go:200-202 | a node whose first child fits it has no negative value of its own |
| FlameGraphReader.PickingTakes | grafana/phlare-datasource/pkg/plugin/query.go:200-215 | an item taken fits its parent and none of those just passed |
| FlameGraphReader.FitsExactly | grafana/phlare-datasource/pkg/plugin/query.go:200-202 | of the parents not yet passed a bar fits its own and no other |
| FlameGraphReader.LevelOrdered | pkg/querier/flamegraph.go:72-77 | the bars of every level lie side by side |
| FlameGraphReader.BuiltRepresents | grafana/phlare-datasource/pkg/plugin/query.go:204-215 | items linked level by level make up the tree |
| Pipeline.StacksToProfileTree | pkg/querier/flamegraph.go:18-104 | stacks folded, encoded and read back: the reader's tree holds at each path the sum of the stacks with these locations exactly when all parents are to be found; if paths have positive totals, exactly when no path below which a stack goes on has a negative sum |
| Pipeline.TotalIsThrough | pkg/querier/tree.go:109-131 | the total of a node is the sum of the stacks on whose way it lies |
| Pipeline.HasChildrenExactly | pkg/querier/tree.go:109-131 | a node has children exactly when a stack with a value goes on below it |
| Pipeline.RootIsBalanced | pkg/querier/flamegraph.go:18-34 | if paths have positive totals the linked tree, as a value, is balanced at every node |
| Pipeline.RootIsNonNegative | grafana/phlare-datasource/pkg/plugin/query.go:200-215 | the value has no negative node above children exactly when the linked tree has none |
| Pipeline.FineExactly | pkg/querier/tree.go:17-30 | and this is so exactly when no path below which a stack goes on has a negative sum |
| Pipeline.NoNegativeIsFine | pkg/querier/tree.go:17-30 | stacks without negative values meet all conditions |
| Interning.DeduplicatingSlice.FindExisting | pkg/phlaredb/deduplicating_slice.go:202-212 | the ids found under the read lock and the positions of the others |
| Interning.DeduplicatingSlice.AddMissing | pkg/phlaredb/deduplicating_slice.go:214-236 | what the write lock adds, each element looked up again |
| Interning.DeduplicatingSlice.Ingest | pkg/phlaredb/deduplicating_slice.go:175-244 | lookup and slice stay inverse, nothing stored moves, every id leads to its element |
| Interning.DeduplicatingSlice.Flush | pkg/phlaredb/deduplicating_slice.go:106-168 | fails exactly when there are more rows than bytes; else the rows not yet written, with their ids, are cut into groups within both limits, all but the last as large as these allow, none lost, repeated or moved by the sort within a group |
| Interning.SortedAlready | pkg/phlaredb/deduplicating_slice.go:156 | rows sorted by id are as they were |
| Interning.DeduplicatingSlice.MaxRowsPerRowGroup | pkg/phlaredb/deduplicating_slice.go:85-104 | as many rows of average size as the limit allows, but at least one; division by zero exactly when there are more rows than bytes |
| Interning.EmptyStringStopsFlush | pkg/phlaredb/strings.go:35-37 | a table of strings that cannot be flushed |
| Interning.FindIsOk | pkg/phlaredb/deduplicating_slice.go:202-212 | after the first pass an element is stored or listed as missing |
| Interning.AddIsOk | pkg/phlaredb/deduplicating_slice.go:214-236 | after the second every element is stored, whatever others added in between |
| Interning.KeysInjective | pkg/phlaredb/locations.go:25-49 | keys tell strings, functions, locations and stacktraces apart if the hashes do |
| Interning.MapsStack | pkg/phlaredb/head.go:492-520 | rewriting ids keeps the frames a stacktrace stands for |
| Ingestion.EveryRunKeepsStacks | pkg/phlaredb/head.go:234-307 | in every interleaving, a sample of a finished ingest stands for the frames and function names it has in its profile, then and in every later state |
| Ingestion.EveryStateOk | pkg/phlaredb/deduplicating_slice.go:175-244 | in every state lookup and slice are inverse and every reference in the head resolves |
| Ingestion.RunExtends | pkg/phlaredb/deduplicating_slice.go:214-236 | tables are append-only over whole runs |
| Ingestion.StepKeepsInv | pkg/phlaredb/deduplicating_slice.go:202-236 | so it is for each step |
| Ingestion.DoneResolves | pkg/phlaredb/stacktraces.go:41-46 | strings, functions, locations and stacktraces of a finished ingest resolve as in the profile |
| Ingestion.CanStep | pkg/phlaredb/deduplicating_slice.go:175-244 | an ingest can go on until it is done, in at most eight steps |
| Ingestion.AddToRewriter | pkg/phlaredb/strings.go:17-29 | the conversion table as a slice agrees with the map |
| Symbolization.MergeByStacktracesHead | pkg/phlaredb/head.go:471-534 | every stacktrace has the names of all lines of its locations and the sum of its values |
| Symbolization.ResolveSymbols | pkg/phlaredb/sample_merge.go:51-178 | every stacktrace has, for each location of its column, the last name of its lines, or the first name of the result if it has none; without any name all ids are out of range |
| Symbolization.NameLocations | pkg/phlaredb/sample_merge.go:90-161 | every location with a line gets, of the names of its lines, the one with the greatest id; names are all names of the lines, by id |
| Symbolization.GatherLocations | pkg/phlaredb/sample_merge.go:90-104 | locations by function: the inverse of the relation of a location to the functions of its lines |
| Symbolization.GatherFunctions | pkg/phlaredb/sample_merge.go:106-118 | functions by name: the inverse of the name of a function |
| Symbolization.Expand | pkg/phlaredb/sample_merge.go:137-153 | ids are replaced by exactly the ids that lead to them |
| Symbolization.GatherStacktraces | pkg/phlaredb/sample_merge.go:67-85 | the chunks of a row joined, and all location ids |
| Symbolization.SumByStacktrace | pkg/phlaredb/sample_merge.go:33-47 | the sums of the values delivered, by stacktrace |
| Symbolization.NullsWeighNothing | pkg/phlaredb/sample_merge.go:33-47 | the null that is read for a profile without samples, stacktrace 0 with value 0, changes no value |
| Symbolization.AggregateKeeps | pkg/phlaredb/head.go:497-505 | summing by stacktrace keeps the value of every name stack, with or without zero samples, whatever the naming |
| Symbolization.SameMeaningExactly | pkg/phlaredb/sample_merge.go:19-178 | given single lines, head and block denote the same map exactly when the samples without locations cancel out |
| Symbolization.WeightInBlock | pkg/phlaredb/sample_merge.go:67-85 | a block moves the values of these samples from no name to that of location 0, and changes no other |
| Symbolization.NamedAlike | pkg/phlaredb/sample_merge.go:90-172 | a block names a stacktrace like the head exactly when it has locations and each has a single line |
| Symbolization.AlwaysAgree | pkg/phlaredb/sample_merge.go:19-178 | head and block agree on all samples over the tables exactly when any two stacktraces, read together, are named alike |
| Symbolization.AlwaysAlikeUnmixed | pkg/phlaredb/sample_merge.go:90-172 | where no stacktrace mixes locations without lines and with several, exactly when none is empty and every location has a single line |
| Symbolization.NamedAlikeByPosition | pkg/phlaredb/sample_merge.go:90-172 | whatever the lines: exactly when there are locations, as many as lines, and each is given the name of the line at its position |
| BlockMerge.MergeBothWays | pkg/phlaredb/sample_merge.go:19-178 | head and block on the same profiles, the block from its columns however they are cut; where the samples that have a value have locations of a single line their maps agree exactly when the samples without locations cancel out |
| BlockMerge.MergeByStacktracesBlock | pkg/phlaredb/sample_merge.go:19-178 | the sums and names of the samples of the selected rows |
| BlockMerge.SamplesRead | pkg/phlaredb/sample_merge.go:27-47 | whatever the cuts, the two columns of samples give the samples of the rows asked for |
| BlockMerge.SamplesByRow | pkg/phlaredb/query/repeated.go:299-320 | pieces read together come to the samples of each row, in the order of rows |
| BlockMerge.StacksRead | pkg/phlaredb/sample_merge.go:62-85 | whatever the cuts, the column of stacktraces delivers each of them whole |
| Symbolization.NamelessIsNamed | pkg/phlaredb/sample_merge.go:155-172 | a location without lines takes the name of another, and of two lines one is lost |
| Matchers.FindSetMatches | pkg/phlaredb/tsdb/index.go:512-552 | the set of a pattern, by scanning |
| Matchers.ScanRender | pkg/phlaredb/tsdb/index.go:517-551 | every alternation of literals is taken apart into its strings |
| Matchers.ScanParses | pkg/phlaredb/tsdb/index.go:517-551 | nothing else is scanned to the end, but for a backslash left over |
| Matchers.OperatorsAreNoSets | pkg/phlaredb/tsdb/index.go:530-541 | an operator other than the bar, not escaped, makes an expression no set |
| Matchers.PlainIsItself | pkg/phlaredb/tsdb/index.go:512-552 | an expression without operators and escapes is the set of itself |
| Matchers.SetIsExact | pkg/phlaredb/querier.go:151-158 | the set holds exactly the non-empty strings the expression accepts |
| Matchers.AnchoredSetIsExact | pkg/phlaredb/tsdb/index.go:323-329 | and so for an expression that comes anchored, with any engine to which anchoring an alternation of literals twice makes no difference |
| Postings.PostingsForMatchers | pkg/phlaredb/querier.go:61-141 | for every non-empty list of matchers exactly the series where all accept the label value, absent being empty; nothing for the empty list |
| Postings.PostingsForMatcher | pkg/phlaredb/querier.go:143-185 | right wherever the label is not empty; every list given to the index is sorted |
| Postings.InversePostingsForMatcher | pkg/phlaredb/querier.go:188-210 | the series that have the label with a value not accepted |
| Postings.SelectOne | pkg/phlaredb/querier.go:72-122 | what a matcher adds to or subtracts from the result |
| Postings.SelectionIsExact | pkg/phlaredb/querier.go:61-141 | selecting with every matcher is accepting with every matcher |
| Postings.ValuesFor | pkg/phlaredb/querier.go:165-183 | the accepted values, sorted |
| HeadIndex.Add | pkg/phlaredb/tsdb/index.go:269-302 | every pair is listed once more, lists stay sorted, no entry is empty; the labels come back sorted by name |
| HeadIndex.Delete | pkg/phlaredb/tsdb/index.go:415-452 | every pair that is listed is listed once less; what is not there is left alone, and no empty entry stays |
| HeadIndex.DeleteUndoesAdd | pkg/phlaredb/tsdb/index.go:415-452 | deleting what was added gives back the index as it was |
| HeadIndex.FactsDetermine | pkg/phlaredb/tsdb/index.go:269-302 | what is listed determines the index |
| HeadIndex.HeldOnce | pkg/phlaredb/tsdb/index.go:290-297 | if no pair was added twice a list has no repetitions and says exactly which pairs were added |
| HeadIndex.Intersect | pkg/phlaredb/tsdb/index.go:456-472 | the elements of the second list that are in the first |
| HeadIndex.Lookup | pkg/phlaredb/tsdb/index.go:304-347 | the fingerprints all matchers hit, in order, each as often as the last matcher lists it, whatever was added |
| HeadIndex.MatcherFps | pkg/phlaredb/tsdb/index.go:319-339 | the fingerprints of one matcher, sorted, each as often as the lists of its values hold it |
| HeadIndex.AscendingExactly | pkg/phlaredb/tsdb/index.go:323-341 | when a lookup has no repetitions |
| HeadIndex.FoundTwice | pkg/phlaredb/tsdb/index.go:323-329 | a lookup that has |
| ProfilesIndex.BitPrefixInvertedIndex.AddSeries | pkg/phlaredb/tsdb/bitprefix.go:120-123 | every pair once more, in the shard of the fingerprint, all other shards untouched |
| ProfilesIndex.BitPrefixInvertedIndex.DeleteSeries | pkg/phlaredb/tsdb/bitprefix.go:243-247 | every pair that is listed once less |
| ProfilesIndex.BitPrefixInvertedIndex.LookupAll | pkg/phlaredb/tsdb/bitprefix.go:126-163 | with matchers as one lookup over all shards, in order; without, every fingerprint listed once; whatever was added and deleted |
| ProfilesIndex.ShardInRange | pkg/phlaredb/tsdb/bitprefix.go:101-104 | the leading bits are the number of a shard, and the fingerprints of a shard a range of equal width |
| ProfilesIndex.ShardsAscend | pkg/phlaredb/tsdb/bitprefix.go:147-148 | lower shards hold lower fingerprints |
| ProfilesIndex.AllFps | pkg/phlaredb/tsdb/index.go:349-372 | every fingerprint listed in a shard once |
| ProfilesIndex.SplitFiltersAndMatchers | pkg/phlaredb/profiles.go:338-353 | filters accept the empty value, index matchers do not, nothing is lost |
| ProfilesIndex.HitsExactly | pkg/phlaredb/profiles.go:338-353 | an index matcher hits a fingerprint exactly when it accepts a value this is listed under |
| ProfilesIndex.ProfilesIndex.AddProfile | pkg/phlaredb/profiles.go:55-72 | a profile joins its series, which is indexed when new, under its labels sorted by name |
| ProfilesIndex.ProfilesIndex.ForMatchingLabels | pkg/phlaredb/profiles.go:200-230 | exactly the selected series, how often each is visited, and in which order |
| ProfilesIndex.AnswersByForce | pkg/phlaredb/profiles.go:200-230 | where label names are unique: exactly the series with labels that all matchers accept by brute force |
| ProfilesIndex.SelectedInParts | pkg/phlaredb/profiles.go:200-230 | what the index finds and the filters let through is what is selected |
| ProfilesIndex.AgreesThroughout | pkg/phlaredb/tsdb/bitprefix.go:120-123 | the index lists the series still there, after every addition and deletion, exactly when every one of them fits |
| ProfilesIndex.DeleteKeepsAgreement | pkg/phlaredb/tsdb/bitprefix.go:243-247 | one deletion does exactly when it names all labels of the series |
| ProfilesIndex.AddKeepsAgreement | pkg/phlaredb/tsdb/bitprefix.go:120-123 | one addition does exactly when the fingerprint had no labels |
| ProfilesIndex.QueryAfter | pkg/phlaredb/tsdb/bitprefix.go:120-163 | a query after additions and deletions that fit answers for the series still there; where names are unique all lists are sorted and without repetition |
| Pprof.MergeInPlace | pkg/pprof/pprof.go:221-248 | the list compacted in place, while values are added to the next sample, is the last of every run with the sum of the run |
| Pprof.MergeSamples | pkg/pprof/pprof.go:210-248 | sums are kept, stacks unique, none empty, and every stack kept or handed on as removed; a sample kept has, in order, the labels of one given sample with its stack, but for those with a number and a key that reads "bytes" |
| Pprof.MergeKeepsSums | pkg/pprof/pprof.go:221-248 | the sum of every value of every stack is kept |
| Pprof.KeptSums | pkg/slices/slices.go:5-14 | at any point kept and carried values add up to those visited |
| Pprof.KeptOnce | pkg/pprof/pprof.go:221-248 | a stack is kept at most once and no sample is empty |
| Pprof.SortByHash | pkg/pprof/pprof.go:174-190 | a permutation sorted by hash, with the same sums |
| Pprof.RemoveBytes | pkg/pprof/pprof.go:234-241 | in place and in order, exactly the labels without a number, without a key, or whose key does not read "bytes" |
| PprofReferences.Profile.ClearSampleReferences | pkg/pprof/pprof.go:277-366 | what goes is exactly what only the removed samples led to; references resolve, every sample left reads the same function names, and every string reference visited reads as before |
| PprofReferences.Profile.Clear | pkg/pprof/pprof.go:277-366 | a location goes exactly if a removed sample uses it and none left does, a function if a location removed calls it and none left does, a string if a function removed names it and nothing mentions it |
| PprofReferences.ClearedNames | pkg/pprof/pprof.go:277-366 | a sample left reads the same function names |
| PprofReferences.ClearedResolves | pkg/pprof/pprof.go:282-331 | no sample left loses a location, no location a function |
| PprofReferences.ClearedTexts | pkg/pprof/pprof.go:336-366 | every string reference left reads as before |
| PprofReferences.Profile.Normalize | pkg/pprof/pprof.go:202-252 | the time is set if there is none; sums by stack are kept, stacks unique, none empty; what goes is exactly what only the removed samples led to; references resolve, every sample left reads the same function names, and all names visited, labels among them, read as before; of the labels exactly the redundant ones go |
| PprofReferences.Profile.EnsureHasMapping | pkg/pprof/pprof.go:255-275 | locations without a mapping get a new one with an id of its own |
| PprofReferences.ShiftKeepsTexts | pkg/pprof/pprof.go:344-365 | compacting the table and shifting references changes no text; a label number in the table reads the same, one beyond stays as far beyond |
| PprofReferences.ShiftFinds | pkg/pprof/pprof.go:345-348 | a string that stays moves down by the number of strings removed before it |
| PprofReferences.Shift | pkg/pprof/pprof.go:355-365 | the loop that stops early counts exactly these |
| PprofReferences.UnusedLocations | pkg/pprof/pprof.go:282-295 | the locations that only removed samples use |
| PprofReferences.RemoveLocations | pkg/pprof/pprof.go:299-309 | locations compacted in place, with exactly the functions that those removed call |
| PprofReferences.RemoveFunctions | pkg/pprof/pprof.go:321-331 | functions compacted in place, with exactly the names of those removed |
| PprofReferences.KeepsInOrder | pkg/pprof/pprof.go:299-331 | the locations and functions that stay do so in order, none lost |
| PprofReferences.Profile.ClearMentioned | pkg/pprof/pprof.go:336-339 | the names nothing mentions any more |
| PprofReferences.Profile.ShiftAll | pkg/pprof/pprof.go:368-396 | every reference visited is shifted and nothing else changes |
| MergeStacktraces.MergeBatch | pkg/model/stacktraces.go:13-99 | for every non-empty name stack the value is the sum over all responses, all function ids are in range, and samples are in the order of their names |
| MergeStacktraces.MergeResponse | pkg/model/stacktraces.go:44-87 | one more response adds its values |
| MergeStacktraces.RewriteNames | pkg/model/stacktraces.go:44-58 | every name of the response is found in the longer list |
| MergeStacktraces.RewriteSlices | pkg/model/stacktraces.go:60-74 | every slice is rewritten once, however many samples share it |
| MergeStacktraces.AddSamples | pkg/model/stacktraces.go:75-87 | samples are added to those with equal ids or appended |
| MergeStacktraces.RewrittenValue | pkg/model/stacktraces.go:60-74 | rewriting changes no value of a name stack |
| MergeStacktraces.SortStacktraces | pkg/model/stacktraces.go:124-147 | the same samples, in the order of their names, with the same values |
| MergeStacktraces.NotAfter | pkg/model/stacktraces.go:125-146 | the comparison holds exactly if the first name stack is not after the second, in the lexicographic order of their names, so also between equal ones |
| MergeStacktraces.StackOrder | pkg/model/stacktraces.go:125-146 | not being after is a total order of name stacks |
| RangeSeries.SortIterator.Next | pkg/iter/profiles.go:80-88 | returns a least profile of those pending and leaves the others |
| RangeSeries.Drain | pkg/iter/profiles.go:48-88 | an ascending permutation of all inputs |
| RangeSeries.AggregateSeries | pkg/querier/querier.go:341-392 | exactly the profiles up to the last step, each at its step |
| RangeSeries.FoldedLabels | pkg/querier/querier.go:356-368 | every series carries the labels it was grouped by |
| RangeSeries.SortSeries | pkg/querier/querier.go:387-391 | all series, each once, in the lexicographic order of their labels |
| RangeSeries.StepIsFirst | pkg/querier/querier.go:350-354 | a step that is not before the profile, and none earlier is |
| RangeSeries.FoldedTells | pkg/querier/querier.go:341-392 | per series, points ascend strictly, one for every step to which some profile falls, with the sum of these |
| RangeSeries.FoldedConserves | pkg/querier/querier.go:369-385 | per series, points add up to the values of its profiles |
| RangeSeries.SelectSeries | pkg/querier/querier.go:325-336 | and this is so whatever the iterators, with the series in the order of their labels |
| Shipping.UploadBlock | pkg/phlaredb/block/block.go:60-117 | at every step, and wherever it fails or stops, every meta file in the bucket has the files it lists; on success the block is there; if a file fails and the clean-up does not, nothing of it is left; if the meta file fails the files stay |
| Shipping.DeleteBlock | pkg/phlaredb/block/block.go:125-181 | so it is for deletion and clean-up; on success nothing of the block is left and no other block is touched |
| Shipping.DeleteFiles | pkg/phlaredb/block/block.go:185-200 | without its meta file the files of a block may go in any order |
| Shipping.Bucket.Upload | pkg/phlaredb/block/block.go:107-114 | a failed upload may have stored the object |
| Shipping.Bucket.Delete | pkg/phlaredb/block/block.go:150-155 | a failed deletion may have removed it |
| Shipping.DataKeepsComplete | pkg/phlaredb/block/block.go:100-105 | adding data keeps meta files complete |
| Shipping.MetaKeepsComplete | pkg/phlaredb/block/block.go:107-114 | adding a meta file does once its files are there |
| Shipping.DeletionKeepsComplete | pkg/phlaredb/block/block.go:134-140 | removing does for a meta file, and for any file of a block without one |
| Shipping.Shipper.Sync | pkg/phlaredb/shipper/shipper.go:225-316 | in any bucket: a block is recorded only if it was known or has its meta file in the bucket; unless an error is returned every block is skipped, known or in the bucket; the count is of the blocks uploaded, which had no meta file before; an error is returned if one failed; no meta file goes and no block outside the local list is touched; a pass with nothing to do changes nothing |
| Shipping.Shipper.SyncBlock | pkg/phlaredb/shipper/shipper.go:257-301 | a block is tried only if it is shipped, not known and not in the bucket |
| Shipping.SyncTwice | pkg/phlaredb/shipper/shipper.go:225-316 | without faults a second pass with no new blocks uploads nothing |

## Left out

- `UnionIterator`, `KeyValueGroupPredicate`, `RowNumberIterator`: the query paths modelled use the join alone.
- `StringInPredicate`, `SubstringPredicate`: the soundness of integer predicates is the same argument.
- Lookups with a shard annotation: bounds of shards are not part of this model.
- `Label.Str` and `DefaultSampleType` of a profile: compaction of the string table does not visit them, so they may then read otherwise; `Label.Num`, which is no reference, is shifted like one (`PprofReferences.ShiftKeepsTexts`).
- `deltaProfiles`: not modelled.
- Mapping identity: the rewriting of mapping ids is left open; names do not depend on it.
- Stream errors and cancellation in the keep/drop protocol, and the merging of streams within an ingester: streams are given as ascending.
- Late visibility of objects in the bucket, and two processes working on one block at a time: the shipper does not do this.
- `walkTree` and data frames, `ExportToFlamebearer`, HTTP, parquet, protobuf, metrics and configuration: plumbing or foreign code.
- FlameGraph.NewFlameGraph: takes the tree as a value, since it only reads it; the tree built by `newTree` is modelled with its pointers.
- Symbolization.ResolveSymbols: takes what the column iterator delivers as given; `BlockMerge.StacksRead` is where that is proved.
- BlockMerge.MergeByStacktracesBlock: the pieces of a column are collected before they are used; that the samples of a profile are written with pages cut alike in both columns is given (`Written`).
- MergeStacktraces.MergeBatch: does not say that names or stacks are unique, which they need not be; responses must not share samples or slices with each other.
- MergeStacktraces.RewriteSlices: two slices that start at the same element have the same length; slices of one array with different lengths are not captured.
- MergeStacktraces.SortStacktraces: `sort.Slice` asks for a strict comparison, which the one given is not for equal name stacks; it is taken to sort all the same.
- RangeSeries.AggregateSeries: values are exact, so rounding is not captured.
- RangeSeries.SortIterator.Next: the heap of the standard library is taken to pop a least element; errors of iterators are not modelled.
- ProfilesIndex.ProfilesIndex.AddProfile: that the strings of stored labels are shared is not captured.
- PprofReferences.Profile.Normalize: samples are values in a list, so two samples sharing one value slice are not captured.
- Postings.PostingsForMatchers: postings are sets; the iterators that intersect and subtract them are not part of this model.
- Shipping.DeleteFiles: directories of a block are flattened into its list of objects.
- Shipping.Shipper.Sync: the check for overlapping blocks may answer anything, and the list of local blocks is given.
