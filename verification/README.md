# Godshell: a verified model of its process index, queries and protocols

Godshell's daemon turns a stream of kernel events into an in-memory index of processes, freezes copies of the index, and
answers tree, grouping and summary queries over the copies. Around that sit a pair of TLS probes, a rate limiter with a
cache, a chat history with a size limit, and two scanners of a process's memory map. This project models that logic in
Dafny and proves what it is for.

Code that changes things in place is modelled by classes and methods with loops, each proved against a function or a
predicate on values (`TreeModel`, `Preorder`, `Climb`, ...); the main results are lemmas about those. Go's map iteration is
an arbitrary choice of the next key, so every result about a loop over a map holds for every order. A clock is an integer
that never goes back; a sleep ends no earlier than asked. What comes from the proc file system, DNS, the network, regular
expressions and tools is an arbitrary input.

| file | what it models |
|---|---|
| `Basics`, `Sorting` | identifiers, ascending listings, the in-place sorts |
| `Preorder` | depth-first walks as sets of paths in dictionary order |
| `Climb` | walks along parent links, and when they end |
| `Snapshot` | processes, effects and the two indexes, as values |
| `ProcPanel` | the process panel: `buildProcTree` |
| `GroupKey` | grouping by app: `groupKey`, `groupKeyFrozen` |
| `Family`, `FamilyLoops`, `FamilyPrinter` | `ProcessFamily` and `ProcessFamilyJSON`: what they show, when they end, and their loops |
| `TreeModel`, `EventLog`, `ChildLog`, `FieldLog` | the event machine on values, its invariants, and what a process's effects, children and other fields are in terms of the run |
| `ProcessIndex` | the event machine as objects in the heap |
| `FrozenCopy`, `SharedCopy` | `TakeSnapshot`, alone and beside other operations, and the isolation of snapshots |
| `SslProbes` | the read entry and return probes, interleaved over threads |
| `RateLimiter`, `ThreatIntel` | `Wait`, the cache and the three lookups |
| `Collapse`, `Summary` | `collapseEffects` and the active part of `SummaryJSON` |
| `HeapScan`, `MapRegions` | chunk planning, scanning and deduplication; merging of map lines |
| `Chat` | `ManageHistory`, `UpdateSnapshot` and `streamingChatLoop` |

## Results that differ from what the code or its comments suggest

- The comment above the root search of `buildProcTree` names PPID 0 and an absent parent; the code also takes PPID 2. The
  model follows the code. With everything expanded, the panel hides exactly the processes on or below a PPID cycle
  (`ProcPanel.MissingIffRootless`).
- `groupKeyFrozen` does not end for two non-generic processes that name each other as parent (`GroupKey.MutualParentsLoop`);
  `GroupKey.LoopsIff` says for which processes it does not end.
- A connect whose fallback key is already kept loses count (`EventLog.ConnectsCollide`): `EventLog.ConnectDigestIff` gives
  the exact condition, `EventLog.ClockRefines` one on the clock under which it cannot happen.
- The family views recurse forever on some parent cycles, even with the guard against a process that is its own parent, and
  show a reused PID twice if both its records are shown. `FamilyLoops` has the exact conditions and examples.
- Overlapping calls of `Wait` can be let through together, because the lock is given up during the sleep:
  `RateLimiter.OverlapSafeIff` says when that is harmless; from the start, six calls are enough (`OverlapBreaksSpacing`).
- A deep heap scan leaves bytes of large regions out without setting `Truncated`: `HeapScan.UntruncatedIff` says when an
  unflagged scan is complete.
- Pruning the history can leave tool results whose call is gone (`Chat.PrunedOrphansIff`). A single reply brings that about
  exactly if prompt, reply and results exceed the limit (`Chat.OrphansSentIff`). A notice appended while a loop runs
  separates a call from its results exactly when it falls between them (`Chat.InsertBreaksIff`).

## Model

| member | source | states |
|---|---|---|
| ProcPanel.BuildProcTree | main.go:1820-1888 | a nil snapshot has no entries; otherwise entry i shows the PID, name, depth, memory label and child flag of the end of the i-th path of the specified listing, for any parent links and any expansion set; terminates without an acyclicity assumption |
| ProcPanel.Walker.Walk | main.go:1853-1881 | one call appends the node and then exactly the listing below its path |
| ProcPanel.ShownExactly | main.go:1843-1885 | the list is in preorder with ascending siblings, and holds exactly the chains that lead from a root down through expanded processes |
| ProcPanel.ShownUnique | main.go:1831-1885 | any list of chains with those two properties is this list, so map order cannot show |
| ProcPanel.NoPidTwice | main.go:1843-1885 | no PID ends two listed chains |
| ProcPanel.ParentRowAbove | main.go:1859-1880 | every entry below the top level has its parent as the nearest earlier entry of smaller depth |
| ProcPanel.EntryTells | main.go:1853-1881 | on the entries themselves: exactly the roots are at depth 0, any other is one level below the nearest earlier entry of smaller depth, which is its parent's; the child mark is at exactly those with a child that is no root; the memory label rounds down to MiB above 1024 KiB |
| ProcPanel.RootPathBounded | main.go:1853-1881 | such a chain repeats no PID, so it is no longer than the snapshot is large: why the recursion ends |
| ProcPanel.CycleHidden | main.go:1843-1885 | a process in a set of non-roots closed under taking parents is never listed, whatever is expanded |
| ProcPanel.MissingIffRootless | main.go:1843-1885 | with everything expanded, exactly the processes in such a set are missing |
| Preorder.OrderedUnique | main.go:1827-1841 | a listing in dictionary order is determined by its members |
| Preorder.NearestParent | main.go:1876-1880 | in such a listing the parent of an entry is the nearest earlier one a level up |
| Sorting.SortAscending | main.go:1836-1841 | the in-place insertion sort leaves a sorted permutation |
| Sorting.SortedKeys | main.go:1831-1841 | all PIDs of the map, each once, strictly ascending |
| GroupKey.GroupKeyFrozen | context/snapshot.go:369-392 | where the loop ends, it returns the binary path, or else the name, of the process at which the followed chain stops |
| GroupKey.EndsWithinSize | context/snapshot.go:371-385 | a loop that ends after any number of steps ends within as many as there are live processes |
| GroupKey.LoopsIff | context/snapshot.go:371-385 | it does not end exactly if the process lies in a set all of whose members follow their parents into the set |
| GroupKey.MutualParentsLoop | context/snapshot.go:371-385 | two non-generic processes that name each other as parent are such a set |
| GroupKey.SameKeyAsParent | context/snapshot.go:375-385 | child and followed parent get the same key |
| GroupKey.SameKeyAsAncestor | context/snapshot.go:375-392 | all followed ancestors share the key, and it is the name of the topmost |
| GroupKey.OwnKey | context/snapshot.go:371-392 | a process with parent 0, 1 or 2, an unknown one, or systemd, bash, zsh, sshd or the tmux server is its own app, under its binary path, or under its name if it has none |
| GroupKey.ParentsKey | context/snapshot.go:371-385 | any other has its parent's key |
| FamilyPrinter.ProcessFamily | context/query.go:252-383 | an error exactly for an unknown PID; otherwise the rows are those of the specified listing of the text view, with PID, name, depth and target mark; for any snapshot, PIDs with a live and an exited record included, as long as climb and recursion end |
| FamilyPrinter.RowTells | context/query.go:317-355 | on the rows themselves: the first and no other is at depth 0 and is the root's; any other is one level below the nearest earlier row of smaller depth, a parent of one of its PID's records; names come from the live record first; the mark is at the target's rows |
| FamilyPrinter.ProcessFamilyJSON | context/query.go:1598-1666 | the same for the nested view: the paths of the nested nodes are the specified listing, and every node is labelled after its process |
| FamilyPrinter.Printer.PrintTree | context/query.go:317-355 | one call appends the node's row and then exactly the listing below it |
| FamilyPrinter.BuildNode | context/query.go:1639-1659 | one call builds the node with exactly the listing below it |
| FamilyPrinter.ChildrenMap | context/query.go:258-264 | each PID's children from the live and the exited processes, ascending, a PID twice under a parent that both its records name |
| FamilyPrinter.ClimbToRoot | context/query.go:266-286 | root and chain are the last process of the ancestor chain and the set of all its processes |
| Family.FamilyExactly | context/query.go:266-383 | the text view shows exactly the ancestor chain, the recorded children of the target's parent, and the target with all its descendants |
| Family.FamilyTreeExactly | context/query.go:1622-1661 | the nested view shows exactly the family root and all its descendants |
| Family.ChainExactly | context/query.go:266-286 | the ancestor chain is the least set with the target and, for each member, its parent if that is known and not 0, 1 or 2; the root is its member without such a parent |
| Family.ShownExactly | context/query.go:331-355 | either listing is in preorder with ascending siblings and holds exactly the view's paths |
| Family.ClimbLoopsIff | context/query.go:271-286 | the climb to the root does not end exactly if the target lies in a set all of whose members climb on into the set |
| FamilyLoops.EndsIff | context/query.go:317-355 | for any snapshot, either recursion ends exactly if no path comes back to a PID |
| FamilyLoops.EndsWithinSize | context/query.go:317-355 | and if it ends at any depth, it ends within as many levels as there are PIDs |
| FamilyLoops.TreeLoopsIff | context/query.go:1639-1659 | for any snapshot, `ProcessFamilyJSON` recurses forever exactly if some process at or below the root is below itself |
| FamilyLoops.TreeLoopsIffRoot | context/query.go:1639-1659 | with one record per PID: exactly if the root is its own ancestor; cycles elsewhere do not matter |
| FamilyLoops.TextLoopsIff | context/query.go:331-355 | for any snapshot, `ProcessFamily` recurses forever exactly if the records hold a cycle, without a process that is its own parent, at or below the target, or one that meets the ancestor chain and each step of which leads to a process of the chain or from the target's parent |
| FamilyLoops.TextLoopsIffRoot | context/query.go:331-355 | with one record per PID: exactly if the root is its own ancestor, not its own parent, and either below the target or the child of a sibling of the target |
| FamilyLoops.SiblingCycleLoops | context/query.go:331-355 | a snapshot of three processes for which it does, with the target not on the cycle |
| FamilyLoops.PidTwiceIff | context/query.go:259-264 | for any snapshot, some PID is shown twice exactly if some PID has a live and an exited record and both are shown |
| FamilyLoops.RecordShownIff | context/query.go:326-344 | a record has a row exactly if its recorded parent is shown and, in the text view, the record is of the chain, a sibling of the target or below it, and not its own parent |
| FamilyLoops.NoPidTwice | context/query.go:259-264 | with one record per PID no process is shown twice |
| Family.TargetShown | context/query.go:321-324 | the target is always shown: so then in exactly one row |
| FamilyLoops.ReusedPidTwice | context/query.go:259-264 | a snapshot with a reused PID that is shown twice |
| TreeModel.RunInv | context/handlers.go:34-289 | every state any run reaches: map key is node PID, effect key is effect target, effects within the cap, count at least 1, first not after last, detail fits kind, no child twice, live processes have no end time and exited ones have |
| TreeModel.StepInv | context/handlers.go:34-289 | any one step keeps that |
| TreeModel.GhostRetained | context/handlers.go:192-289 | over any run, a ghost stays while its PID does not exit again and no sweep ends past its retention time |
| TreeModel.ExitedStaysVisible | context/handlers.go:192-289 | the same from the exit event on |
| EventLog.IndexRefinesLog | context/handlers.go:145-247 | after any run of events, sweeps, discovery, metadata and marks in which no connect key is already kept, a live process's effects are exactly the first maxEffects distinct targets captured since its last reset, each with its exact number of occurrences, kind, first and last time |
| EventLog.ClockRefines | context/handlers.go:145-247 | and no connect key is, if the clock moves on between two connects of the process and it opens no file named like a fallback key |
| EventLog.ConnectDigestIff | context/handlers.go:207-232 | recording a connect keeps that if and only if its key is not already kept |
| EventLog.ConnectsCollide | context/handlers.go:207-232 | a run from the empty index in which it does not: two connects of a process at one clock reading are counted once |
| ChildLog.ChildrenExact | context/handlers.go:34-379 | after any run, c is a child of live p exactly if p has been live, neither executed anew nor exited, since a step in which live c was enriched, or unknown c discovered, with parent p > 0; each once, in the order in which that first happened |
| FieldLog.FieldsExact | context/handlers.go:34-379 | after any run, a live process has the start time of the step that last started it, the parent and path of the latest metadata since or else of that step, the latest readable command line or else that step's name, and is enriched exactly if discovered or marked since |
| FieldLog.LookupLands | context/handlers.go:85-113 | an endpoint goes to the live process if there is one, else to the exited one; no answer and an unknown key change nothing |
| FieldLog.LookupsAddUp | context/handlers.go:105-113 | over any number of lookups of one key the byte counters are the sums, the address is the last answer's, and nothing else changes |
| FieldLog.FallbackMoves | context/handlers.go:115-124 | the first answer for a fallback key moves the effect to `ip:port`, with the domain in parentheses if known, with its counters added |
| ProcessIndex.ProcessTree.HandleEvent | context/handlers.go:128-143 | on the objects: the new index is the model's, and every process and effect object is still owned exactly once |
| ProcessIndex.ProcessTree.HandleExec | context/handlers.go:145-164 | the same for exec: a fresh process replaces the old one, unless ignored |
| ProcessIndex.ProcessTree.HandleOpen | context/handlers.go:166-190 | the same for open |
| ProcessIndex.ProcessTree.HandleExit | context/handlers.go:192-204 | the same for exit: the object itself moves to the ghosts |
| ProcessIndex.ProcessTree.HandleConnect | context/handlers.go:207-232 | the same for connect |
| ProcessIndex.ProcessTree.GetOrCreateProc | context/handlers.go:235-248 | the live process, or a new stub put in the index |
| ProcessIndex.ProcessTree.EnrichProcessMetadata | context/handlers.go:34-73 | name, parent and path are set as the model says, and the live parent gains the child: `ChildLog.ChildrenExact` and `FieldLog.FieldsExact` say what that comes to over runs; unknown PIDs change nothing |
| ProcessIndex.ProcessTree.EnrichConnectionMetadata | context/handlers.go:75-125 | as the model says: `FieldLog.LookupLands`, `LookupsAddUp` and `FallbackMoves` say what that comes to |
| ProcessIndex.ProcessTree.DiscoverProcess | context/handlers.go:336-379 | a process found at start-up is added, enriched and linked as the model says, unless known |
| ProcessIndex.ProcessTree.SweepGhosts | context/handlers.go:277-289 | whatever the order and the clock readings: no ghost is left that was too old when the sweep began, none is gone that was not too old when it ended, and what is left is the same objects |
| ProcessIndex.ProcessCell.Clone | context/tree.go:106-137 | a fresh process with fresh effects, equal in value |
| ProcessIndex.ProcessCell.EnrichEffect | context/handlers.go:100-125 | the byte counters of an earlier detail are added, and key and target change together |
| ProcessIndex.NothingShared | context/tree.go:91-103 | processes in different map entries are different objects and share no effect; within a process no effect has two keys |
| FrozenCopy.TakeSnapshot | context/query.go:33-74 | whatever the system answers when asked: the copy shares no object with the index; the exited processes are copied exactly; every live process not yet enriched is enriched exactly once (metadata, then a lookup for each of its connects, then the mark) and copied right after, the others are not touched before their copy; with nothing to enrich, copy and index equal the index at the call, so every query on the copy, `groupKeyFrozen` included, gives what it would have given there |
| FrozenCopy.RunBeside | context/query.go:33-74 | no sequence of events, enrichment, discovery and sweeps on the index changes any object a snapshot reaches |
| FrozenCopy.Perform | context/handlers.go:34-289 | any one operation keeps the index in order and does what the model says |
| FrozenCopy.SnapshotInOrder | context/query.go:33-74 | every invariant of the index holds of the copy |
| SharedCopy.TakeSnapshotShared | context/query.go:33-74 | with any operations of others in between wherever the lock is given up: every process live at the start and in every state gone through is in the copy; each process in the copy is as it was in a state the index went through meanwhile; one that was not enriched when its visit began has since got metadata, then a lookup for each connect that stayed one, then the mark; the copy shares no object with the index, and the exited processes are those of the last state |
| SharedCopy.SharedInOrder | context/query.go:33-74 | and if those operations are such as a run may hold, every invariant of the index holds of the copy |
| SslProbes.Probes.ReadEntry | ebpf/ssl/ssl.bpf.c:116-122 | the pointer is stashed under the thread, unless the map is full and has no entry for it |
| SslProbes.Probes.ReadReturn | ebpf/ssl/ssl.bpf.c:124-139 | the thread's entry is gone afterwards; 0 and every negative 32-bit result emit nothing, and so do a missing entry and a full ring buffer; otherwise a result below 2^31 emits the stashed buffer with min(result, 4096) bytes |
| SslProbes.RunInv | ebpf/ssl/ssl.bpf.c:78-218 | for every interleaving of threads, nested calls, refused inserts and dying threads: the map stays within its bound and the stash describes the innermost open call |
| SslProbes.StashIsInnermost | ebpf/ssl/ssl.bpf.c:78-83 | a thread's entry is its innermost open call's buffer, and is there exactly if the insert was taken and no read was opened inside that call |
| SslProbes.EventsExact | ebpf/ssl/ssl.bpf.c:116-218 | the captured reads are, in order of return, those of the returns whose low 32 bits are between 0 and 2^31, exclusive, whose pointer was taken, with no read opened inside, and room: each with its own buffer and min(result, 4096) bytes |
| SslProbes.NoneRefused | ebpf/ssl/ssl.bpf.c:78-83 | in any run in which at most 8192 thread ids enter a read, no pointer is refused |
| SslProbes.ReturnsOnce | ebpf/ssl/ssl.bpf.c:116-218 | no call returns twice, so none is captured twice |
| RateLimiter.Limiter.Wait | intel/threatintel.go:46-67 | the request is recorded last; a call asks to sleep exactly if maxReqs requests lie in the window before it, and never for more than the window and 50 ms |
| RateLimiter.OverlapSafeIff | intel/threatintel.go:46-67 | from any state in which nobody sleeps, k calls keep the spacing however their halves interleave, exactly if at most one of them finds the limit reached, or so few that the last of as many oldest recent requests is less than 50 ms younger than the oldest |
| RateLimiter.OverlapBreaksSpacing | intel/threatintel.go:46-76 | the lookups' own limiter, four a minute, from its start: any five calls keep the spacing, some six do not |
| ThreatIntel.Client.CacheGet | intel/threatintel.go:80-88 | a hit is an entry not yet expired; a miss is none or an expired one |
| ThreatIntel.Client.CachePut | intel/threatintel.go:90-98 | the value expires exactly an hour after the clock reading at which it was stored, which is no earlier than the answer |
| ThreatIntel.Client.LookupVT | intel/threatintel.go:122-131 | if the last value fetched for the key was stored no longer than an hour before, it is returned without a request; otherwise one wait, one request, and its answer stored and returned |
| ThreatIntel.Client.LookupHash | intel/threatintel.go:118-132 | the same under the hash's key, the hour included; no key or no hash gives the empty result |
| ThreatIntel.Client.LookupDomain | intel/threatintel.go:135-149 | the same under the domain's key |
| ThreatIntel.Client.LookupIP | intel/threatintel.go:225-293 | private addresses are not looked up; a value stored no longer than an hour before is returned; otherwise a failure is returned but not stored, and an answer is stored; no limiter |
| ThreatIntel.Stored | intel/threatintel.go:90-98 | a fetch is made more than an hour after an earlier answer for its key was stored, and each entry is the last fetched value, good for an hour from its storing |
| ThreatIntel.HitTyped | intel/threatintel.go:123-125 | a cached value has the type its key's prefix says, so no type assertion fails |
| Collapse.CollapseEffects | context/snapshot.go:81-140 | distinct patterns by descending count, each line standing for exactly the non-noise effects of its pattern: their total count and number |
| Collapse.CollapseConserves | context/snapshot.go:81-140 | the counts sum to those of all effects that are not noise, the unique values to their number |
| Collapse.CollapseOrderIndependent | context/snapshot.go:81-140 | any two results, whatever the map order and the order of ties, have the same patterns with the same label, count and number |
| Collapse.SameCounts | context/snapshot.go:135-138 | and the same counts in the same order |
| Collapse.SharedLines | context/snapshot.go:93-114 | connects without a label share a line exactly if their targets are equal, whatever normalising would make of them; opens without one exactly if their normalised paths are; labelled ones exactly if their labels are |
| Collapse.OnLineIff | context/snapshot.go:84-87 | every connect is on a line, and an open exactly if its path is no noise |
| Summary.SummaryGroups | context/snapshot.go:806-897 | groups with distinct names, larger ones first, each holding exactly the live processes of its key, with processes a permutation of PIDs, by descending total |
| Summary.InExactlyOneGroup | context/snapshot.go:813-819 | every live process is at exactly one place in exactly one group |
| Summary.ProcessOf | context/snapshot.go:845-894 | exact totals by kind, and the head of a collapse of the effects with the number left out |
| Summary.TopEffects | context/snapshot.go:871-894 | for any result of it: the shown entries stand for different patterns, with descending counts that are the sums of the pattern's effects, and no other pattern has a larger sum; they are three, or all; caption, category and subtype follow from kind and target of the pattern's effects; the number left out is that of the other patterns |
| Summary.TotalsAddUp | context/snapshot.go:655-661 | the two totals add up to `totalEffects` |
| Summary.SameHead | context/snapshot.go:845-894 | whatever the map order: the same totals, the same top three counts in the same order, and the same number left out |
| HeapScan.FilterRegions | context/query.go:1231-1248 | exactly the regions, in order, whose label is no path, or is anonymous and outside the library directories, or is the binary itself and writable |
| HeapScan.PlanChunks | context/query.go:1277-1311 | the chunks are the plan's: whole below 2 MiB, else a MiB every four, or the first and last MiB |
| HeapScan.PlanApart | context/query.go:1277-1311 | for every size the chunks lie in the region, ascending and disjoint |
| HeapScan.DeepQuarter | context/query.go:1289-1301 | a deep plan covers at least a quarter of the region |
| HeapScan.DeepGaps | context/query.go:1289-1301 | and any 3 MiB and a byte of the region meet a chunk |
| HeapScan.PlanCoversIff | context/query.go:1277-1311 | a plan leaves no byte out exactly for regions below 2 MiB, and in quick mode also of 2 MiB |
| HeapScan.PlanReadsIff | context/query.go:1277-1311 | exactly which bytes a plan reads: all, the first MiB of every four, or the first and the last MiB |
| HeapScan.ScanHeap | context/query.go:1256-1370 | the reads made are a prefix of all planned ones, the whole if at most 200 values were found, and stop at the first read after which there are more; byte, error and finding counters are exact; `Truncated` says exactly that the limit was passed or a large region was read by its ends |
| HeapScan.FirstHitsExact | context/query.go:1325-1345 | no value is reported twice, none missed, each as first found |
| HeapScan.FindingsInRegions | context/query.go:1347-1360 | every finding is a match, of the pattern for its kind, in a chunk that was read, at the address its bytes come from, with its whole value in that chunk of the region it names; scores are 90 for keys, 80 for URLs with "api" or "secret", 50 otherwise |
| HeapScan.NothingMissed | context/query.go:1347-1360 | the value of every match of any of the four patterns in bytes that were read is reported |
| HeapScan.UntruncatedIff | context/query.go:1276-1370 | without truncation and read errors, and with full reads, a quick scan has read every byte; a deep one exactly if no region was large |
| MapRegions.MergeRegions | context/query.go:490-540 | the summaries are those of a division of the valid lines, in order, into maximal runs of equal path and permissions |
| MapRegions.LineCounts | context/query.go:496-517 | a line counts exactly if it has five fields and a single dash in the first; what is read from it; a path of several words can be split into them again |
| MapRegions.SummaryTells | context/query.go:519-537 | a summary has the start of its first line, the end of its last, and the path and permissions of all its lines |
| MapRegions.RunsUnique | context/query.go:519-537 | there is only one such division, so the contract determines the result |
| MapRegions.SizesConserved | context/query.go:512-522 | sizes add up to those of the lines, modulo 2^64 |
| MapRegions.RangesInOrder | context/query.go:519-537 | for lines in order the printed ranges are in order, disjoint and at least as wide as the size beside them: as wide exactly if the merged lines leave no gap |
| Chat.Conversation.ManageHistory | llm/bridge.go:385-418 | the history becomes the pruned one |
| Chat.Conversation.UpdateSnapshot | llm/bridge.go:366-373 | one notice is appended |
| Chat.PrunedLeast | llm/bridge.go:400-418 | the pruned history is the first message and what is left after the shortest cut that fits or leaves one message, and there is only one such; it fits unless it is the first and the last message alone |
| Chat.PrunedTwice | llm/bridge.go:385-418 | pruning again changes nothing |
| Chat.ChatLoop | main.go:842-902 | the histories sent and the one left are those of the specified loop: prune, call, append, answer each tool call in order, until an error or a reply without calls |
| Chat.LoopSteps | main.go:842-902 | the loop ends with the first failure, which adds nothing, or the first reply without tool calls, which is the last message left; otherwise the next history sent is pruned from the last one, the reply, and one result for each call in order with its id, its name and its tool's answer |
| Chat.LoopOrderly | main.go:842-902 | whatever is replied, every history sent begins with the prompt, is pruned, and has each tool call followed by all its results in order |
| Chat.SessionOrderly | main.go:716-724 | from a new conversation on, the same over any sequence of questions and refreshed snapshots between loops |
| Chat.CutOrphansIff | llm/bridge.go:404-417 | a cut of an orderly history leaves results without their call exactly if the first message kept after the prompt is a tool result |
| Chat.PrunedOrphansIff | llm/bridge.go:385-418 | so does pruning, exactly if the rest of the history fits from a tool result on and from no message before it |
| Chat.OrphansSentIff | main.go:842-902 | for every prompt, question, reply with tool calls and results in a new conversation, the history the loop sends next holds results whose call is gone exactly if prompt, reply and results together exceed the limit |
| Chat.OrphansSent | llm/bridge.go:62-64 | with the default limits nine summaries of the largest size exceed it, whatever the prompt and the question |
| Chat.InsertBreaksIff | main.go:304-304 | a notice put into an answered history leaves it answered exactly if it is not between a call and its last result |

## Left out

- FamilyPrinter.ProcessFamily: processes read from the proc file system on the way (untracked parents and children); requires that climb and recursion end, for which `Family.ClimbLoopsIff` and `FamilyLoops.TextLoopsIff` are the exact conditions.
- FamilyPrinter.ProcessFamilyJSON: the same, with `FamilyLoops.TreeLoopsIff`.
- GroupKey.GroupKeyFrozen: requires that the parent chain ends, which the code does not check; `GroupKey.LoopsIff` is the exact condition.
- Summary.SummaryGroups: requires the same of all live processes; the list of recently exited processes and the CPU share are not modelled.
- Summary.ProcessOf: the CPU share of a process.
- RateLimiter.Limiter.Wait: one caller at a time; overlapping calls are the subject of `RateLimiter.OverlapSafeIff`.
- RateLimiter.OverlapSafeIff: for a window shorter than the 50 ms margin, only states with the limit reached.
- ThreatIntel.Client.LookupVT: calls do not overlap, and the request and its reply are one input.
- FrozenCopy.TakeSnapshot: no other handler runs in the moments its lock is given up for enrichment, which is the subject of `SharedCopy.TakeSnapshotShared`; the snapshot's timestamp and tool path are not modelled.
- SharedCopy.TakeSnapshotShared: the unlocked reading of a process's effects while another handler changes them; the walk begins from the effects of the process that then has the PID, and may look up any further keys.
- FrozenCopy.RunBeside: operations run one after another, as their locks make them.
- ProcessIndex.ProcessTree.HandleEvent: effect counts are unbounded integers, and the slices of children are values.
- ProcessIndex.ProcessTree.EnrichConnectionMetadata: the address family and the socket path of a connection's detail.
- ProcessIndex.ProcessCell.Clone: the CPU figure of a process.
- EventLog.IndexRefinesLog: runs without endpoint lookups, which re-key effects.
- Chat.ChatLoop: at most as many replies as are given are taken, and a snapshot refreshed during the loop is only treated by `Chat.InsertBreaksIff`.
- Chat.Conversation.UpdateSnapshot: the snapshot that the tools answer from is not modelled, and the notice's text is an input.
- HeapScan.FindingsInRegions: assumes that matches lie in the bytes read, that the key pattern's first group took part, and that no region ends past 2^64.
- HeapScan.PlanChunks: region sizes are unbounded integers; near 2^63 the code's deep loop would overflow.
- MapRegions.MergeRegions: splitting a line into fields and reading hexadecimal numbers are inputs; the text printed from the summaries is not modelled.
- ProcPanel.BuildProcTree: the CPU label, which depends on floating-point samples.
- Go may or may not visit map entries added during an iteration; enrichment in the model visits any number of further entries in any order after the present ones.
- The connectors drawn before a row of the family view; a row's depth stands for them.
- Drawing, key handling, report cards and configuration of the terminal interface.
- HTTP client and server, the snapshot store, the keyring and the model service's client.
- Decoding stored effects (`UnmarshalJSON`) and the metrics refresh.
- The TLS write probes, which keep no state, and the loading of the probes.
- Reconstruction of HTTP exchanges from captured bytes, and the noise, label and path rules, which are arbitrary functions in `Collapse`.
