# Owned launches, residency probe, privacy arithmetic and maintenance metrics, proved

This project models four parts of the repository and proves what they are for. Every
statement is a Dafny contract or lemma; nothing here runs the programs. Verify with
`dafny verify dfyconfig.toml`.

**Owned-launch accounting.** A launch charges CPU and memory to a group of processes while
the system reuses pids, processes exit, queries fail and a sampler thread runs beside the
owner. The system is an adversary: each native query is a method that may answer anything
a system can, and may fail at any call.

- `CommandLine`, `EnvironmentBlock`: the Windows command line and environment block, with
  the platform's parser written from its documented rules (Microsoft, "Parsing C
  command-line arguments").
- `LedgerHistory`, `LedgerObject`: the capped identity ledger, as a function of its whole
  history of calls and as objects updated in place.
- `Phases`: phase marks and active CPU.
- `NativeJob`, `JobHistory`, `WindowsJob`: handles and attribution. A native call has the
  precondition that its handle is open, so a verified backend never uses a closed one, and
  every query logs its answer. `JobHistory` says what a history of ledger calls and answers
  means; the backend's contracts are statements about the two histories. The sampler's
  locked region is one turn; the owner's unlocked calls may coincide with anything,
  because the handles they use stay open for as long as the owner may use them
  (`owners <= live`).
- `CgroupClose`: the drain, the lifetime reading and the removal of a Linux control group.
- `TaskPort`, `DarwinTree`: the Mach task query and the process-tree walk. Every query,
  wait and signal is logged by the system, and what a sample accepts and a run did is
  proved from those logs. A sample is one locked region; the owner's waiting, stopping and
  closing take the lock only in places or not at all, so there any number of samples may
  run between two of its queries. That a live root's pid still means the root is assumed
  only where the launch is the one process that waits for its child (`exclusive`).

**Residency probe and its gate.** `Framing` is the byte level: little-endian words,
transfers in portions, frames. `ProbeChild` is the child as a step system, `ProbeKernel`
what the kernel does for the parent while the child takes any number of steps in between,
`ProbeParent` the parent call by call, and `ProbeEvidence` what its record owes to the
kernel's answers. `ProbeRecord` holds the record, the decision and
the emitted observation, `ReceiptGate` the separately written classifier.

**Exact privacy arithmetic.** `Sums`, `Products` and `PacketLaw` are finite sums and
counters; `Convolution`, `LinkedReports` and `Release` the linked-report law and the
release of documents. The packet law and the release function are arbitrary.

**Ranking and watching.** `Ranking` holds both implementations of deduplicated NDCG for
any positive, strictly decreasing discount; `Watch` the observation loop; `TextOrder` and
`RunRows` the choice and order of the latest runs.

## Findings

Corners where a plausible promise fails, each with its exact condition and a concrete
input that meets it proved:

- A program name with a quote mark, or one that needs quoting and ends in a backslash, is
  not read back from the command line (`CommandLine.WholeLineRoundTrip`,
  `CommandLine.TrailingBackslashNameIsMisread`). The other arguments always are. No
  Windows file has such a name; the launcher itself refuses only an empty list, a NUL and
  too much text (deploy/owned_launch_accounting.py:658-661).
- A task port that was obtained is left behind exactly if, while it is being dropped,
  asking for the own task raises, or the drop itself raises or returns nonzero; that is
  recorded always (`TaskPort.QueryTask`, `TaskPort.PortsCanBeLeftBehind`).
- The gate calls an honest record malformed exactly if the host reports a name that is not
  printable or longer than 64 characters (`ReceiptGate.ClassifiersAgree`,
  `ReceiptGate.RefusedHosts`).
- The two NDCG implementations differ exactly for a cutoff below 1 or nothing relevant:
  one returns 0, the other divides by zero or returns nothing
  (`Ranking.CompareImplementations`, `Ranking.Disagreements`).
- The list of runs depends on the order of the input exactly if a workflow has both a run
  without a branch and one on a branch with an empty name
  (`RunRows.OrderIndependentIffNoTie`, `RunRows.TwoTiedRuns`).
- Root exit and drain do not quite share one deadline, which
  deploy/owned_launch_accounting.py:1690-1691 says they do. A close of a control group looks
  at it, and may remove it, after the deadline exactly if the wait for the root read the
  clock at or past it, and it does so whenever the root is not seen to exit. That is the
  first look only; every later one follows a reading before the deadline and a sleep of
  50 ms (`CgroupClose.OnlyFirstLookPast`, `CgroupClose.RootStillRunning`,
  `CgroupClose.LookPastDeadline`). The wait itself counts the time that remains from its
  own first reading of the clock.

## Model

| member | source | states |
|---|---|---|
| CommandLine.CommandLineRoundTrip | deploy/owned_launch_accounting.py:1462-1485 | splitting the space-joined printed arguments by the documented rules for the arguments after the program name gives back exactly the list, for every list: empty arguments, inner quote marks and trailing backslashes included |
| CommandLine.CommandLineInjective | deploy/owned_launch_accounting.py:1462-1485 | no two argument lists share a command line |
| CommandLine.WholeLineRoundTrip | deploy/owned_launch_accounting.py:1184 | the whole line, program name included, is read back if and only if the program name contains no quote mark and, where it has to be quoted, does not end in a backslash |
| CommandLine.ProgramName | deploy/owned_launch_accounting.py:1184 | the program-name rule returns the printed name, and leaves the rest of the line, exactly under that condition |
| CommandLine.TrailingBackslashNameIsMisread | deploy/owned_launch_accounting.py:1184 | a concrete name that is misread |
| CommandLine.QuoteWindows | deploy/owned_launch_accounting.py:1462-1485 | the one-pass loop with its count of pending backslashes prints the recursively specified text |
| CommandLine.ScanQuoted | deploy/owned_launch_accounting.py:1462-1485 | one printed argument, whatever separated text follows, is scanned back and the scan stops exactly behind it |
| CommandLine.ScanEscaped | deploy/owned_launch_accounting.py:1466-1485 | inside quote marks the scanner undoes the escaping for any pending backslashes |
| CommandLine.ScanPlain | deploy/owned_launch_accounting.py:1463-1465 | an argument printed without quote marks is scanned verbatim |
| CommandLine.EscapedWithoutQuotes | deploy/owned_launch_accounting.py:1466-1485 | without quote marks the escaping only doubles the final backslashes |
| EnvironmentBlock.BlockRoundTrip | deploy/owned_launch_accounting.py:1494-1514 | decoding the block of any environment that can be built returns the same map |
| EnvironmentBlock.Build | deploy/owned_launch_accounting.py:1494-1514 | a block is refused exactly for an empty name, a name with an equals sign or a NUL in either part |
| EnvironmentBlock.BlockIsEntries | deploy/owned_launch_accounting.py:1509-1514 | the doubly terminated block is every entry with its own NUL, then one more NUL |
| EnvironmentBlock.DecodeEntries | deploy/owned_launch_accounting.py:1494-1514 | decoding reads every listed entry and stops at the empty one |
| LedgerHistory.RowsRefineHistory | deploy/owned_launch_accounting.py:253-352 | after any history of calls every row equals a recomputation from all observations of its identity: maximum, ends, earliest single breakdown with the greatest total, and final only if the latest post-drain query succeeded |
| LedgerHistory.RowsBounded | deploy/owned_launch_accounting.py:258-288 | never more than 512 rows, and only admissible identities have one |
| LedgerHistory.TruncatedMeansDropped | deploy/owned_launch_accounting.py:263-270 | the truncation flag is set exactly if a mentioned identity ended up without a row or a backend reported a cut list |
| LedgerHistory.DroppedMeansFull | deploy/owned_launch_accounting.py:263-270 | an identity is dropped only from a full ledger, which stays full |
| LedgerHistory.AbsentWithRoom | deploy/owned_launch_accounting.py:258-288 | an identity that is absent although there is room was never measured |
| LedgerHistory.ApplyGrows | deploy/owned_launch_accounting.py:258-343 | a call only adds rows, never beyond the cap |
| LedgerHistory.PeakStep | deploy/owned_launch_accounting.py:309-326 | the kept breakdown is replaced only by one with a strictly greater total |
| LedgerHistory.HalvesApart | deploy/owned_launch_accounting.py:290-326 | sizes and breakdowns of one observation never touch the same fields |
| LedgerObject.KeyTextInjective | deploy/owned_launch_accounting.py:262-264 | keying rows by the text of pid and creation is keying them by the pair |
| LedgerObject.DecimalInjective | deploy/owned_launch_accounting.py:262-264 | different numbers have different decimal texts |
| LedgerObject.LedgerBook.AddIdentity | deploy/owned_launch_accounting.py:258-288 | the object-level operation is the specified step; a full ledger returns nothing and sets the flag; a row object already there is the one returned |
| LedgerObject.LedgerBook.Observe | deploy/owned_launch_accounting.py:290-326 | in-place update of exactly one row object, equal to the specified step; every object it comes to hold is new, so the breakdown passed in is only read and never kept |
| LedgerObject.Entry.Split | deploy/owned_launch_accounting.py:314-326 | the three kept breakdowns are three objects of this row, each new when it changes, and equal the specified step |
| LedgerObject.Entry.Duplicate | deploy/owned_launch_accounting.py:243-250 | a row of its own with breakdowns of its own and the same value |
| LedgerObject.LedgerBook.NoteFinalPeak | deploy/owned_launch_accounting.py:328-343 | reports success exactly for a known row and a valid counter |
| LedgerObject.LedgerBook.ClearFinal | deploy/owned_launch_accounting.py:898-900 | clears the final flag of that row only |
| LedgerObject.LedgerBook.Public | deploy/owned_launch_accounting.py:345-352 | the rows in the strict order of their text keys, each a new object with new breakdowns of its own, so that no change on one side is ever seen on the other |
| LedgerObject.StrictlySorted | deploy/owned_launch_accounting.py:345-352 | sorting distinct identities by their text keys gives a strict order that holds exactly them |
| Phases.ActiveWithinLifetime | deploy/owned_launch_accounting.py:89-114 | for every sequence of marks whose clock and counter readings never decrease, whatever readings fail, the reported active CPU is at most the final lifetime counter and the active wall time at most the elapsed time, despite rounding per phase |
| Phases.PhasesOrderedAndChained | deploy/owned_launch_accounting.py:388-403 | whatever the counter says, under a clock that never goes back phases are ordered and disjoint, and the count that ends one starts the next |
| Phases.CombineActiveCpu | deploy/owned_launch_accounting.py:89-114 | the total is null exactly if no phase is active or some active phase lacks a reading or has one that goes back, so a measured zero counts; otherwise it is the sum over the active phases |
| Phases.PhaseReadings | deploy/owned_launch_accounting.py:388-403 | phase k holds exactly the readings number 2k and 2k+1 and the counts of the marks around it |
| Phases.NamesByPattern | deploy/owned_launch_accounting.py:42-42 | a phase name is one letter or digit and up to 63 more, or hyphens |
| Phases.CpuWithinLifetime | deploy/owned_launch_accounting.py:89-114 | the CPU half of the bound, whatever the clock says |
| Phases.WallWithinElapsed | deploy/owned_launch_accounting.py:89-114 | the wall-clock half of the bound, whatever the counter says |
| Phases.PhaseWithinRun | deploy/owned_launch_accounting.py:388-403 | every phase lies between the first reading of the clock and the last |
| Phases.ActiveCpuBelow | deploy/owned_launch_accounting.py:89-114 | deltas of ordered phases fit below any bound on their last readings |
| Phases.ActiveWallBelow | deploy/owned_launch_accounting.py:89-114 | rounded durations of disjoint phases fit into the span they lie in |
| Phases.OwnedLaunch.MarkPhase | deploy/owned_launch_accounting.py:388-403 | an accepted mark closes and opens a phase; a refused one changes nothing |
| Phases.OwnedLaunch.CloseOpen | deploy/owned_launch_accounting.py:473-480 | closes the open phase with one reading |
| Phases.OwnedLaunch.Finish | deploy/owned_launch_accounting.py:415-471 | only the first finish works; it reports the phases of all accepted marks and their active total |
| WindowsJob.AnySchedule | deploy/owned_launch_accounting.py:642-1040 | for every interleaving of the sampler with the owner and every pattern of failed native calls, no handle is open after the close; since a native call needs an open handle, none was used after it was closed and each was closed exactly once; after a successful spawn every row is one of a process that a handle proved to be a member of the job |
| WindowsJob.Turns | deploy/owned_launch_accounting.py:482-496 | any sequence of turns keeps the invariant, and a closed launch stays closed |
| JobHistory.RowIsOneProcess | deploy/owned_launch_accounting.py:803-884 | every size in a row was measured on the one process that its pid and creation name, across any reuse of pids |
| JobHistory.SizesWereMeasured | deploy/owned_launch_accounting.py:875-901 | so was every size in the history of calls |
| JobHistory.SampleMeans | deploy/owned_launch_accounting.py:776-801 | in any sample with a readable list every listed pid but the observer is looked at, exactly once, and the sum compared with the highest so far is that of the sizes that the pass filed |
| JobHistory.OthersAreAll | deploy/owned_launch_accounting.py:790-793 | the pids to look at are the listed ones but the observer, each once |
| JobHistory.TallyIsFiled | deploy/owned_launch_accounting.py:788-796 | the sizes reported by a pass over distinct pids are exactly the sizes it filed |
| JobHistory.LookedHeld | deploy/owned_launch_accounting.py:803-819 | a look through a held handle reports a size only after that handle answered live, in the job and with the right creation |
| JobHistory.LookedNew | deploy/owned_launch_accounting.py:821-851 | a look through a newly opened handle reports a size only after that handle proved membership and creation |
| JobHistory.LookedAgain | deploy/owned_launch_accounting.py:803-810 | a look that no longer trusts the held handle is still one look |
| JobHistory.FollowedNext | deploy/owned_launch_accounting.py:886-901 | asking one more process appends exactly its answers and its verdict |
| JobHistory.NoneFailed | deploy/owned_launch_accounting.py:888-901 | no failure was counted exactly if every final question was answered |
| WindowsJob.WindowsJobBackend.TakeSnapshot | deploy/owned_launch_accounting.py:908-968 | what it reports follows from the answers it logged, and it asked nothing else (the limits once, which it does not use): the CPU time is user and kernel time together in whole microseconds, null exactly if the job could not be queried; the identities missing are exactly the processes the job counted at that moment that have no row; the final state is claimed exactly if the job was drained, some process is retained, and each was asked once after the drain and answered |
| WindowsJob.WindowsJobBackend.CpuMicroseconds | deploy/owned_launch_accounting.py:740-744 | one query of the job, and user and kernel time of its answer together in whole microseconds |
| WindowsJob.WindowsJobBackend.Spawn | deploy/owned_launch_accounting.py:686-707 | a spawn that succeeds proved its root under a handle of its own, retained it and gave it a row before it let it run, and let it run exactly once; one that fails was denied something by a logged answer, or its root has a pid or creation that no ledger takes, and it let nothing run, terminated the process it had created or its job, and still owns every handle it obtained |
| WindowsJob.WindowsJobBackend.Resume | deploy/owned_launch_accounting.py:703-707 | the root is let run once, and then one sample is taken; if that fails the job is terminated and nothing else happens |
| WindowsJob.WindowsJobBackend.RootHandle | deploy/owned_launch_accounting.py:711-723 | the handle for the root is a narrowed copy of its own, or one opened by its pid whose creation is the same; without one the root gets a row and one gap is counted by its kind |
| WindowsJob.WindowsJobBackend.RetainRoot | deploy/owned_launch_accounting.py:709-738 | the root is retained only under a handle that just proved to be that very process and a member of the job, and is then read; it is not only if an answer denied that or its identity is not admissible |
| WindowsJob.WindowsJobBackend.ProvedRoot | deploy/owned_launch_accounting.py:709-738 | a root handle that fails the membership or creation check is closed |
| WindowsJob.WindowsJobBackend.KeepHandle | deploy/owned_launch_accounting.py:853-873 | a handle is either the one handle of its identity or closed; it is refused exactly for a full table or an identity that no ledger takes |
| WindowsJob.WindowsJobBackend.Admitted | deploy/owned_launch_accounting.py:833-846 | an opened handle is admitted exactly if its two answers prove membership and a creation; a refusal counts as a rejection exactly if the answer was no |
| WindowsJob.WindowsJobBackend.SameLiveMember | deploy/owned_launch_accounting.py:812-819 | yes exactly if the held handle answered live, in the job and with its creation; no question is asked after a no |
| WindowsJob.WindowsJobBackend.OpenMember | deploy/owned_launch_accounting.py:821-851 | it reports one reading at most, made right after a full proof under that very handle and filed under that process; a look that reports nothing counted one gap, told the ledger that it is cut short, or has a handle held for the pid; the ledger is told so only for a full table or an identity that no ledger takes, and nothing is opened for a full table |
| WindowsJob.WindowsJobBackend.SamplePid | deploy/owned_launch_accounting.py:803-810 | every look asks for the pid, unless the tables are full; a process that is followed is asked through its held handle and read if that answered live, in the job and with its creation, and only if not is it given up and the pid opened again |
| WindowsJob.WindowsJobBackend.KeepAndRead | deploy/owned_launch_accounting.py:846-851 | a proved member is read once under its own identity, or the ledger is told that it is cut short |
| WindowsJob.WindowsJobBackend.OpenAdmitted | deploy/owned_launch_accounting.py:825-845 | a handle opened for the pid answers exactly the proof of one identity, or one gap is counted unless a handle is held for the pid |
| WindowsJob.WindowsJobBackend.ReadLive | deploy/owned_launch_accounting.py:875-884 | one memory query is made, and exactly what it answered is filed, under the process whose handle was asked |
| WindowsJob.WindowsJobBackend.SampleMembers | deploy/owned_launch_accounting.py:776-801 | each listed pid but the observer is looked at once, in the order of the list, each look as `SamplePid` says, and the sum of what the looks report is compared with the highest so far |
| WindowsJob.WindowsJobBackend.Sample | deploy/owned_launch_accounting.py:772-801 | under the lock the job is listed and each other process looked at once; without a list nothing is looked at and that is flagged; after a close nothing happens |
| WindowsJob.WindowsJobBackend.ReadFinalPeaks | deploy/owned_launch_accounting.py:886-901 | every retained process is asked exactly once and nothing else is; its row is final afterwards exactly if that question was answered, and the failures counted are exactly the others |
| WindowsJob.WindowsJobBackend.FinalPeak | deploy/owned_launch_accounting.py:886-901 | the verdict on a row is that of the question just put to its own handle, and no other row changes |
| WindowsJob.WindowsJobBackend.Gather | deploy/owned_launch_accounting.py:912-968 | the counters are asked first, then after a drain every retained process, then the list of pids, and everything with a row is among the processes counted |
| WindowsJob.WindowsJobBackend.Close | deploy/owned_launch_accounting.py:1015-1040 | every open handle is given back once, the tables are empty before any is closed, the stored result is the error of the first handle that could not be given back, and a later close returns it and gives nothing back |
| JobHistory.FirstFailureIsFirst | deploy/owned_launch_accounting.py:1032-1040 | there is such an error exactly if some close failed, and it is that of the first one |
| WindowsJob.WindowsJobBackend.CollectHandles | deploy/owned_launch_accounting.py:1015-1040 | the list of handles to close is all open ones, each once |
| WindowsJob.WindowsJobBackend.CloseAll | deploy/owned_launch_accounting.py:1015-1040 | after it no handle is open; each was closed in the order of the list, and the first failure of those closes is the result |
| CgroupClose.LinuxCgroupBackend.Close | deploy/owned_launch_accounting.py:1687-1737 | the log of every reading of the clock, sleep, poll, look and removal has exactly this form: the wait for the root, then rounds of one look, 50 ms apart, each but the first after a reading before the deadline; the lifetime is the value of the one reading made, complete exactly if there is a value and it was read right after the group was seen empty and before any removal attempt, as it always was if the close succeeds; success exactly if the leaf was removed, which ends it; failure only after a round that ended at or past the deadline; a retry exactly from the second attempt on; a later close repeats the stored result |
| CgroupClose.Budget | deploy/owned_launch_accounting.py:1700-1701 | the time to drain, 5 seconds unless a positive time of at most that was asked for |
| CgroupClose.NotAfterDrain | deploy/owned_launch_accounting.py:1731-1734 | the reading made after the last round is never taken for one of a drained group |
| CgroupClose.OnlyFirstLookPast | deploy/owned_launch_accounting.py:1701-1729 | in such a log a look comes after a clock reading at or past the deadline if and only if it is the first and the wait for the root had read one |
| CgroupClose.RootStillRunning | deploy/owned_launch_accounting.py:1701-1707 | which is so whenever the root was never seen to exit |
| CgroupClose.WaitRanOut | deploy/owned_launch_accounting.py:1701-1707 | and never if the root had exited, or there was none, when the close began |
| CgroupClose.LookPastDeadline | deploy/owned_launch_accounting.py:1701-1722 | the concrete log of a close of 5 seconds that looks at the group after them, and removes it |
| CgroupClose.RemovalStep | deploy/owned_launch_accounting.py:1714-1722 | a removal attempt on a group that was just seen empty keeps what the drain has established |
| CgroupClose.LinuxCgroupBackend.WaitRoot | deploy/owned_launch_accounting.py:1590-1598 | the wait reads the clock, polls and sleeps 20 ms while the reading is before its own deadline, counted from its own first reading, and says that the root exited exactly if the last poll did |
| CgroupClose.LinuxCgroupBackend.WaitForRoot | deploy/owned_launch_accounting.py:1702-1707 | a root that still runs is signalled, and waited for exactly if time is left |
| CgroupClose.LinuxCgroupBackend.Drain | deploy/owned_launch_accounting.py:1713-1730 | for every behaviour of the group it ends, with the removal or after a reading of the clock at or past the deadline that follows a look; it looks in rounds 50 ms apart, each but the first after such a reading before the deadline |
| CgroupClose.LinuxCgroupBackend.Round | deploy/owned_launch_accounting.py:1713-1727 | one look; removal is attempted exactly if it showed the group empty, after the lifetime reading |
| CgroupClose.LinuxCgroupBackend.Attempt | deploy/owned_launch_accounting.py:1717-1724 | the leaf is gone exactly if the attempt says so; the retry flag counts attempts |
| CgroupClose.LinuxCgroupBackend.ReadLifetime | deploy/owned_launch_accounting.py:1715-1716 | the reading is taken once, before any removal |
| CgroupClose.LinuxCgroupBackend.State | deploy/owned_launch_accounting.py:1739-1757 | the group counts as empty exactly if its member list was readable and held no process and its events file did not say populated; it asks for the member list and, only if that is empty, for the events |
| TaskPort.QueryTask | deploy/owned_launch_accounting.py:2497-2593 | what it reports follows from the answers it got; a port is left behind if and only if one was obtained and, while it was being dropped, asking for the own task raised or the drop raised or returned nonzero; a port left behind is always reported, and nothing else is |
| TaskPort.DroppedOnce | deploy/owned_launch_accounting.py:2522-2536 | a query asks for one drop of the port it obtained and of no other, unless asking for the own task raised |
| TaskPort.PortsCanBeLeftBehind | deploy/owned_launch_accounting.py:2522-2536 | two concrete queries with an accepted reading that leave their port behind, one for each way to fail |
| TaskPort.ReadReport | deploy/owned_launch_accounting.py:2551-2585 | an accepted reading needs a successful and complete answer, whatever becomes of the drop |
| TaskPort.Query.Run | deploy/owned_launch_accounting.py:2497-2593 | on every path, raised errors included, the record agrees with the calls made and the system holds exactly what was not dropped with success |
| TaskPort.Query.Release | deploy/owned_launch_accounting.py:2522-2536 | the port is asked to be dropped once, what became of it is recorded, and a second release changes nothing |
| DarwinTree.DarwinBackend.Sample | deploy/owned_launch_accounting.py:1981-2037 | for every changing process table a sample ends, accepts at most 64 distinct pids, each on its own evidence in the log, and files exactly those, each once, with the high water that its task query answered; unless it accepted 64, the root and every child that a logged answer confirmed for an accepted pid was accepted, is the observer or no pid, or was refused, with the logged answer that speaks against it |
| DarwinTree.ReachesDown | deploy/owned_launch_accounting.py:1989-2032 | such a sample accepted every descendant of the root that can be reached through confirmed children none of which was refused |
| DarwinTree.CoveredAccept | deploy/owned_launch_accounting.py:2014-2032 | accepting a pid and taking on its confirmed children leaves nobody out |
| DarwinTree.CoveredRefuse | deploy/owned_launch_accounting.py:2000-2013 | so does refusing one, with its reason in the log |
| DarwinTree.AcceptedDescends | deploy/owned_launch_accounting.py:1995-2030 | every accepted pid descends from the accepted root through parents accepted earlier, each with its frozen creation |
| DarwinTree.DarwinBackend.ChargeOwned | deploy/owned_launch_accounting.py:2199-2255 | a charged pid had one creation before and after its reading, its high water is the accepted peak of the task query in between, and for a child the parent and its frozen creation matched on both sides; a root with another creation is never charged; a pid is refused only if its last answer was missing or another one than these |
| DarwinTree.DarwinBackend.FreezeRoot | deploy/owned_launch_accounting.py:2212-2225 | the root creation is written once, never after the root was reaped |
| DarwinTree.DarwinBackend.Confirm | deploy/owned_launch_accounting.py:2226-2255 | the second half of the evidence: the task query that gives the high water, then the identity once more |
| DarwinTree.DarwinBackend.PortQuery | deploy/owned_launch_accounting.py:2230-2231 | the task query is made for that pid, and what is filed is what the Mach calls answered |
| DarwinTree.DarwinBackend.Identify | deploy/owned_launch_accounting.py:2199-2225 | the first half of the evidence |
| DarwinTree.DarwinBackend.Walk | deploy/owned_launch_accounting.py:1989-2037 | the stack walk ends, counts exactly what it accepted, and leaves out nobody as `Sample` says |
| DarwinTree.DarwinBackend.Advance | deploy/owned_launch_accounting.py:1995-2030 | one pid is counted at most once, and its confirmed children become pending |
| DarwinTree.SizesAddUp | deploy/owned_launch_accounting.py:2021-2023 | every size that is known adds to the sum of the sample, once |
| DarwinTree.DarwinBackend.ConfirmedChildren | deploy/owned_launch_accounting.py:2024-2032 | the children of the pid are asked for and then the parent of each; exactly those that name the pid are kept |
| DarwinTree.DarwinBackend.Visit | deploy/owned_launch_accounting.py:1995-2018 | a pid is accepted on its evidence or refused for an answer in the log |
| DarwinTree.DarwinBackend.OwnedParent | deploy/owned_launch_accounting.py:2000-2005 | an owned parent was accepted earlier in the same sample, and none is returned only if the answer named no process accepted by then |
| DarwinTree.ChainStep | deploy/owned_launch_accounting.py:1995-2030 | accepting a proved pid keeps the chain of evidence |
| DarwinTree.DarwinBackend.CaptureWait4 | deploy/owned_launch_accounting.py:2171-2190 | at most one wait; the total and the return code kept are those of the decisive wait, and nothing is asked or changed after it |
| DarwinTree.DarwinBackend.CpuMicroseconds | deploy/owned_launch_accounting.py:1930-1954 | after reaping it is the captured total, a missing one included; before, it is the counter of one query of the root, and only if that answer has the frozen creation |
| DarwinTree.DarwinBackend.Terminate | deploy/owned_launch_accounting.py:2039-2057 | the first attempt, with a usable pid and a frozen creation, looks at the leader and then, unless that answer has another creation, sends exactly one signal to the root group, although a sample may run in between; the pid is said to be reused exactly if it has; no other attempt sends or asks anything |
| DarwinTree.DarwinBackend.StopGroup | deploy/owned_launch_accounting.py:2119-2126 | a close that is the first to do so tries to stop the group, unless an answer shows the group empty |
| DarwinTree.DarwinBackend.TerminateUnlessEmpty | deploy/owned_launch_accounting.py:2123-2126 | a group that a look shows empty is not signalled, and any other is tried to be stopped |
| DarwinTree.DarwinBackend.LastLook | deploy/owned_launch_accounting.py:2127-2139 | the group is looked at until a look does not show it occupied, for no less than 2 seconds if all do, and once more, and the result is what that look showed |
| DarwinTree.DarwinBackend.StillActive | deploy/owned_launch_accounting.py:1956-1968 | a root that was not reaped is active; after that exactly what the look at the group showed counts |
| DarwinTree.ReturnCodeMeans | deploy/owned_launch_accounting.py:2340-2349 | the word of an exit gives its code, that of a signal, with or without a core, the negative signal, that of a stop nothing |
| DarwinTree.AcceptedPeak | deploy/owned_launch_accounting.py:2243-2254 | the high water is the peak of the answer, taken exactly if the query was accepted, complete and gave one that is not negative |
| DarwinTree.DarwinBackend.WaitRoot | deploy/owned_launch_accounting.py:1969-1979 | a root is reported as exited exactly if it was reaped, and as running only after the whole time, with samples running between any two captures |
| DarwinTree.DarwinBackend.Close | deploy/owned_launch_accounting.py:2112-2146 | the result is stored: what stopping the group came to, if it was tried and failed, else what the last look at the group showed, and if that is empty, whether a port was left behind; success means that no port is held by the system and that the last answer listed nobody in the group but the observer |
| DarwinTree.DarwinBackend.QueryGroup | deploy/owned_launch_accounting.py:2154-2169 | the state is exactly what the answer on the leader and then the list of the group show, although a sample may run between the two queries |
| DarwinTree.AnyRun | deploy/owned_launch_accounting.py:1883-2255 | over every schedule, with the sampler also running wherever the longer calls of the owner do not hold the lock, by the account of the process table: at most one signal, no wait after the decisive one and its total is the one kept, and a frozen creation that the table answered, the root's own if nobody else can reap the root |
| Framing.Endpoint.TransferAll | deploy/probe_darwin_residency.c:55-91 | for every schedule of short transfers, interrupts and empty polls: 0 exactly if the whole buffer was moved, in order |
| Framing.ReadFrames | deploy/probe_darwin_residency.c:128-138 | a reader that stops at its first failure gets a prefix of the frames written, whatever a failed last write left behind |
| Framing.WriteFrames | deploy/probe_darwin_residency.c:121-126 | successful writes put exactly the encoded frames on the pipe |
| Framing.Endpoint.WriteFrame | deploy/probe_darwin_residency.c:121-126 | success writes the encoding, failure less than one frame of it |
| Framing.Endpoint.ReadFrame | deploy/probe_darwin_residency.c:128-138 | success decodes the next twelve bytes, failure consumes fewer |
| Framing.NextFrame | deploy/probe_darwin_residency.c:128-138 | twelve bytes at a frame boundary are the next frame |
| Framing.EncodedAt | deploy/probe_darwin_residency.c:121-126 | frame k occupies bytes 12k to 12k+12 |
| Framing.FrameRoundTrip | deploy/probe_darwin_residency.c:93-138 | decoding undoes encoding for every 32-bit opcode and 64-bit value |
| Framing.BytesRoundTrip | deploy/probe_darwin_residency.c:93-138 | encoding undoes decoding for every twelve bytes |
| Framing.ReadingOnIsRightAtBoundaries | deploy/probe_darwin_residency.c:128-138 | why both programs stop at the first failed read: a read at an offset of r bytes returns one of the frames written, whatever they are, if and only if r is a frame boundary |
| Framing.NumberOfLittleEndian | deploy/probe_darwin_residency.c:93-119 | loading undoes storing |
| Framing.LittleEndianOfNumber | deploy/probe_darwin_residency.c:93-119 | storing undoes loading |
| Framing.StoredByte | deploy/probe_darwin_residency.c:93-105 | byte i is the value shifted right by 8i and truncated |
| Framing.StoreU32 | deploy/probe_darwin_residency.c:93-98 | stores four little-endian bytes in place and touches nothing else |
| Framing.StoreU64 | deploy/probe_darwin_residency.c:100-105 | stores eight little-endian bytes in place and touches nothing else |
| Framing.LoadU32 | deploy/probe_darwin_residency.c:107-110 | loads the number the four bytes stand for |
| Framing.LoadU64 | deploy/probe_darwin_residency.c:112-119 | loads the number the eight bytes stand for |
| ProbeParent.Parent.Probe | deploy/probe_darwin_residency.c:569-661 | in every interleaving of parent, child, pipes and deadline: an accepted run has exactly one order of events (ready, baseline, allocate, touch, child reading, done, live sample, release, exit, reap, post query, port drop) with the recorded peaks; with an honest counter no peak is ever out of order or decreasing; each port obtained is dropped exactly once; the child is reaped at most once; a run whose calls all succeed before the deadline has both samples, with the outcome that the three peaks and the two sizes decide; and whatever happened, every field of the record that decides the outcome is what the logged answers say: name request, samples, frame with the child's reading, drop, wait status, lateness and failures; what it says of the run in words has its ground in them too |
| ProbeEvidence.OutcomeFromAnswers | deploy/probe_darwin_residency.c:344-370 | the name port is denied exactly if the one name answer was an error and the child exited with 0 in time with everything given back; the run failed exactly if it did not, or no name was asked for |
| ProbeEvidence.WaitStep | deploy/probe_darwin_residency.c:240-304 | what one answer of waitpid changes: the first status found counts, an error counts against the run unless a kill was sent before, and once the child is reaped any answer but that there is none does |
| ProbeEvidence.IdledStep | deploy/probe_darwin_residency.c:246-248 | waits that are interrupted change nothing |
| ProbeEvidence.OrderLostStep | deploy/probe_darwin_residency.c:603-607 | a lost order makes the run late exactly if the second reading of the clock after it is |
| ProbeEvidence.KillStep | deploy/probe_darwin_residency.c:287-293 | a kill makes the run late, and fails it if it is refused |
| ProbeParent.AcceptedRun | deploy/probe_darwin_residency.c:569-661 | for all peaks in order and a size that grew, a run of an honest kernel and child that takes the handshake to its end, with the accepted record |
| ProbeParent.Verdict | deploy/probe_darwin_residency.c:344-370 | what an outcome says about the order of events and the peaks |
| ProbeParent.Parent.Handshake | deploy/probe_darwin_residency.c:575-642 | a live sample is complete only after the whole handshake |
| ProbeParent.Parent.TakeLive | deploy/probe_darwin_residency.c:620-638 | the live sample is taken of a child that has not been reaped, and the detail fits the peaks |
| ProbeParent.Parent.StillUnreaped | deploy/probe_darwin_residency.c:240-263 | says yes only of a child that has not been reaped and at the answer had not ended; otherwise the child was reaped here or earlier, or the run fails |
| ProbeParent.Parent.ReapOwned | deploy/probe_darwin_residency.c:265-307 | ends for every clock and interrupts, with at most one kill, and only of a child that has not been reaped; afterwards the child is reaped, or it could not be waited for or killed, or the kill was sent and the wait after it failed |
| ProbeParent.Parent.KillIfLate | deploy/probe_darwin_residency.c:286-306 | a kill at or past the deadline, and before it a sleep |
| ProbeParent.Parent.Measure | deploy/probe_darwin_residency.c:575-645 | a run whose calls all succeed before the deadline has both samples and a child reaped after a clean exit |
| ProbeParent.Parent.KillAndWait | deploy/probe_darwin_residency.c:287-304 | past the deadline: one kill, then a wait until it is not interrupted, which reaps the child or fails |
| ProbeParent.Parent.ReleaseAndReap | deploy/probe_darwin_residency.c:309-325 | a release that reached the child cleanly is the only way to a clean exit; the release is written once, unless the deadline is reached or the run had timed out |
| ProbeParent.Parent.DropPort | deploy/probe_darwin_residency.c:327-342 | no port is held afterwards |
| ProbeParent.Parent.ConfirmReap | deploy/probe_darwin_residency.c:646-653 | a reaped child is asked for exactly once more, and any answer but that there is none fails the run |
| ProbeParent.Parent.Conclude | deploy/probe_darwin_residency.c:646-661 | the outcome, its exit code and what they say about order and peaks; no outcome but a failure without a confirmed reap |
| ProbeChild.StepKeeps | deploy/probe_darwin_residency.c:140-187 | no step of the child, whatever fails and whenever it is killed, breaks the invariant of the handshake |
| ProbeChild.CommandKeeps | deploy/probe_darwin_residency.c:152-164 | reading the command keeps it |
| ProbeChild.MeasureKeeps | deploy/probe_darwin_residency.c:174-177 | the child's own reading lies between the baseline and the counter |
| ProbeChild.ReportKeeps | deploy/probe_darwin_residency.c:178-180 | the done frame carries that reading |
| ProbeChild.FinishKeeps | deploy/probe_darwin_residency.c:181-186 | the child exits cleanly only after a release |
| ProbeChild.AllEventsInOrder | deploy/probe_darwin_residency.c:569-661 | a run that came to the end of the handshake has exactly the accepted list of events |
| ProbeChild.WordDecodes | deploy/probe_darwin_residency.c:345-345 | a wait status tells every ending apart, core dumps included |
| ProbeKernel.HearKeeps | deploy/probe_darwin_residency.c:128-138 | the only frame a parent on course can read is the one it waits for |
| ProbeKernel.SendKeeps | deploy/probe_darwin_residency.c:121-126 | a frame behind part of another one is noise, and only that |
| ProbeKernel.AnswerKeeps | deploy/probe_darwin_residency.c:198-212 | an honest answer after the child's reading is not smaller |
| ProbeKernel.ReapKeeps | deploy/probe_darwin_residency.c:265-276 | a clean exit after the live sample is only reaped when the release was written |
| ReceiptGate.ClassifiersAgree | deploy/darwin_residency_receipt.py:168-202 | for every record a run can leave, the Python gate classifies the emitted observation as exactly the outcome the C program chose, never as malformed, if and only if the host names are printable and at most 64 characters long |
| ReceiptGate.EmittedWellFormed | deploy/darwin_residency_receipt.py:82-146 | an emitted record is well formed exactly under that condition |
| ReceiptGate.RecomputeIsDecide | deploy/darwin_residency_receipt.py:168-194 | two independently written classifiers agree |
| ReceiptGate.OtherClaimsAreRefused | deploy/darwin_residency_receipt.py:196-202 | a record that claims any other outcome is malformed |
| ReceiptGate.OutcomeTextsDiffer | deploy/probe_darwin_residency.c:344-370 | every outcome has a text of its own |
| ReceiptGate.DemonstratedExactly | deploy/darwin_residency_receipt.py:223-231 | the gate accepts the demonstration of a run exactly if the run found the live counter in order and came, in time, from the expected source on a Darwin host of the expected machine |
| ReceiptGate.EmissionReadsBack | deploy/probe_darwin_residency.c:445-567 | everything that decides an outcome, and the host, can be read back from the emitted record |
| ReceiptGate.ConclusionsReadBack | deploy/probe_darwin_residency.c:445-567 | so can the source, whether one was rejected, and what the record concludes about cleanup and peaks |
| ReceiptGate.ClassifiedObservation | deploy/darwin_residency_receipt.py:82-166 | whatever produced it, an observation that is classified makes no claim of acceptance, names probe, units and outcome as it must, and holds no value out of range |
| ReceiptGate.ExitMatchesGate | deploy/probe_darwin_residency.c:372-389 | the probe exits with 0 exactly if the gate accepts the live counter |
| ReceiptGate.DemonstrationIsOrdered | deploy/darwin_residency_receipt.py:223-231 | whatever produced it, an accepted observation has baseline, child and live peak in order and a larger live size |
| ReceiptGate.DetailsArePrintable | deploy/probe_darwin_residency.c:569-661 | every detail the parent can write passes the gate |
| ReceiptGate.RefusedHosts | deploy/darwin_residency_receipt.py:76-79 | two concrete hosts whose receipts are refused whatever the run |
| Convolution.Advance | deploy/assess_telemetry_privacy.py:144-150 | one pass of the nested loops takes the counter from the law of n independent steps, by enumeration of every sequence of steps, to that of n + 1; mass and support included, for every law on -1, 0 and 1 |
| Convolution.LawNext | deploy/assess_telemetry_privacy.py:144-150 | the step of that induction |
| Convolution.ChanceIsEnumeration | deploy/assess_telemetry_privacy.py:143-150 | the chance computed step by step is the weight of every sequence of steps |
| Convolution.ReachesByWord | deploy/assess_telemetry_privacy.py:143-150 | an exponent is a key exactly if some sequence of steps of the law leads to it |
| Convolution.WordsAreAllSequences | deploy/assess_telemetry_privacy.py:143-150 | the enumeration lists exactly the sequences of that length |
| Convolution.WordsDiffer | deploy/assess_telemetry_privacy.py:143-150 | and none twice |
| Convolution.Convolve | deploy/assess_telemetry_privacy.py:145-149 | the nested loops over two counters give each exponent the chances of all three ways to it, and multiply the masses |
| Convolution.AddSteps | deploy/assess_telemetry_privacy.py:147-149 | the inner loop adds the shares of all steps from one exponent |
| Convolution.ChanceBalance | deploy/assess_telemetry_privacy.py:153-154 | if going up is three times as likely as going down, then P(e) = 3^e P(-e) for every horizon |
| LinkedReports.LinkedReportRows | deploy/assess_telemetry_privacy.py:132-172 | from any two packet laws to the rows of the law they give; for laws swapped by a renaming of packets every row has likelihood ratio exactly 3^n and passes, at every horizon; a ratio other than 1/3, 1 and 3 is refused |
| LinkedReports.Assess | deploy/assess_telemetry_privacy.py:143-171 | for any law of one report: one row per horizon, in order, with the greatest likelihood ratio of the enumerated law, passed exactly if the chances still sum to 1 and that ratio is 3^n; refused exactly if at some horizon an exponent has no opposite |
| LinkedReports.ReportRow | deploy/assess_telemetry_privacy.py:153-169 | one such row, from a counter that holds the enumerated law |
| LinkedReports.MaximumOdds | deploy/assess_telemetry_privacy.py:153-154 | the greatest ratio over all exponents, refused if an opposite is missing |
| LinkedReports.MaximumIsGreatest | deploy/assess_telemetry_privacy.py:153-154 | the greatest ratio in the counter is the greatest ratio of the enumerated law |
| LinkedReports.ComparableIsEnumerated | deploy/assess_telemetry_privacy.py:152-154 | the loop meets no division by zero exactly if every reachable exponent has an opposite with a chance |
| LinkedReports.ProperRows | deploy/assess_telemetry_privacy.py:143-171 | for a proper law every horizon can be reported, and every row is exact and passes |
| LinkedReports.ProperOdds | deploy/assess_telemetry_privacy.py:153-169 | for a proper law 3^n is the greatest ratio and the mass stays 1 |
| LinkedReports.OddsArePowers | deploy/assess_telemetry_privacy.py:153-154 | no exponent beats 3^n and n reaches it |
| LinkedReports.SwapIsProper | deploy/assess_telemetry_privacy.py:133-139 | swapped hypotheses give a law with step(1) = 3 step(-1) > 0 and mass 1 |
| LinkedReports.SwappedShares | deploy/assess_telemetry_privacy.py:136-139 | reports three times likelier one way are together three times as likely as their counterparts |
| LinkedReports.StepLaw | deploy/assess_telemetry_privacy.py:133-139 | each exponent gets the share of all packets that have it |
| LinkedReports.Exponent | deploy/assess_telemetry_privacy.py:138-140 | the exponent is that of the ratio of the two shares to base 3, for the ratios 1/3, 1 and 3 and no other |
| Release.ReleaseKeepsBound | deploy/assess_telemetry_privacy.py:42-70 | pushing two packet laws through any deterministic release keeps equal support and every ratio within the bound, whatever the background |
| Release.SumsAreClose | deploy/assess_telemetry_privacy.py:42-70 | masses of one document are sums of close masses, so they are close |
| Release.ReplacementCase | deploy/assess_telemetry_privacy.py:92-128 | on every background and release, the check passes exactly if the two laws of released documents have one support, the right mass and no document more than three times as likely under either, and nothing withheld shows; for packet laws within the bound and of the right mass that leaves the last |
| Release.MaximumBound | deploy/assess_telemetry_privacy.py:97-103 | the greatest ratio is within the bound exactly if no document is more than so many times as likely under either law |
| Release.HiddenByPacket | deploy/assess_telemetry_privacy.py:58-63 | every document of the image law hides the withheld values exactly if no packet leads to one that shows them |
| Release.ImageLaw | deploy/assess_telemetry_privacy.py:42-70 | the loop computes the image law and whether every document hides what it should; refused if any packet is |
| Release.MaximumRatio | deploy/assess_telemetry_privacy.py:97-103 | the greatest ratio either way over the shared documents, 0 exactly if there is none |
| PacketLaw.SortedMass | deploy/assess_telemetry_privacy.py:65-66 | sorting masses by document or exponent loses and makes none |
| PacketLaw.SortedGrows | deploy/assess_telemetry_privacy.py:65-66 | adding one packet keeps every entry the sum of all packets that lead to it |
| PacketLaw.Total | deploy/assess_telemetry_privacy.py:96-96 | the sum over a counter does not depend on the order of iteration |
| Ranking.NormalizedBound | benchmarks/longmemeval_bench.py:62-75 | for any positive decreasing discount the score is in [0, 1], and 1 exactly if the first min(k, number of relevant) ranks are distinct relevant ids |
| Ranking.FrontIsBest | benchmarks/longmemeval_bench.py:53-59 | the exchange argument: moving gains to the front can only raise the score, and raises it unless they are there |
| Ranking.CompareImplementations | benchmarks/service_retrieval.py:51-72 | both implementations return the same number if and only if the cutoff is positive and something is relevant |
| Ranking.Disagreements | benchmarks/service_retrieval.py:51-72 | a concrete input for each way to differ |
| Ranking.ScoreBound | benchmarks/longmemeval_bench.py:62-75 | the score against the ideal one, with equality |
| Ranking.CountIsFound | benchmarks/service_retrieval.py:55-61 | as many ranks gain as there are distinct relevant ids among them |
| Ranking.Dcg | benchmarks/longmemeval_bench.py:53-59 | the loop computes the discounted sum of a slice |
| Ranking.RelevancesOf | benchmarks/longmemeval_bench.py:66-70 | a rank gains only for the first occurrence of a relevant id; an index out of range is an error |
| Ranking.Ndcg | benchmarks/longmemeval_bench.py:62-75 | 0 for a cutoff below 1 or nothing relevant, otherwise the normalized gain |
| Ranking.ScanRanks | benchmarks/service_retrieval.py:54-61 | one loop computes the ids seen, the gain and the reciprocal rank of the first relevant id |
| Ranking.RetrievalMetrics | benchmarks/service_retrieval.py:51-72 | all four metrics; no metric without relevant ids, a division by zero for a cutoff below 1 |
| Ranking.RecallIsComplete | benchmarks/service_retrieval.py:65-71 | recall is 1 exactly if nothing relevant is missing |
| Watch.Watcher.Observe | deploy/maintenance_snapshot.py:294-355 | for every sequence of successes and failures: with writing, the saved file and the memory hold the last success (or the initial file), and the page was written with the file or neither was; the exit code is 1 exactly if the last attempt failed; a watch of no length passes its failure on and changes nothing; the announcements are those of the history; any other watch ends only when its last reading of the clock shows no time left, or, with an interval of 0, on a failure |
| Watch.Watcher.Turn | deploy/maintenance_snapshot.py:302-354 | one turn keeps the agreement; it is the last exactly if the error is passed on, no time is left or a failure has no delay, and otherwise sleeps the delay announced for the failure, or the interval cut to the time left |
| Watch.Watcher.OnFailure | deploy/maintenance_snapshot.py:308-331 | a failure changes no snapshot and is announced once with its delay, which is 0 exactly if no time is left or the interval is 0 |
| Watch.Watcher.OnSuccess | deploy/maintenance_snapshot.py:332-350 | a success is written exactly if it changed anything and writing is wanted, to both files |
| Watch.StreakKeepsSuccess | deploy/maintenance_snapshot.py:308-331 | any streak of failures leaves the last success in place |
| Watch.FailuresAreAnnounced | deploy/maintenance_snapshot.py:313-327 | as many failures are announced as happened |
| Watch.RetryBounds | deploy/maintenance_snapshot.py:312-312 | the delay grows at most twofold, up to five minutes or the time that remains |
| Watch.RetryDoubles | deploy/maintenance_snapshot.py:312-312 | the delay is 1, 2, 4, 8 and from then on 16 intervals, at most five minutes and at most the time that remains |
| RunRows.FoldKeepsGreatest | deploy/maintenance_snapshot.py:57-89 | a workflow and branch is kept exactly if it has an eligible run, with the greatest id (the first of equal ones) |
| RunRows.EntriesTell | deploy/maintenance_snapshot.py:74-89 | what is kept of that run is its own id, attempt, commit, state, branch and workflow |
| RunRows.EligibleRuns | deploy/maintenance_snapshot.py:60-75 | a run counts exactly if it is of a listed workflow and the own repository, and was not over before the release was published, unless it is of the release |
| RunRows.WorkflowByPath | deploy/maintenance_snapshot.py:60-60 | the workflow is taken from a path exactly if the path is its name, perhaps in the folder of workflows and perhaps followed by a revision |
| RunRows.MapIndependent | deploy/maintenance_snapshot.py:57-89 | with distinct ids the kept runs do not depend on the order of the input |
| RunRows.OrderIndependentIffNoTie | deploy/maintenance_snapshot.py:90-90 | the resulting list does not depend on it either, if and only if no workflow has both an eligible run without a branch and one on a branch with an empty name |
| RunRows.OutputIndependent | deploy/maintenance_snapshot.py:57-90 | the first half of that |
| RunRows.FrontDecides | deploy/maintenance_snapshot.py:74-90 | of two tied rows the one whose run was listed first comes first |
| RunRows.TwoTiedRuns | deploy/maintenance_snapshot.py:90-90 | two concrete runs that change places with the input |
| RunRows.LatestRuns | deploy/maintenance_snapshot.py:57-90 | the loop computes the specified table and sorts it |
| TextOrder.SortStable | deploy/maintenance_snapshot.py:90-90 | the sort keeps the order of equal keys |
| TextOrder.BeforeAtFirstDifference | deploy/maintenance_snapshot.py:90-90 | a text is before another exactly if it ends within it or has the smaller character where they first differ |
| TextOrder.OrderedIsUnique | deploy/maintenance_snapshot.py:90-90 | an ordered list is determined by its elements of each key |
| TextOrder.SortInOrder | deploy/maintenance_snapshot.py:90-90 | the sorted list is an ordered permutation |

## Left out

- Real ctypes, Win32, Mach, procfs and cgroup calls and structure layouts: they are
  nondeterministic queries of an abstract system.
- `WindowsJobBackend` and `DarwinBackend` keep the ledger as a value tied to its history;
  the update in place and the copies handed out are modelled in `LedgerObject`.
- The thread machinery of the sampler (starting, joining, its period): a schedule is any
  sequence of turns. `wait_until_drained`, `coverage` and the report's texts.
- `LinuxCgroupBackend.sample`, the pinned signalling of cgroup members and the lookup of
  the own cgroup.
- Garbage, Unicode and locale: texts are sequences of characters, and the environment's
  sorting of names is any listing of them.
- ProbeParent.Parent.Probe: frames are transferred whole or not at all at this level; their bytes, portions and interrupts are proved in `Framing`, and a failed write that leaves part of a frame is followed by arbitrary noise.
- The probe's SIGTERM handler, signal masks, the two early exits of `main` before a child
  exists, and the closing of pipe ends (the child's reads may fail at any time anyway).
- JSON text, `extract_observation`, and the runner and file writing of the gate.
- `wire`, `catalog`, `AggregateWindow` and `publication` are not part of this model: the
  packet law and the release function are parameters. What it means for a
  document to hide a withheld value is a parameter too. The posterior and the inference
  success rate of a row.
- Floating point: shares, scores and discounts are reals, and the logarithm is any positive
  strictly decreasing discount.
- Embeddings, ChromaDB, `evaluate_retrieval` and `mean_interval`.
- `collect`, `issue_rows`, `markdown` and the counts of `changes`: a collection is a content
  that may differ or fail.
- Watch.Watcher.Observe: assumes that a collection takes at least one tick of the clock, so that a watch of any length ends.
- `RunRows` takes rows whose required fields are present; a missing field is an error the
  original raises.
