# Verified model of the hosted sandbox runtime and its canonical forms

This project models the parts of the repository whose correctness is a matter of ordering, interruption and canonical
representation, and proves what those parts are for.  `dafny verify dfyconfig.toml` checks all of it.

**The sandbox custody protocol** (`scripts/runsc_broker.py`).  A broker moves a worker's directories into root
custody, journals each phase before it depends on it, runs the sandbox, and later publishes or discards the output.
`Host` holds the filesystem of one container id (a map from paths to trees), its journal and the system calls, each
one atomic step; a crash keeps a prefix of the calls.  `Custody` writes `run` and `finalize` down as call sequences,
`Broker` is the imperative class that makes those calls, and `Recovery` proves what every cut of either one leaves.  A
recursive removal is two calls, begun and ended, and what is left in between is an arbitrary pruning of the tree;
`TreeShape` says path by path what that is.  `StartBarrier` interleaves broker, child and crash at the pipe barrier,
`ProcessOwnership` runs signalling and termination against a process table that may change at every wait.  `Cleanup` is
the stale-attempt sweep, over the same disks and the same finalize calls, with the calls that raise and the handlers
around them; `CleanupRepeats` proves what repeating an interrupted sweep achieves.  `EvidenceInstall` is the
write-once installer (`scripts/install_sandbox_evidence.py`) with any number of racing processes.

**The model-turn protocol.**  `ProxyLedger` is the model proxy's sessions and locks (`webapp/hosted/model_proxy.py`)
under arbitrary interleaving at every await; `ModelMessages` has the usage counts and content blocks as each side
reads them, and `ModelTurn` runs the sandbox's turn loop (`webapp/hosted/agent_loop_harness.py`) against the proxy's
handler.  All count tokens with `TokenTotals`.

**Canonical forms.**  `Sorting` has Python's string and tuple order and stable sorting.  `OpportunityDiff`,
`DiffMeaning`, `ChangeSet`, `ChangeSetLimits` and `Manifest` model `webapp/opportunity_state.py`; `PosixPath`,
`PathSpelling`, `RootfsDigest`, `RootfsTar` and `RootfsNormalize` model `webapp/hosted/rootfs_digest.py` up to the
bytes fed to SHA-256; `Text`, `Attribution` and `NotePassages` model `webapp/command_center_operations.py`;
`Firewall`, `FirewallRoundTrip`, `FirewallGrammar` and `FirewallEvaluation` model `webapp/hosted/firewall_policy.py`;
`Soql` models `webapp/soql.py`.  `Numerals` has the numbers that the digest stream, the dates and the firewall rules
write out.

## What the proofs found

Where a promise does not hold as the code stands, the model keeps the code and a lemma says exactly when it holds.

- A `finalize` cut between publication and the removal of its journal is retried with the record still in place.
  In a late phase no retry completes while the published tree is there (`Recovery.CutAfterPublication`).
- `finalize` refuses a staged output holding a symlink, socket or special file even when the record says to discard it
  (`Custody.FinalizeOutcome`, `Custody.DiscardRefusesSymlink`).
- `finalize` is documented to release an attempt only once process absence is proven.  When the recorded leader is
  already gone it does not look at the rest of the group (`ProcessOwnership.GateProvesAbsenceExactlyWhen`).
- Pid and start time identify a process for good only if the record was read in a later clock tick than the process
  started in (`ProcessOwnership.NeverMistakenExactlyWhen`).
- A sweep finalizes a candidate whose record is old however new its residue is, so an attempt that runs for longer
  than the minimum age loses its output (`CleanupRepeats.NewerResidueLeftAloneExactlyWhen`,
  `CleanupRepeats.LiveAttemptIsFinalized`).  An interrupted reclaim can leave an unreadable journal with no
  directories, which no later sweep removes (`CleanupRepeats.StrandedJournal`, `CleanupRepeats.StuckForEver`).
- `consume_attempt_finalization` promises never to drop a concurrent update.  A request queued behind it is admitted on
  the popped session afterwards, and a second consumption may pop a re-created session under a request
  (`ProxyLedger.PopMissesNothingExactlyWhen`, `ProxyLedger.QueuedRequestOutlivesPop`,
  `ProxyLedger.StaleLockLosesTokens`).
- The proxy refuses a request that echoes an answer's block with a field it does not know, such as a thinking block's
  signature, while the sandbox accepts and echoes it: the run ends there (`ModelMessages.EchoFitsExactlyWhen`,
  `ModelTurn.ThinkingBlockStopsRun`).  A count written as "42.0" is 42 for the sandbox and 0 for the ledger
  (`ModelMessages.SidesDifferByDecimalText`).
- The stakeholder section can reach 49 changes where 48 are declared, and the evidence section 51 where 50 are; a
  source the child drops is never reported (`ChangeSetLimits.FortyNineStakeholderChanges`,
  `ChangeSetLimits.FiftyOneEvidenceChanges`, `ChangeSetLimits.DroppedSourceUnreported`).
- The tree walk respells symlink targets (`Path.readlink().as_posix()`) and the tar scan does not, so a link to
  "./target" gives the two digests different pre-images (`RootfsTar.RespelledTargetDiffers`).
  `digest_rootfs_tar` looks a hardlink up by its raw link name, while names are stripped of "./" and trailing slashes
  (`RootfsTar.RawLinkNameRaises`), and `normalize_rootfs_tar` may sort a hardlink before its target
  (`RootfsNormalize.LinkSortingFirstRaises`).

## Model

| member | source | states |
|---|---|---|
| Custody.FinalizeOutcome | scripts/runsc_broker.py:1335-1428 | from any disk the protocol can leave, an uncut finalize completes if and only if processes and container are gone, the staged output is plain and the output path is free (or the phase is early); it then leaves one directory, the restored tree or an empty one, and nothing else |
| Custody.DiscardRefusesSymlink | scripts/runsc_broker.py:1386-1394 | no finalize completes on an output to be discarded that holds a symlink |
| Custody.PurgeEffect | scripts/runsc_broker.py:1389-1410 | input, staged input, both sockets and the bundle are gone and everything else is as before, however the removals are cut up |
| TreeShape.PlainExactlyWhen | scripts/runsc_broker.py:971-1057 | a tree is accepted if and only if every path in it leads to a directory or a regular file |
| TreeShape.CutRemovalLeaves | scripts/runsc_broker.py:1376-1424 | whatever entries a recursive removal has taken when it is cut, in any order, the model has that cut, and it leaves exactly the rest |
| Custody.CallKeepsResumable | scripts/runsc_broker.py:1366-1410 | no single call before publication changes which tree will be published, where, or whether it can be |
| Recovery.RecoveryFromEveryCut | scripts/runsc_broker.py:1183-1275 | wherever run is cut after its first durable record, moments of the sandbox's own writing included, one verified finalize completes if and only if the staged output is plain, and then leaves exactly one output directory; it is the sandbox's tree if and only if the last durable record restores, which takes the whole run and exit code 0 |
| Recovery.UntouchedBeforeFirstRecord | scripts/runsc_broker.py:1183-1202 | a cut before the first durable record has moved nothing |
| Recovery.RunCut | scripts/runsc_broker.py:1202-1275 | every cut of run is one of 30 fully described disks, one of them with an arbitrary half-written output, and an admitted run raises at one of its checks if and only if that check refuses: a staged tree that is not plain, or a deadline no longer ahead |
| Recovery.UncutRun | scripts/runsc_broker.py:1202-1275 | an admitted run that is not cut succeeds if and only if both staged trees are plain and the deadline is ahead, and what it then leaves |
| Recovery.CutBeforePublication | scripts/runsc_broker.py:1335-1410 | a finalize cut anywhere before publication leaves a disk whose retry publishes the same tree at the same place |
| Recovery.CutAfterPublication | scripts/runsc_broker.py:1411-1428 | a finalize cut after publication keeps the published tree and the journal; a retry completes if and only if the phase is early |
| Recovery.PublicationIsFinal | scripts/runsc_broker.py:795-824 | no sequence of cut finalizes and intruders ever changes a published tree |
| Recovery.TreeIsConserved | scripts/runsc_broker.py:1388-1427 | once restore is durable the sandbox's tree, empty or not, is in exactly one of staging and output through any sequence of cut finalizes and intruders that come and go |
| Recovery.RefusedThenPublished | scripts/runsc_broker.py:795-824 | a publication blocked by somebody else's path is refused with the tree still staged, and the next finalize after that path is gone publishes it |
| Recovery.SuccessfulRunStages | scripts/runsc_broker.py:1249-1275 | a run that ends with exit code 0 leaves exactly the situation from which the tree is conserved |
| Recovery.RetriesConverge | scripts/runsc_broker.py:1335-1428 | any number of finalizes cut before publication and then one that is not end in the same disk as one uncut finalize |
| Broker.Broker.Run | scripts/runsc_broker.py:1155-1275 | a refused request changes nothing; an admitted one leaves the disk of its call sequence, with the disk after every prefix recorded as what a crash there leaves; it succeeds if and only if input and output are plain directories, a proxy asked for is a socket, no custody directory of that name exists and the deadline is ahead, and its last record restores if and only if the exit code is 0 |
| Broker.Broker.Finalize | scripts/runsc_broker.py:1335-1428 | the same for finalize, which raises at once without a journal and otherwise succeeds exactly when the outcome lemma says |
| Broker.Broker.WriteJournal | scripts/runsc_broker.py:579-596 | on success the record is durable, the scratch file gone and nothing else moved; a crash on the way finds the old record or the new one |
| StartBarrier.ExecOnlyWhenRecorded | scripts/runsc_broker.py:868-968 | in every interleaving runsc is exec'd only under a durable running record naming that child's pid, group and start time, and the record stays while it lives |
| StartBarrier.WithheldForEver | scripts/runsc_broker.py:39-47 | once the broker has failed or died before the byte, no continuation starts runsc, and the closed pipe ends the child at its next read |
| StartBarrier.FailureWithholds | scripts/runsc_broker.py:882-951 | every way of failing before the byte, from every reachable state, withholds the child; a failing broker ends it, a dead one leaves it a closed pipe, and the record is the one before or the running one |
| StartBarrier.ReleasedChildRuns | scripts/runsc_broker.py:934-968 | from every reachable world with the record durable and the child waiting, its read blocks until the byte, it then execs under that record wherever the close falls, and the final record restores if and only if the exit code is 0 |
| StartBarrier.FailedRunIsCleared | scripts/runsc_broker.py:938-965 | a broker that fails or waits too long ends the child and keeps the record, which the next recovery removes |
| StartBarrier.ExitedBeforeIdentified | scripts/runsc_broker.py:895-901 | a child gone before it is identified is never recorded as running and still gets a final record |
| ProcessOwnership.Kernel.SignalOwned | scripts/runsc_broker.py:656-689 | exactly one group signal while the leader matches, otherwise exactly one signal to each recorded member that still matches when its turn comes |
| ProcessOwnership.Kernel.TerminateOwned | scripts/runsc_broker.py:703-744 | gone is answered only when no process of the group is left, a live leader that does not match raises without signalling, a matching one's whole group gets one termination and at most one kill, sent only if it still matches, and every signal is justified |
| ProcessOwnership.Kernel.TerminateMembers | scripts/runsc_broker.py:709-722 | with the leader gone nothing is sent to an empty group; otherwise the matching recorded members are asked to terminate, and killed if the group is still there after the wait; the answer is whether it is empty |
| ProcessOwnership.Kernel.FinalizeGate | scripts/runsc_broker.py:1345-1366 | the two ways the process gate opens, that a mismatching live leader keeps it shut, and, the table having changed between its look-up and the termination's own, what is sent in each case the second look-up finds |
| ProcessOwnership.GateProvesAbsenceExactlyWhen | scripts/runsc_broker.py:1335-1366 | the open gate proves the group empty if and only if the leader was still in the table or the group already empty, with a concrete orphan that slips through |
| ProcessOwnership.MatchMeansSameProcess | scripts/runsc_broker.py:645-653 | under pid reuse, a start time read in a later tick and found again was held by one process throughout |
| ProcessOwnership.NeverMistakenExactlyWhen | scripts/runsc_broker.py:645-653 | over every lawful future, a match by pid and start time means the recorded process if and only if the record was read in a later tick than the process started in |
| ProcessOwnership.SameTickReuse | scripts/runsc_broker.py:645-653 | a pid that changes hands within one tick, whose two holders match alike |
| ProcessOwnership.DeliveryReachesRecordedProcess | scripts/runsc_broker.py:656-689 | over a lawful history every signal of a justified list reaches only the recorded group, and the process that justified it is the recorded one, once the clock had passed the recorded start times |
| Cleanup.Sweeper.Sweep | scripts/runsc_broker.py:1527-1558 | whatever the calls for other candidates raise, each candidate up to where the sweep is killed is handled by what is its own alone, the killed one is cut at that call, and the rest is untouched |
| Cleanup.Sweeper.HandleOne | scripts/runsc_broker.py:1527-1557 | safety, age, loading, finalize and reclaim are tried in that order, and a raise in any of them ends the candidate's turn only |
| Cleanup.Sweeper.Reclaim | scripts/runsc_broker.py:1459-1493 | raises without removing anything for unsafe directories or a container not reported absent, and removes everything when all residue is old |
| CleanupRepeats.TurnExactly | scripts/runsc_broker.py:1459-1558 | what one turn does to a candidate, with every guard written out: protected, finalized, reclaimed with all its directories, or left alone |
| CleanupRepeats.ResidueStaysUntilAbsent | scripts/runsc_broker.py:1466-1493 | through any number of sweeps, killed or not, residue without a loadable record stays untouched until one hears that the container is absent while all of it is safe and old |
| CleanupRepeats.NewerResidueLeftAloneExactlyWhen | scripts/runsc_broker.py:1529-1547 | a candidate with residue newer than the cutoff is left alone, whatever the answers, if and only if it has no loadable record in a safe journal older than the cutoff |
| CleanupRepeats.LiveAttemptIsFinalized | scripts/runsc_broker.py:1529-1547 | a running attempt with an old record and newer output is finalized and its output discarded |
| CleanupRepeats.OutcomeHeads | scripts/runsc_broker.py:1459-1558 | wherever a sweep is killed a candidate is done, or still headed for the end it was headed for, or stuck, and what is stuck stays so |
| CleanupRepeats.InterruptedSweepRepeats | scripts/runsc_broker.py:1496-1558 | after a sweep killed anywhere, a whole one that finds everything old and gone ends exactly the candidates that are not stuck, as an uninterrupted one would have |
| CleanupRepeats.StuckForEver | scripts/runsc_broker.py:1459-1558 | no sequence of sweeps ends a stuck candidate |
| CleanupRepeats.StrandedJournal | scripts/runsc_broker.py:1485-1493 | the smallest reclaim whose kill strands a broken journal |
| EvidenceInstall.AllOrNothing | scripts/install_sandbox_evidence.py:126-170 | whatever is there at the start, under races and deaths a destination that was there stays as it was, any other is one installer's complete bytes, an installed manifest has both files it names, and a finished installer's files are all there |
| EvidenceInstall.WriteOnce | scripts/install_sandbox_evidence.py:64-110 | no later event changes or removes a present destination |
| EvidenceInstall.DifferentContentNeverFinishes | scripts/install_sandbox_evidence.py:71-85 | an installer whose bytes differ from what is there never finishes |
| EvidenceInstall.ReadyInstallerFinishes | scripts/install_sandbox_evidence.py:64-110 | whatever the others have done, an installer whose destinations are free or identical finishes by its own steps, and what was free holds its bytes |
| EvidenceInstall.InstallsFromScratch | scripts/install_sandbox_evidence.py:115-170 | three files at three free paths are installed by the installer's own steps |
| EvidenceInstall.MeetsExisting | scripts/install_sandbox_evidence.py:70-110 | a destination found at the first look or when linking lets the installer go on if and only if it is small enough and has the digest; it stays as it is and the scratch file goes |
| EvidenceInstall.ReadSource | scripts/install_sandbox_evidence.py:39-61 | however short the reads, the result is exactly the first fstat-size bytes, too large, or changed |
| EvidenceInstall.WriteAll | scripts/install_sandbox_evidence.py:92-97 | however short the writes, the file ends up complete |
| ProxyLedger.LedgerIsExact | webapp/hosted/model_proxy.py:386-529 | in every interleaving the admitted numbers of a session are 1 to next_seq - 1 in lock order, totals are sums over answered requests, one request at most is in flight, and a session is consumed at most once |
| ProxyLedger.ConsumptionReturnsAllAnswered | webapp/hosted/model_proxy.py:356-364 | a consumption removes the token and returns exactly what its session had answered just before, or nothing for an unknown token |
| ProxyLedger.SecondConsumptionIsEmpty | webapp/hosted/model_proxy.py:345-364 | until the token is issued or presented again every further consumption is empty |
| ProxyLedger.PopMissesNothingExactlyWhen | webapp/hosted/model_proxy.py:345-364 | over every continuation the popped session's answers stay those returned if and only if, at the pop, no task is upstream on it, and it is cancelled or no waiting task carries its next number |
| ProxyLedger.RequestOutcome | webapp/hosted/model_proxy.py:434-529 | from every reachable world with the lock free a request is admitted if and only if it carries the next number on a session not cancelled; its number is then consumed whatever becomes of it, it counts only when forwarded and answered, and the lock is free again |
| ProxyLedger.CancelledAdmitsNothing | webapp/hosted/model_proxy.py:329-335 | after a session is cancelled it never admits another number, over every continuation, and is answered at most once more, for a request upstream at that moment |
| ProxyLedger.CancelThenConsumeMissesNothing | webapp/hosted/runsc_executor.py:578-581 | cancelling before consuming, with anything in between, misses nothing whenever the session cancelled is the one locked and popped |
| ProxyLedger.QueuedRequestOutlivesPop | webapp/hosted/model_proxy.py:345-364 | a run in which a request queued behind the consumption is answered on the popped session |
| ProxyLedger.StaleLockLosesTokens | webapp/hosted/model_proxy.py:301-364 | a run in which two consumptions queue behind a request and the second pops a re-created session under another |
| ModelMessages.SidesDifferByDecimalText | webapp/hosted/model_proxy.py:660-664 | for an accepted usage block the two sides' counts differ by exactly the counts written as text with a zero fraction |
| ModelMessages.TakesUsageExactlyWhen | webapp/hosted/agent_loop_harness.py:117-124 | which usage blocks the sandbox accepts: none, or counts integral in some form, the cache ones also null |
| ModelMessages.TakesBlockExactlyWhen | webapp/hosted/agent_loop_harness.py:47-86 | which content blocks the sandbox takes, written out field by field |
| ModelMessages.ToolUseExactlyWhen | webapp/hosted/agent_loop_harness.py:440-440 | which of them it runs as tool calls: those that read as one, unless a type is given and a text field makes the fallback model fit better |
| ModelMessages.EchoFitsExactlyWhen | webapp/hosted/model_proxy.py:174-185 | a block the sandbox takes, its type given or left to the default, comes back fit for the proxy if and only if it holds only fields the proxy knows, of the types it expects |
| ModelMessages.EchoAllFitsExactlyWhen | webapp/hosted/agent_loop_harness.py:456-459 | the same for a whole answer as the next request echoes it |
| ModelTurn.Proxy.Handle | webapp/hosted/model_proxy.py:386-529 | which refusals consume a sequence number, exactly when a request is refused for its size, shape or token limit, what the other refusals imply, that only acceptable requests are forwarded, and that the ledger moves exactly on a 200 |
| ModelTurn.RunTools | webapp/hosted/agent_loop_harness.py:461-479 | tools run in order up to the first forbidden or failing one, which decides the failure, and what counts as written and finished |
| ModelTurn.Execute | webapp/hosted/agent_loop_harness.py:355-493 | over every run, responses lost to cancellation, deadline or transport before or after the proxy handled the request included, the k-th request to reach the proxy carries number k and finds the proxy expecting k; it is refused for shape if and only if an earlier answer held an unknown field, and for size if and only if the answers have grown past the limit; an artifact is delivered exactly when every turn up to the end is usable and the output was written, a run that delivers nothing reports its first failure, exactly the requests that reach the proxy are recorded, and the totals of an artifact are the ledger if and only if no count came as decimal text |
| ModelTurn.ThinkingBlockStopsRun | webapp/hosted/agent_loop_harness.py:459-459 | a run whose first answer has a thinking block fails at its second request with a model error, and with a text block in its place it does |
| ModelTurn.UnparsedAnswerStopsRun | webapp/hosted/agent_loop_harness.py:590-591 | an answer whose frame, usage or some block the sandbox cannot parse ends the run without a delivery, as a model error if nothing else disturbed the turn |
| ModelTurn.NoExcessExactlyWhen | webapp/hosted/model_proxy.py:516-526 | the totals of a run agree if and only if those of each answer do |
| OpportunityDiff.EvidenceOrderIsNoise | webapp/opportunity_state.py:599-616 | two reference lists compare equal if and only if they are equal as multisets |
| Sorting.StringLeExactlyWhen | webapp/opportunity_state.py:631-631 | strings compare by code point: a prefix comes first, otherwise the first difference decides |
| Sorting.SortIsStable | webapp/opportunity_state.py:606-612 | sorting keeps the order of elements with equal keys |
| OpportunityDiff.OverwriteChangedFields | webapp/opportunity_state.py:619-622 | overwriting only the reported fields yields the other item up to canonical form and leaves every other field as it is; nothing is reported exactly when the two are canonically equal |
| OpportunityDiff.KeyedChanges | webapp/opportunity_state.py:625-644 | reports exactly the diff, one change a key, in key order |
| OpportunityDiff.DiffIsSound | webapp/opportunity_state.py:625-644 | dropping, inserting and overwriting as reported turns the parent into the child up to canonical form |
| OpportunityDiff.RestIsUntouched | webapp/opportunity_state.py:625-644 | items and fields that are not reported stay the parent's own |
| OpportunityDiff.DiffIsComplete | webapp/opportunity_state.py:625-644 | a key is unreported if and only if nothing happened to it |
| OpportunityDiff.UnreportedKeyNeverMoved | webapp/opportunity_state.py:581-595 | along a revision chain a key absent from every change set is canonically equal at both ends |
| OpportunityDiff.ItemOrderIsNoise | webapp/opportunity_state.py:625-644 | reordering items with unique keys changes no change set |
| DiffMeaning.CanonExactlyWhen | webapp/opportunity_state.py:599-616 | canonical forms of dumped values are equal if and only if the values are, keys, leaves and lists, but for the order of evidence references |
| DiffMeaning.ChangedFieldExactlyWhen | webapp/opportunity_state.py:619-622 | a field is listed if and only if its two values differ so |
| DiffMeaning.ChangeSetReportsExactly | webapp/opportunity_state.py:625-728 | what every section reports of a key, said without canonical forms: that it came, that it went, which of its fields differ, or nothing |
| DiffMeaning.UnreportedKeyStaysSame | webapp/opportunity_state.py:581-595 | a key absent from every change set of a chain is the same at both ends, but for the order of references |
| DiffMeaning.RebuiltIsSame | webapp/opportunity_state.py:625-644 | the parent plus the change set is the child, but for the order of references |
| ChangeSet.DeterministicChangeSet | webapp/opportunity_state.py:647-728 | every section, the reserved stakeholder-gaps entry included, is the diff of that section |
| ChangeSet.ChangeSetRebuildsChild | webapp/opportunity_state.py:647-728 | in every section the parent plus the change set is the child up to canonical form |
| ChangeSet.SizesFit | webapp/opportunity_state.py:501-518 | every declared maximum but the stakeholders' follows from the limits of two valid states |
| ChangeSet.StakeholdersOverflowExactlyWhen | webapp/opportunity_state.py:512-512 | 48 is exceeded if and only if both maps hold 24, share no key, and the gaps changed |
| ChangeSet.EvidenceSources | webapp/opportunity_state.py:663-683 | the listed changes are all but the metadata's, whose flag says whether it changed |
| ChangeSet.EvidenceRebuildsExactlyWhen | webapp/opportunity_state.py:663-683 | the reported sources turn the parent's manifest into the child's if and only if the child dropped none |
| ChangeSet.EvidenceOverflowsExactlyWhen | webapp/opportunity_state.py:517-517 | 50 is exceeded if and only if all 51 sources are transcripts that are new or replaced |
| ChangeSetLimits.FortyNineStakeholderChanges | webapp/opportunity_state.py:684-698 | two valid states, with every section's own keys and fields, whose stakeholder section has 49 entries |
| ChangeSetLimits.FullStateIsDumped | webapp/opportunity_state.py:70-440 | every section of such a state is made of dumped models, so change sets between such states say exactly what differs |
| ChangeSetLimits.FiftyOneEvidenceChanges | webapp/opportunity_state.py:663-683 | two manifests a version can hold, the child's 51 sources all new transcripts and all listed |
| ChangeSetLimits.DroppedSourceUnreported | webapp/opportunity_state.py:663-675 | two manifests a version can hold, where the source the child drops leaves the evidence part empty |
| Manifest.DigestIsOrderIndependent | webapp/opportunity_state.py:731-746 | for unique (type, id) two manifests have one pre-image if and only if they are permutations, hence the same entries |
| Manifest.DuplicatesBreakOrderIndependence | webapp/opportunity_state.py:574-579 | with a duplicate identity the two orders agree only when the byte counts do |
| RootfsDigest.StreamReadsBack | webapp/hosted/rootfs_digest.py:24-42 | a decoder inverts the entry encoding on every list of well-formed entries |
| RootfsDigest.PreImageDeterminesEntries | webapp/hosted/rootfs_digest.py:88-107 | two entry lists with one byte stream are equal, though the 32 content bytes may hold the separator |
| PosixPath.CleanKeepsLocation | webapp/hosted/rootfs_digest.py:52-52 | stripping a leading "./" and trailing slashes does not change where a name lands |
| PathSpelling.CleanPathSays | webapp/hosted/rootfs_digest.py:52-52 | a cleaned name has lost one leading "./" and exactly its trailing slashes |
| PathSpelling.ComponentsSplit | webapp/hosted/rootfs_digest.py:39-39 | a slash separates components wherever it stands |
| PathSpelling.ComponentsOfName | webapp/hosted/rootfs_digest.py:39-39 | between slashes everything is one component, ".." included, and only nothing and "." are none |
| PathSpelling.ComponentsOfJoin | webapp/hosted/rootfs_digest.py:39-39 | splitting undoes joining |
| PathSpelling.OwnSpellingExactlyWhen | webapp/hosted/rootfs_digest.py:39-39 | a path is its own spelling if and only if it is "." or has at most two leading slashes and no other empty or "." component, and every spelling is |
| RootfsTar.ScanSays | webapp/hosted/rootfs_digest.py:50-86 | the tar scan succeeds if and only if every hardlink's raw name is the cleaned name of a regular member before it, and then holds exactly the members' entries, each path once |
| RootfsTar.TreeAndTarAgree | webapp/hosted/rootfs_digest.py:14-107 | for every member order of an archive describing a tree, the tar pre-image is the tree's if and only if every hardlink resolves, every cleaned name is the walk's path and every symlink target is spelled as pathlib spells it; the tar digest raises if and only if a hardlink does not resolve |
| RootfsTar.ListingOrderIsNoise | webapp/hosted/rootfs_digest.py:20-23 | the order in which the walk lists the paths does not change the tree's pre-image |
| RootfsTar.RespelledTargetDiffers | webapp/hosted/rootfs_digest.py:38-39 | an archive of one symlink to "./t", and its tree, with different pre-images |
| RootfsTar.RawLinkNameRaises | webapp/hosted/rootfs_digest.py:73-76 | an archive of "./a" and a hardlink "./b" to it that describes its tree and has no digest |
| RootfsNormalize.NormalizedDescribes | webapp/hosted/rootfs_digest.py:110-140 | the normalized archive still describes the tree |
| RootfsNormalize.NormalizedPreImage | webapp/hosted/rootfs_digest.py:110-140 | the normalized archive has the tree's pre-image if and only if every hardlink's target is a regular member whose path sorts first and every renamed member is spelled as the walk spells it, and its digest raises if and only if a link does not sort so; the original order plays no part |
| RootfsNormalize.NormalizingKeepsPreImageExactlyWhen | webapp/hosted/rootfs_digest.py:110-140 | normalizing any archive that has a digest keeps its pre-image if and only if its hardlinks sort after their targets and cleaning its relative paths again changes nothing |
| RootfsNormalize.LinkSortingFirstRaises | webapp/hosted/rootfs_digest.py:132-134 | an archive with a digest whose normalized form has none |
| RootfsNormalize.DigestRootfs | webapp/hosted/rootfs_digest.py:14-43 | the hash is fed exactly the tree's pre-image for the listing the walk gave |
| RootfsNormalize.DigestRootfsTar | webapp/hosted/rootfs_digest.py:46-107 | the hash is fed exactly the tar's pre-image, or the scan raises exactly when there is none |
| Text.PaddedTestIsContainment | webapp/command_center_operations.py:162-169 | the padded substring test is contiguous containment of word lists, and fails for no words |
| Text.WordsOfJoin | webapp/command_center_operations.py:84-88 | splitting undoes joining |
| Attribution.SourcePassages | webapp/command_center_operations.py:132-148 | the nested loops collect exactly the non-empty normalized sentences of the lines that count |
| NotePassages.SeparatorSplits | webapp/command_center_operations.py:84-88 | a character that folds to no word character separates tokens wherever it stands |
| NotePassages.WordIsOneToken | webapp/command_center_operations.py:84-88 | a run of characters that fold to word characters is one token, its folding |
| NotePassages.FirstSentence | webapp/command_center_operations.py:144-144 | the first terminator before a space ends the first sentence, and the spaces belong to neither |
| NotePassages.SpokenLine | webapp/command_center_operations.py:132-148 | a spoken line of two sentences, however spaced, supplies exactly those two without the speaker |
| NotePassages.OtherLinesStay | webapp/command_center_operations.py:143-143 | a line without a label of one to eighty characters keeps its beginning |
| NotePassages.IgnoredExactlyWhen | webapp/command_center_operations.py:139-142 | a line with text is ignored if and only if it is a heading, Occurred or Attendees line, however indented |
| Attribution.VerifyAttribution | webapp/command_center_operations.py:151-174 | source_verified if and only if one passage holds the owner's words and some date spelling's words contiguously and every commitment term; a blank owner never |
| NotePassages.CommitmentMustBeCarried | webapp/command_center_operations.py:124-129 | an attributed commitment has a word that counts, and one passage carries every such word |
| NotePassages.CarriedCommitmentIsAttributed | webapp/command_center_operations.py:151-174 | conversely, a commitment with such words, carried by one passage with owner and date, is attributed |
| NotePassages.FifthOfSeptember | webapp/command_center_operations.py:102-114 | the twelve spellings of one date |
| Attribution.AppendingNeverRevokes | webapp/command_center_operations.py:151-174 | appending lines never revokes an attribution |
| Attribution.IgnoredLinesNeverMatter | webapp/command_center_operations.py:139-142 | a heading, Occurred or Attendees line anywhere never affects the verdict |
| Firewall.ParseOutputPolicy | webapp/hosted/firewall_policy.py:41-108 | the line loop computes the fold the lemmas are about |
| Firewall.InvalidityIsSticky | webapp/hosted/firewall_policy.py:41-108 | an invalid prefix makes every table that starts with it invalid, and later lines never take back a rule |
| Firewall.ValidExactlyWhenUnderstood | webapp/hosted/firewall_policy.py:41-108 | a table is valid if and only if the parser understands every line where it stands and both chains end with policy drop |
| FirewallRoundTrip.RuleReadsBack | webapp/hosted/firewall_policy.py:26-31 | every rule of the grammar, however spaced, parses back as itself |
| FirewallGrammar.AcceptedLineSpellsItsRule | webapp/hosted/firewall_policy.py:26-31 | conversely, a line read as a rule consists of its groups in order, each present if and only if the rule has it, and says what the rule says |
| FirewallGrammar.PrintedRule | webapp/hosted/firewall_policy.py:26-31 | a printed line with every group, and its rule |
| FirewallRoundTrip.TableReadsBack | webapp/hosted/firewall_policy.py:41-108 | any rule list rendered inside drop-policy chains parses back to exactly those rules in order, and valid |
| FirewallRoundTrip.SkippedLineSteps | webapp/hosted/firewall_policy.py:35-38 | loopback, established and management lines leave the parser where it is, in either chain and however spaced |
| FirewallGrammar.KnownExactlyWhen | webapp/hosted/firewall_policy.py:35-38 | the lines passed over are exactly these |
| FirewallGrammar.ChainLineSpells | webapp/hosted/firewall_policy.py:32-33 | a chain header is its indentation, the word chain, a name without spaces and an opening brace, and nothing else |
| FirewallRoundTrip.FindPolicyExactlyWhen | webapp/hosted/firewall_policy.py:34-34 | the policy of a line is the first one it mentions |
| FirewallEvaluation.EvaluateOutputPolicy | webapp/hosted/firewall_policy.py:111-131 | the action of the first matching rule, else drop |
| FirewallEvaluation.DeletionIsHarmlessExactlyWhen | webapp/hosted/firewall_policy.py:111-131 | deleting a rule changes no verdict if and only if wherever it matches first the rules after it agree |
| FirewallEvaluation.CoversExactly | webapp/hosted/firewall_policy.py:122-129 | one rule covers another, read off their fields and CIDR prefixes (section 3.1 of RFC 4632), if and only if it matches every packet the other does |
| FirewallEvaluation.DefaultRouteCoversAll | webapp/hosted/firewall_policy.py:122-129 | the whole address space covers every network of its family |
| FirewallEvaluation.CoveredRuleIsRedundant | webapp/hosted/firewall_policy.py:111-131 | deleting a rule covered by an earlier one changes no verdict |
| Soql.PassesAreOneSubstitution | webapp/soql.py:12-38 | the three or five successive replacements are one substitution per character |
| Soql.LengthAtMostDoubles | webapp/soql.py:19-23 | the length at most doubles and grows unless no character is special |
| Soql.SpecialFollowsOddRun | webapp/soql.py:19-38 | every quote, and each wildcard in the LIKE form, follows an odd run of backslashes |
| Soql.LiteralReadsBack | webapp/soql.py:12-38 | a lexer reads the literal, and the LIKE prefix with its wildcard, back as exactly the input, whatever follows in the query |
| Soql.LikePrefixMatchesLiteralStart | webapp/soql.py:26-38 | the LIKE pattern matches exactly the texts that start with the value |

## Left out

- Broker environment: the OCI document, ownership and modes, `/proc` parsing, polling intervals, signal handlers, `BrokerConfig` and request field checks; only their outcomes appear, as answers the proofs quantify over.
- Crashes: a crash keeps a prefix of the calls and the synced journal; loss of unsynced directory entries at power failure is not modelled, and I/O errors other than the modelled refusals count as cuts.
- Sandbox run: its writing is two steps, an arbitrary half-written tree and the final one; a crash during it finds the running record, which discards.
- Concurrency assumptions: one operation per container id at a time (the operation lock), a worker that does not touch its directories during finalize (apart from an intruder at a vacant output path), and checking an identity and signalling it as one step.
- Recovery.TreeIsConserved: directories the broker makes are told apart from the worker's and the sandbox's by inode, and intruders bring other nodes than the sandbox's.
- ProcessOwnership: zombies count as absent, a table change within one signal-and-check step is not modelled, and a process that newly holds a pid started no earlier than the tick in which the pid was last seen without it.
- Cleanup.Sweeper.Sweep: candidates come as a sorted list; reading the directories for names is not modelled, and a kill is a cut between the calls of one candidate.
- EvidenceInstall.AllOrNothing: contents that merely share a SHA-256 digest count as identical, as they do for the code; ownership, symlink and path checks are not modelled, and each process id belongs to one installer.
- ModelTurn.Execute: one harness run against a fresh session with no other client; HTTP, JWT and the tools' file access are reduced to outcomes, a tool's own failure category to one, request sizes are given per answer, and usage counts are non-negative.
- ModelMessages: pydantic's smart union is taken as documented, the model with the most declared fields set and the first on a tie; of a block's values only whether they are text, objects or null matters; an answer's other top-level fields are one flag.
- ProxyLedger: costs, the model name and the concurrency semaphore are not modelled; acquiring a free lock is a step of its own, which allows schedules asyncio does not have, so the two losing runs start with a request that holds the lock.
- ChangeSet: pydantic models are keyed JSON objects; a change's field list is a set, and sections are compared as maps because their order is stated by `OpportunityDiff.KeyedChanges`; text length limits and version identifiers are not modelled.
- Evidence authorization: `iter_evidence_references` and `validate_candidate_evidence` are a membership test that one reading settles.
- Rootfs digests: SHA-256 is abstract, so results are about pre-images; paths are UTF-8 bytes, whose byte order is Python's code-point order, and tarfile's own reading and writing is not modelled.
- Attribution.VerifyAttribution: character classes and case folding are parameters, the due date arrives parsed (a malformed one raises in the code), and a "\r\n" counts as a line break followed by an empty line, which holds no passage.
- Firewall.ParseOutputPolicy: white space, line ends and network spellings are parameters; digits are ASCII, where Python also accepts other decimal digits.
- FirewallEvaluation.EvaluateOutputPolicy: only the parsed rules decide, as in the code; the loopback, established and management lines the parser skips in the output chain are no rules here either.
- Soql.LikePrefixMatchesLiteralStart: matching is exact, where SOQL's own LIKE ignores case; the lexer knows only the escapes these functions write.
- Action records, command-center evidence, output schema, eval and report rendering, OAuth, routes and migrations: list checks, heuristics or plumbing around databases and services that are not part of this model.
