# Runtime installation, hook comparison and release digests: a verified model

This project models the parts of the repository where a wrong step costs the most, and proves what
they are for. Everything is stated for all inputs, all runs or all interleavings; the few places
where the code does less than its documentation says carry a counterexample and the exact condition
under which it does what it says.

## What is modelled

**Installing and promoting a runtime.** `cmd_install` builds a runtime in a directory whose name
follows from its sources, commits a selection to the host record, moves a symbolic link, and settles
a claim file. `HostRecord` is the record and its single writer; `Staging` the decision about a
directory that is already there; `Promotion` the whole command as a transition system, one transition
a write, each of which lands, fails, or lands and raises; a kill may fall between any two.
`CrashSafety` proves the invariant over every sequence of runs, failures and kills; `Recovery` says
exactly when a further run installs; `LinkGuard` what every change of the link rests on; `Rollback`
what a failed promotion puts back. `Installer` is the command in the source's own form, an object
whose methods reassign the record, the link and the directories, each proved equal to the transition
system. `Candidates` says what becomes of the directory a run built, in terms of the selection and the
link alone. `Builders` drops the one-after-another assumption: any number of runs take one directory at
once, with a section lock, an advisory lock that belongs to an inode, and a claim file that is
replaced.

**Reading a system call trace.** `TraceText` holds the quote- and nesting-aware splitter, the result
finder and the escape decoder, as the loops they are; `TraceReader` the reader of whole traces;
`TracePrinter` and `TraceRoundTrip` print calls and take them apart again, strings cut short,
abbreviated lists and unannotated descriptors among their arguments; `TraceWitness` proves that
reading inverts printing across interrupted calls, and exactly what a clean bill means;
`TraceAccount` tells from each printed call what it changed and started, by names and flags written
out, and proves that a trace is read as that; `TraceStructure` does the same for the splitter;
`TraceHalves` says which interrupted calls the reader forgets, and what that leaves of them.

**The swap gate.** `SqlText` is the whitespace normaliser against the pieces a statement consists of;
`SwapGate` the three cells and the verdict.

**Digests and streams.** `Framing` and `PackageTree` prove the two digest framings uniquely decodable
and the walk complete; `Release` takes a `git cat-file --batch` stream apart.

**Append-only editors.** `Toml` writes registrations and reads them back with a reader for exactly
that much of TOML v1.0.0 (sections "String", "Keys", "Array", "Table"); `Hooks` appends to files whose
identities are positions.

**One owner.** `HookOwners` (any interleaving, any kills) and `BridgeOwners` (runs under one lock, cut
short at any write).

**The comparison document.** `Judgments` and `ComparisonDocument`: every verdict of a run, and the
walk that collects them; `ComparisonMeaning` says of the cells, name by name, what it takes to pass.

## What the claims rest on

- One destination and one pointer path. The staging decision looks at the destination's pointer
  (`scripts/runtime_install.py:398`) while promotion moves the recorded one
  (`scripts/runtime_install.py:2443`); the model has one of each, the same.
- In `Promotion`, `CrashSafety`, `Recovery`, `LinkGuard` and `Rollback` runs follow one another, with
  kills. The record the staging decision reads is loaded before any lock is taken
  (`scripts/runtime_install.py:2390`), so overlapping runs may decide on a stale one;
  `Recovery.StaleRecordRemovesWhatIsSelected` shows what that can cost. `Builders` needs no such
  assumption: there the record and the link may answer anything at all.
- Every location a run installs lies inside its environment. The source records one outside as
  editable (`scripts/runtime_install.py:2651`); whether such a candidate is promoted is for the
  classification to say, which is not part of this model. What is stamped as evidence is not blank:
  a run that writes is refused with a blank issue (`scripts/runtime_install.py:2354`).
- The ownership entry is written only under the promotion lock (`scripts/runtime_install.py:2725`,
  `scripts/runtime_install.py:3003`), so between a commit and its rollback no other run of the command
  stamps it. A writer that ignores that lock is not kept out by the rollback itself, which compares the
  path and nothing else: `Rollback.EntrySurvivesExactlyWhen` says which entries of such a writer survive.
- Writing a claim, removing a tree, saving the record and placing a link are single steps.
- An advisory lock belongs to an inode and is released when its process ends.
- Paths are resolved lists of parts, compared part by part.
- Hashes, the TOML library's view of a whole file, where a path leads, and how a JSON value that is
  not text is written out are function parameters: the theorems hold for any of them. The two digest
  theorems are therefore about the bytes that are hashed, up to the hash of each file's content.

## What turned out not to hold

- *One further run always recovers.* It does not. A first run killed after it placed its link, and a
  second, of other sources, killed after it committed its selection, leave a host on which a further
  run of the first sources, and one of any third sources, is turned away; only a run of the second
  sources goes through (`Recovery.OneRunIsNotEnough`). `Recovery.InstallsExactlyWhen` is the exact
  condition for one run, `Recovery.TwoRunsInstall` and `Recovery.NothingRefusesForEver` say that two
  runs are always enough, but for a finished environment whose selection has moved.
- *Installing a hook answers.* A hook file whose `hooks` member, or whose list for the event, is
  present and null passes the shape check, and appending to it raises (`Hooks.NullMembersRaise`);
  `Hooks.AnswersExactly` says when it does, and that nothing else makes it raise.
- *A trace that reads cleanly is complete.* The reader tells interrupted calls apart by process and
  name. Two of one name in one process are not told apart: the later one takes the earlier one's place
  (`TraceHalves.OneHalfIsForgotten`), and the earlier one leaves no start, no write and nothing
  unreadable, whatever the other lines are (`TraceHalves.OverwrittenLeavesNothing`). Every interrupted
  call of a trace is resumed and counted if and only if none is interrupted while another of the same
  process and name is outstanding (`TraceHalves.NoneIsForgottenExactlyWhen`). The theorems about
  reading and about the clean bill need no such condition.
- *At least 95 in a hundred firings within five seconds.* The sample the bound is taken of is found by
  rounding, so of twelve firings eleven are enough; `ComparisonMeaning.MostExactlyWhen` says for which
  numbers the bound means what it says.
- *Running again completes a registration.* For a reader that sees in the appended text another table
  that starts the bridge it does not; `BridgeOwners.SecondRunCompletesExactlyWhen` is the exact
  condition, and `BridgeOwners.SecondRunCompletes` says that this command's own files always meet it.
- *Everything but what lies under `__pycache__` is digested.* A file of that name, which lies under no
  such directory, is dropped too (`PackageTree.AFileOfTheNameIsDropped`), and nothing else is
  (`PackageTree.FilterDropsOnlyTheName`).
- *A failed reading never helps.* With no tracer the witness carries no verdict, so a run that only
  the witness failed passes (`ComparisonDocument.TheWitnessAloneFails`); what taking the tracer away
  changes is exactly that verdict (`ComparisonDocument.NoTracerIsNoVerdict`), and for every other
  reading it holds (`ComparisonDocument.UnreadNeverHelps`).

## Model

| member | source | states |
|---|---|---|
| Staging.RemovalNeedsEveryReading | scripts/crw_runtime/staging.py:263-365 | A directory is removed exactly when it carries this command's unfinished claim, its owner is established gone, and record and pointer were both read to say that nothing uses it; it is taken over empty exactly when the same holds of an unclaimed empty one; whatever writes a pointer or reports an installation rests on a record that was read to select it |
| Staging.EachAnswerExactlyWhen | scripts/crw_runtime/staging.py:263-365 | When each of the other answers is given, both directions: occupied for a live owner, keep, foreign, adopted, resumed, recorded, settled |
| HostRecord.Elsewhere | scripts/crw_runtime/hostrecord.py:177-182 | Replacing the entry for one location keeps exactly the entries for every other location |
| HostRecord.PutInstallsKeep | scripts/crw_runtime/hostrecord.py:177-182 | No batch of installs disturbs an install recorded at another location |
| HostRecord.PutInstallsRecord | scripts/crw_runtime/hostrecord.py:177-182 | Each install of a batch is in the record afterwards unless a later one of the batch took its location |
| HostRecord.AddPointsFrame | scripts/crw_runtime/hostrecord.py:185-189 | Points are appended behind the earlier ones; installs, selection and ownership entry do not move |
| HostRecord.PutInstallsExactly | scripts/crw_runtime/hostrecord.py:177-182 | Recorded after a batch, exactly: of each location the last install the batch gave it, and what was there where it gave none; an older install at the same location is gone |
| HostRecord.AddPointsExactly | scripts/crw_runtime/hostrecord.py:185-189 | A component's points after a batch are those it had and then the batch's for it, in order |
| HostRecord.PlacementExactlyWhen | scripts/crw_runtime/hostrecord.py:396-425 | A link counts as placed exactly when path, time and author are each there as text that is not blank |
| HostRecord.WithoutPlacementExactly | scripts/crw_runtime/hostrecord.py:428-431 | Withdrawing the evidence takes the time and the author, and nothing else |
| Candidates.ForgetsExactlyOne | scripts/crw_runtime/hostrecord.py:596-600 | Forgetting an environment leaves no install of it in any component and every other install, point, selection and entry |
| Candidates.ReleasesExactlyWhatNothingUses | scripts/crw_runtime/hostrecord.py:556-607 | An uninterrupted release, from any host: nothing changes if something selected lies in the environment or the link, where it is looked at, leads to it; otherwise the directory is gone and no component records an install of it |
| Candidates.CandidateStaysExactlyWhileUsed | scripts/runtime_install.py:2445-2943 | A run that made its own directory and ends, whatever failed before, its cleaning writes landing: the directory is there exactly while the record selects something in it or the link leads to it, and where not no install of it is recorded |
| Candidates.FailedPromotionReleases | scripts/runtime_install.py:3579-3618 | A promotion that failed at its link, placed or not, from a host that did not use its environment: the host it found, with the entry a rollback leaves, and of the environment neither the directory nor any install |
| Candidates.TurnedAwayLeavesNothing | scripts/runtime_install.py:2744-2860 | A promotion turned away by something at the pointer path that is no link, with nothing selected, leaves neither its directory nor any install of it |
| HostRecord.WritesCommit | scripts/crw_runtime/hostrecord.py:507-516 | Of all the deltas a commit applies, only the selection and the entry change: overlaid, and merged key by key |
| HostRecord.WritesEntry | scripts/crw_runtime/hostrecord.py:523-538 | Both entry deltas act only on an entry about the path this run wrote; the restoring one replaces the entry whole |
| CrashSafety.CrashSafe | scripts/runtime_install.py:2445-2943 | For any starts, writes that land, fail or raise, rollbacks and kills, in any order: the selection names one environment for all components, the selected and the pointed-at environments exist and are recorded, and while no rollback write has failed, record and pointer agree unless the selected environment is still unsettled and the link is absent or leads to a recorded install |
| CrashSafety.WriteKeeps | scripts/runtime_install.py:2445-2943 | Each single write of the command keeps that invariant, whether it lands, fails, or lands and raises |
| CrashSafety.MoveKeeps | scripts/runtime_install.py:2445-2943 | Starting a run, one write, or a kill keeps it |
| CrashSafety.StartingPoints | scripts/crw_runtime/staging.py:310-317 | A host nothing was installed on satisfies it, and so does one holding a selected installation older than claims and no pointer |
| CrashSafety.DecisionStands | scripts/runtime_install.py:381-410 | On such hosts a resume is decided only for the environment the record selects, and only unused directories are taken over or removed |
| CrashSafety.CommitStands | scripts/runtime_install.py:2862-2880 | A commit leaves everything the run needs both to finish and to go back |
| CrashSafety.SelectionBackStands | scripts/runtime_install.py:3496-3548 | Once the selection is put back the host is again one the invariant allows, with the candidate unused |
| Recovery.EveryWriteAdvances | scripts/runtime_install.py:2343-2984 | Whatever becomes of a write, the run has fewer writes left than before: no run goes on for ever |
| Promotion.StampsEachKey | scripts/runtime_install.py:2862-2880 | What a commit and a resume write: the path, the time and the author under their own keys, every other key as it was, the run's locations over the selection and nothing over it |
| Recovery.SettledMayPromote | scripts/runtime_install.py:325-378 | On hosts runs leave behind, what is read of the link lets a promotion through exactly when there is no link or it leads to what is selected |
| Recovery.InstallsExactlyWhen | scripts/runtime_install.py:2482-2591 | One further uninterrupted run ends with the claim complete and both truths on its environment if and only if that environment is the selected one, or what is left of it can be cleared and no other promotion is half done |
| Recovery.ResumesToTheEnd | scripts/runtime_install.py:2987-3111 | Finishing the promotion of the selected environment succeeds from every host runs leave, moves no selection and touches no other directory |
| Recovery.TwoRunsInstall | scripts/runtime_install.py:2482-3111 | After at most one run of the selected sources, any further run installs, if and only if what is left of its own directory can be cleared |
| Recovery.NothingRefusesForEver | scripts/runtime_install.py:2482-3111 | From a clean host, after any runs and kills without a failed rollback write, the one thing two further runs cannot install is a finished environment whose selection has since moved |
| Recovery.OneRunIsNotEnough | scripts/runtime_install.py:325-378 | Counterexample to recovery by one run: two kills after which the first sources and any third are turned away and the second's are not |
| Recovery.StaleRecordRemovesExactlyWhen | scripts/runtime_install.py:2390-2395 | On any host, a decision taken on an earlier record removes the selected environment exactly when it is unsettled, the link does not lead to it and that record did not select it; a fresh reading would have resumed it |
| Recovery.StaleRecordRemovesWhatIsSelected | scripts/runtime_install.py:2390-2395 | A run killed after its commit, between another's reading and its decision, makes that happen |
| LinkGuard.LinkGuarded | scripts/runtime_install.py:2794-2860 | From any host, through any runs, kills and outside edits, the link changes only by a promotion over a link with placement evidence that contains every selected runtime, by a resume over a recorded target, or by a rollback of the run's own link to what it found |
| LinkGuard.PromotesExactlyWhen | scripts/runtime_install.py:2787-2860 | A promotion goes ahead exactly over no link, or over one whose entry states path, time and author and that leads to everything selected, something being selected |
| LinkGuard.ResumesExactlyWhen | scripts/runtime_install.py:2987-3070 | A resume goes ahead exactly when every component is selected inside the environment and a link, where there is one, leads to something recorded and is not denied by an entry about this path |
| LinkGuard.UnownedLinkIsNeverTouched | scripts/runtime_install.py:3029-3070 | While the entry for the path lacks placement evidence, or what is there is no link, no number of runs changes the link, the selection or the entry |
| LinkGuard.WriteHoldsLink | scripts/runtime_install.py:3157-3189 | Every single write keeps what justifies the next change of the link |
| Rollback.RollbackUndoesTheCommit | scripts/runtime_install.py:3302-3548 | Commit followed by rollback leaves the record the promotion found, its entry being the one the rollback means to leave |
| Rollback.WantedIsFoundExactlyWhen | scripts/runtime_install.py:3347-3377 | That entry is the one found unless a link found absent costs an inherited entry its placement keys (or the entry said nothing) |
| Rollback.WantedKeyByKey | scripts/runtime_install.py:3347-3377 | The entry a rollback means to leave, key by key |
| Rollback.RollbackTouchesOnlyItsOwn | scripts/runtime_install.py:3496-3548 | On any record: selections still this run's go back to what was found, absence included; all others, every install and every point, and an entry about another path stay |
| Rollback.EntrySurvivesExactlyWhen | scripts/crw_runtime/hostrecord.py:531-538 | An entry some writer put there meanwhile survives exactly when it speaks of another path or already says what the rollback leaves |
| Rollback.AnswersWhatTheRecordSays | scripts/runtime_install.py:3266-3299 | The reported answer names the wanted state exactly when the record holds it, and outstanding exactly when this path's entry is still there and is not it |
| Rollback.OthersWorkSurvives | scripts/crw_runtime/hostrecord.py:489-540 | What other runs installed and measured between commit and rollback is what the record would hold had the commit never happened |
| Rollback.RollbackExactly | scripts/runtime_install.py:3302-3548 | An uninterrupted rollback, from whatever host its run finds by then: where link, entry and selection end up, and when the candidate is released |
| Rollback.FailedPromotionLeavesNothing | scripts/runtime_install.py:2880-2918 | A promotion that failed at its link, with the link placed or not, leaves the host it found but for its candidate and the evidence an absent link costs the entry |
| Rollback.ResumeRollbackExactly | scripts/runtime_install.py:3087-3105 | An uninterrupted rollback of a resume, from whatever host its run finds by then: link and entry go back as after a promotion, selection and directories stay |
| Rollback.FailedResumeLeavesNothing | scripts/runtime_install.py:3077-3105 | A resume that failed at its link, placed or not, leaves the host it found but for the evidence an absent link costs the entry |
| Installer.Command.Update | scripts/crw_runtime/hostrecord.py:451-540 | The record written is the record as loaded with every delta applied, and a failed write leaves it as it was |
| Installer.Command.RestorePointer | scripts/runtime_install.py:3302-3477 | Link first, entry only if the link verifiably went back: the state is the transition system's |
| Installer.Command.RestoreSelection | scripts/runtime_install.py:3496-3548 | The state after is the transition system's, whichever write fails |
| Installer.Command.Promote | scripts/runtime_install.py:2725-2943 | Guards, commit, link and claim, with every failure path: the state is the transition system's |
| Installer.Command.FinishPromotion | scripts/runtime_install.py:2987-3111 | The same of a resumed promotion |
| Installer.Command.InstallFailed | scripts/runtime_install.py:3579-3686 | The same of releasing a candidate |
| Installer.Command.Install | scripts/runtime_install.py:2445-2984 | The whole command, wherever it is killed and whatever fails, leaves the host the transition system says |
| Installer.Command.Dropped | scripts/crw_runtime/hostrecord.py:500-504 | The loop over the components forgets exactly one environment |
| Installer.Command.Deselect | scripts/crw_runtime/hostrecord.py:517-522 | The loop takes away exactly the selections that still name what this run wrote |
| Installer.ReplayIsARun | scripts/runtime_install.py:2445-2984 | The command alone is one of the executions the transition system allows |
| Installer.CommandIsCrashSafe | scripts/runtime_install.py:2445-2984 | Wherever the command is killed and whichever of its writes failed, it leaves a sound host |
| Builders.CourseKeeps | scripts/runtime_install.py:2445-2608 | Every state any runs reach keeps one section, one owner and files that are what they are taken for |
| Builders.OneBuilder | scripts/crw_runtime/staging.py:165-243 | In any interleaving at most one live run relies on the directory, and it holds the lock inode the directory names |
| Builders.NobodyTouchesALiveBuild | scripts/runtime_install.py:2445-2608 | Whatever another run does or suffers, whatever record and pointer answer, nothing of a directory a live run builds is claimed, emptied or removed |
| Builders.ClaimRewritesKeepTheLock | scripts/crw_runtime/staging.py:155-162 | A rewritten claim is a new inode and never the lock's; the lock and its holder stay |
| Builders.HeldMeansALiveRun | scripts/crw_runtime/staging.py:212-243 | The lock reads as held exactly while a live run holds the file the directory names |
| Builders.LoneRunBuilds | scripts/runtime_install.py:2445-2591 | A run nobody disturbs, after any others are over, clears a dead run's staged directory or an empty unclaimed one, and builds under a staged claim, holding the lock its directory names |
| Builders.LoneRunEnds | scripts/runtime_install.py:2936-2943 | It ends with a complete claim, a new inode, over what it filled, or where it failed with no directory, and holds nothing |
| Builders.LoneRunFinishes | scripts/runtime_install.py:2987-3111 | A directory the record selects is finished where it stands: only its claim changes |
| TraceText.SplitArguments | scripts/hook_comparison.py:1353-1385 | The character loop finds the top-level pieces, trimmed and without the empty ones |
| TraceText.ArgumentsInvertJoined | scripts/hook_comparison.py:1353-1385 | Splitting trimmed, balanced, comma-safe tokens joined by commas and any blank text returns the tokens |
| TraceText.FindResult | scripts/hook_comparison.py:1501-1518 | The backward walk stops at the last equals sign whose left side ends in a closing bracket |
| TraceText.ResultIsFound | scripts/hook_comparison.py:1501-1518 | The end of the arguments and the result are found across any column padding, whatever equals signs the arguments hold |
| TraceText.ReadString | scripts/hook_comparison.py:1388-1433 | The decoding loop computes the decoding escape by escape, including where it refuses and where it raises |
| TraceText.StringsInvert | scripts/hook_comparison.py:1388-1433 | Decoding inverts every way the tracer may spell any bytes: plain, letter, short octal, three-digit octal, hexadecimal |
| TraceText.CutShortNeverReads | scripts/hook_comparison.py:1388-1405 | Anything but blank text after the closing quote never reads as a string |
| TraceText.QuotedWalks | scripts/hook_comparison.py:1353-1385 | A printed string is one token to the splitter, whatever its bytes and however deep it stands |
| TraceStructure.StructureIsOneArgument | scripts/hook_comparison.py:1353-1386 | Strings, the four brackets nested to any depth and plain text make one argument: commas inside divide nothing, commas between divide everything |
| TraceStructure.CharactersRead | scripts/hook_comparison.py:1407 | A character's bytes are its UTF-8 encoding, read back by section 3 of RFC 3629 |
| TraceReader.ParseTrace | scripts/hook_comparison.py:1521-1644 | The line loop over one mutable answer computes the line-by-line meaning, raises exactly where that does, and reports every half still waiting at the end, once, by process and name in order |
| TraceReader.SortHalves | scripts/hook_comparison.py:1640-1643 | The report lists every half never resumed exactly once, in the order of process and name |
| TracePrinter.HeardIsSaid | scripts/hook_comparison.py:1436-1498 | Whatever its arguments are, paths, argument list and flags read from a call's printed tokens are the ones the call holds: none for a string cut short, an abbreviated list or an unannotated descriptor |
| TraceRoundTrip.WholeReads | scripts/hook_comparison.py:1561-1642 | One printed call reads as that call: name, arguments, result |
| TraceRoundTrip.BeginReads | scripts/hook_comparison.py:1553-1560 | An interrupted call's first half is held under its process and name |
| TraceRoundTrip.EndReads | scripts/hook_comparison.py:1544-1552 | With the first half held, the resumed half makes the call whole again |
| TraceRoundTrip.EventReads | scripts/hook_comparison.py:1535-1642 | A printed line of any kind reads as its event, whatever else is outstanding |
| TraceWitness.TraceInverts | scripts/hook_comparison.py:1521-1644 | Any calls with any arguments, interrupted and resumed in any interleaving, and any lines unreadable where they stand, read back as what the calls say, in completion order; nothing raises |
| TraceWitness.ReadsExactly | scripts/hook_comparison.py:1562-1644 | Nothing is unreadable if and only if every line is an event with what its table row needs; then the starts and writes read are exactly those the completed calls declare |
| TraceWitness.CleanBill | scripts/hook_comparison.py:1858-1949 | No write outside is reported if and only if the tracer was there and silent, every line is an event with what its row needs, every outstanding half was resumed, something was started, and every path every successful write-capable call declares lies inside |
| TraceWitness.OneBadLineIsNoAnswer | scripts/hook_comparison.py:1881-1896 | One unreadable line, one call without what its row needs, or one half never resumed makes the reading one that was not taken |
| TraceWitness.CutShortCostsTheBill | scripts/hook_comparison.py:1388-1498 | One successful call with a path cut short, or a start with an abbreviated argument list, anywhere, makes the reading one that was not taken |
| TraceWitness.BadLinesExist | scripts/hook_comparison.py:1535-1568 | Lines without a process and call, calls outside the table, and calls resumed that are not outstanding are unreadable in every state |
| TraceAccount.TableNames | scripts/hook_comparison.py:1162-1199 | The table knows exactly the calls listed by name |
| TraceAccount.WritesAreTheSix | scripts/hook_comparison.py:1216 | The flags that make an open a write are the six, found anywhere in the argument |
| TraceAccount.ResolvedIsShown | scripts/hook_comparison.py:1436-1448 | A descriptor resolves exactly to what stands behind its first angle bracket, the mark of a deleted file dropped |
| TraceAccount.CallIsAccounted | scripts/hook_comparison.py:1569-1639 | One call is read as the account of it, told from its name and printed arguments alone: which paths it names, which of them it changed, through what, how surely, and what it started |
| TraceAccount.CallIsCounted | scripts/hook_comparison.py:1571-1589 | What is counted as restarted, as failed and as a call that writes, and which process is the root |
| TraceAccount.TraceIsAccounted | scripts/hook_comparison.py:1521-1644 | A trace is read in full exactly when every call in it names all it has to, and then its writes and starts are the account of its calls, in order |
| TraceAccount.AnswerIsAccount | scripts/hook_comparison.py:1521-1644 | The same of the whole answer, from printed lines |
| TraceAccount.CleanBillOfTheAccount | scripts/hook_comparison.py:1858-1949 | A clean bill, exactly: every path the account names lies inside, every call was complete, every half resumed, something started, the tracer silent |
| TraceAccount.LineByLine | scripts/hook_comparison.py:1521-1644 | What is recorded of a line is exactly what the call it completes changed |
| TraceAccount.OpensAreWrites | scripts/hook_comparison.py:1604-1628 | The line of an open that ran has an entry exactly if its flags argument holds one of the six, and it names the path the result shows |
| TraceHalves.NoneIsForgottenExactlyWhen | scripts/hook_comparison.py:1544-1560 | Every interrupted call is resumed and counted if and only if none is interrupted while another of the same process and name is outstanding |
| TraceHalves.HalvesAddUp | scripts/hook_comparison.py:1544-1560 | For each process and name, calls interrupted are those resumed, those still outstanding and those overwritten |
| TraceHalves.OverwrittenLeavesNothing | scripts/hook_comparison.py:1521-1644 | For any lines whatever, a half begun again before it was resumed might as well be an empty line: same starts, writes, unreadable lines and halves waiting |
| TraceHalves.PrintedHalves | scripts/hook_comparison.py:1544-1560 | The halves the tracer prints of a call begin and resume the half of its process and name |
| TraceHalves.OneHalfIsForgotten | scripts/hook_comparison.py:1553-1560 | Counterexample to completeness: two interrupted calls of one name in one process and one resumption read as the second call alone |
| SqlText.Normalise | scripts/crw_runtime/swapgate.py:294-331 | The character loop computes the collapsed text |
| SqlText.NormalisedIsPrinted | scripts/crw_runtime/swapgate.py:294-331 | The collapsed text is the print of the statement's pieces and has the same pieces |
| SqlText.ComparesPieces | scripts/crw_runtime/swapgate.py:294-331 | Two statements normalise alike exactly when they have the same verbatim quoted segments and words, words recording only whether blank text came before them |
| SqlText.NormalisingIsIdempotent | scripts/crw_runtime/swapgate.py:294-331 | Normalising twice is normalising once |
| SqlText.QuotedStaysVerbatim | scripts/crw_runtime/swapgate.py:294-331 | In each of the four ways of quoting, behind any text that leaves no quote open, the whole segment stands in the normal form as it was |
| SqlText.QuotedTextIsCompared | scripts/crw_runtime/swapgate.py:294-331 | Statements that differ only inside a quoted segment compare equal exactly when they are the same |
| SqlText.BlankTextIsAlike | scripts/crw_runtime/swapgate.py:294-331 | Outside quotes it is no matter how much whitespace stands in a place, nor which |
| SqlText.TextIsCompared | scripts/crw_runtime/swapgate.py:294-331 | Everything that is not whitespace is kept, in order |
| SqlText.ApartIsNotTogether | scripts/crw_runtime/swapgate.py:294-331 | Whitespace between two words, or none, is a difference |
| Chars.SpacesAreThese | scripts/crw_runtime/swapgate.py:324 | The characters that count as whitespace, one by one |
| SwapGate.ReachVerdict | scripts/crw_runtime/swapgate.py:345-378 | The pass over the cells collects exactly the refusing and exactly the unread ones, and reaches the verdict |
| SwapGate.AgreesExactlyWhen | scripts/crw_runtime/swapgate.py:201-275 | The schemas agree exactly when the same objects are on both sides with the same pieces; a lost object is always the answer where there is one |
| SwapGate.ChangesExactlyWhen | scripts/crw_runtime/swapgate.py:201-275 | When the schemas are said to differ and when the candidate is said to add, both directions |
| SwapGate.QuotedChangeKeepsItShut | scripts/crw_runtime/swapgate.py:201-331 | Two definitions that differ only inside a quoted segment are never agreement, and with such a pair in a store that is there the gate stays shut |
| SwapGate.AllowedExactlyWhen | scripts/crw_runtime/swapgate.py:129-275 | The gate opens if and only if the service answered not running, the store was looked for and is absent or the relay counted no open attempt, and there is no store or its schema is the candidate's |
| SwapGate.UnreadNeverHelps | scripts/crw_runtime/swapgate.py:334-378 | An unread or missing cell never allows, and blocks exactly when another cell refuses |
| Framing.SortedIsASorting | scripts/ci/plugin.py:132 | Sorting keeps every item and puts distinct names in increasing order |
| Framing.OneSorting | scripts/ci/plugin.py:132 | Two increasing lists of the same items are one list |
| ByteStrings.BeforeExactlyWhen | scripts/ci/plugin.py:132 | The order of names is decided by the first byte in which they differ, a name that ends there first |
| ByteStrings.OrderIsOfNumbers | scripts/ci/plugin.py:132 | Among names of one length it is the order of the numbers they spell |
| Framing.LinesDetermine | scripts/ci/plugin.py:129-136 | Length-prefixed lines joined by newlines determine the list of files, whatever names hold |
| Framing.BlockReads | scripts/ci/plugin.py:129-136 | A file's line reads back as its name, mode and hash, whatever follows: decimal length, colon, name, space, mode, space, 64 bytes |
| Framing.LinesRead | scripts/ci/plugin.py:129-136 | The lines of any files read back as those files, in order |
| Framing.ChunksRead | scripts/crw_runtime/definition.py:80-84 | The chunks of any files read back as those files: a path, a zero byte, 32 bytes |
| Framing.DigestStream | scripts/ci/plugin.py:129-136 | The loop feeds the hash exactly those bytes |
| Framing.PayloadDetermined | scripts/ci/plugin.py:129-136 | The bytes hashed are the same exactly for the same names, modes and content hashes, however either payload was listed |
| Framing.ChunksDetermine | scripts/crw_runtime/definition.py:62-84 | Paths without a zero byte, a zero byte, and hashes of one length determine the list of files |
| PackageTree.ScanDirectory | scripts/crw_runtime/definition.py:52-58 | One directory's entries become files found there and directories to open, nothing lost and nothing twice |
| PackageTree.FilesUnder | scripts/crw_runtime/definition.py:31-59 | The worklist finds every file under no skipped directory as often as it is there, and raises exactly where an unskipped directory cannot be read |
| PackageTree.DigestPackage | scripts/crw_runtime/definition.py:62-84 | The digest loop feeds exactly the sorted chunks of the kept files |
| PackageTree.PosixDiffers | scripts/crw_runtime/definition.py:80-82 | Different relative paths are written differently |
| PackageTree.PosixReads | scripts/crw_runtime/definition.py:80-82 | A written path reads back as its names, taken apart at slashes |
| PackageTree.FoundExactlyWhen | scripts/crw_runtime/definition.py:31-59 | The walk finds exactly the regular files: each by the names that lead to it, none behind a directory of a skipped name |
| PackageTree.PackageDetermined | scripts/crw_runtime/definition.py:62-84 | The bytes hashed are the same exactly for the same kept paths with the same content hashes |
| PackageTree.WalkOrderIsNothing | scripts/crw_runtime/definition.py:31-84 | Any two walks of one tree give the same bytes |
| PackageTree.FilterDropsOnlyTheName | scripts/crw_runtime/definition.py:74-79 | After pruning, the filter drops exactly the files that carry the excluded name themselves |
| PackageTree.AFileOfTheNameIsDropped | scripts/crw_runtime/definition.py:74-79 | A regular file of the excluded name is found by the walk and leaves the digest what it is without it |
| Release.ReadBatch | scripts/ci/plugin.py:100-106 | The offset loop computes the entry-by-entry reading, and raises exactly where that does |
| Release.BatchIsTakenApart | scripts/ci/plugin.py:95-106 | For any blobs, newlines and header-like text included, each requested name gets exactly its own bytes and the whole stream is used |
| Toml.WriteQuoted | scripts/crw_runtime/codexconfig.py:183-194 | The character loop writes the escaped string |
| Toml.StringReads | scripts/crw_runtime/codexconfig.py:183-194 | A written string reads back as itself, whatever is in it and whatever follows |
| Toml.KeyReads | scripts/crw_runtime/codexconfig.py:200-207 | A written name reads back as one name, dots and the empty name included |
| Toml.ServerReads | scripts/crw_runtime/codexconfig.py:210-214 | A written registration reads back as exactly that name, command and argument list |
| Toml.OnlyAppends | scripts/crw_runtime/codexconfig.py:217-267 | For any reader and any requests, the old text stays a prefix and every registration read before reads the same after |
| Toml.WritesOnlyWhenCreated | scripts/crw_runtime/codexconfig.py:217-267 | The text changes exactly when the answer is that a registration was created |
| Toml.AnswersExactly | scripts/crw_runtime/codexconfig.py:217-267 | For any reader, when each of the four answers is given, both directions, and what the text is after it |
| Toml.SeparatorIsLeast | scripts/crw_runtime/codexconfig.py:245-246 | A table is appended behind an empty line, or at the start of an empty file, with no more line ends than that takes |
| Toml.CreatedIsLinked | scripts/crw_runtime/codexconfig.py:231-243 | A created registration is linked ever after, whatever else is registered in between, and asking again writes nothing |
| Toml.RegistersExactly | scripts/crw_runtime/codexconfig.py:217-267 | On a file registrations built: an absent name is created, the same registration linked, any other a conflict, and never anything else |
| Toml.FromAnEmptyFile | scripts/crw_runtime/codexconfig.py:217-267 | Any requests from an empty file leave the first registration of each name and nothing else, and it reads back exactly |
| Hooks.IdentitiesDiffer | scripts/crw_runtime/hooks.py:45-46 | Two positions never share an identity, even where event names hold colons |
| Hooks.IdentityReads | scripts/crw_runtime/hooks.py:45-46 | An identity, read from its end, gives back the event, the matcher's position and the hook's |
| Hooks.HookFile.Install | scripts/crw_runtime/hooks.py:131-194 | The file and the answer after are the specified ones: the first identical hook of the event under the installed matcher, or one group appended |
| Hooks.AnswersExactly | scripts/crw_runtime/hooks.py:131-194 | When each answer is given, both directions, including when appending raises |
| Hooks.NullMembersRaise | scripts/crw_runtime/hooks.py:63-84 | Two files that pass the shape check and on which installing raises |
| Hooks.InstallKeeps | scripts/crw_runtime/hooks.py:131-194 | Every position of the old file holds the same hook in the new one |
| Hooks.CreatedAsPlanned | scripts/crw_runtime/hooks.py:118-128 | A created hook sits at the planned identity, where nothing was, and installing it again is linked there and changes nothing |
| Hooks.IdentitiesStand | scripts/crw_runtime/hooks.py:131-194 | Over any installs every position keeps its hook |
| Hooks.TrustIsKept | scripts/crw_runtime/hooks.py:92-115 | A recorded identity and hash stay together over any installs, and no other hash ever carries that identity |
| HookOwners.OneHookOwner | scripts/runtime_install.py:2188-2256 | No interleaving of any number of runs of either owner, each killed anywhere, reaches settings the plugin owns beside a registered hook |
| HookOwners.UserRunAlone | scripts/runtime_install.py:2188-2256 | A user's run nobody disturbs: with no settings it creates its own and appends the hook, with its own it appends the hook, with any other it changes nothing |
| HookOwners.PluginRunAlone | scripts/runtime_install.py:2188-2256 | A plugin's run nobody disturbs creates its settings exactly where there are none and no hook is registered, and registers nothing |
| BridgeOwners.Files.Register | scripts/runtime_install.py:4110-4290 | Both files after a call, cut short after any of its writes, are the specified ones |
| BridgeOwners.OneBridgeOwner | scripts/runtime_install.py:3953-4174 | For any reader of the configuration, no calls of either owner, killed at any write, leave a record naming the plugin beside a table that starts the bridge it names |
| BridgeOwners.OneBridgeTable | scripts/runtime_install.py:3968-3987 | From an empty configuration, no calls leave two tables with one command, nor two that start the console script |
| BridgeOwners.BridgeExactlyWhen | scripts/runtime_install.py:3953-3965 | A command's last component is the bridge's script exactly if its text ends in it, slashes and single dots aside |
| BridgeOwners.UserRegistersExactlyWhen | scripts/runtime_install.py:4110-4290 | A user's call that may make both writes ends with its table and its record exactly if it was so before, or the executable says something, the record is absent or this very one, the configuration reads, no other table starts this bridge, and its own is this registration or can be appended; otherwise it changes nothing |
| BridgeOwners.PluginRegistersExactlyWhen | scripts/runtime_install.py:4015-4048 | A plugin's call ends with its record exactly if it was there, or none was, the executable is absolute, the name is the declared one, the configuration reads, and no table starts the bridge or has that name |
| BridgeOwners.BuiltRegistersExactlyWhen | scripts/runtime_install.py:4110-4290 | The same of a user's call in a configuration this command built, told by its tables |
| BridgeOwners.SecondRunCompletesExactlyWhen | scripts/runtime_install.py:4156-4262 | For any reader, when running again completes a call that died between its two writes |
| BridgeOwners.SecondRunCompletes | scripts/runtime_install.py:4156-4262 | In a configuration this command built it always does |
| Judgments.RowsNeverGain | scripts/hook_comparison.py:1979-2030 | Turning cells unread never makes a failed row pass |
| Judgments.DetectionNeverGains | scripts/hook_comparison.py:2055-2067 | Nor a detection measure met |
| Judgments.WrongBlockNeverGains | scripts/hook_comparison.py:2114-2141 | Nor the measure of wrong holds, where a dropped reading would look like no hold |
| Judgments.LatencyNeverGains | scripts/hook_comparison.py:2070-2170 | Nor the latency bounds, where dropping a slow sample would lower them |
| Judgments.ReservationNeverGains | scripts/hook_comparison.py:2174-2204 | Nor one reservation a turn |
| Judgments.WitnessNeverGains | scripts/hook_comparison.py:2221-2272 | Nor the process witness, where there is a tracer |
| Judgments.ContainmentNeverGains | scripts/hook_comparison.py:2460-2468 | Nor containment |
| Judgments.StabilityNeverGains | scripts/hook_comparison.py:2541-2557 | Nor a source that stood still |
| ComparisonDocument.WalkIsComplete | scripts/hook_comparison.py:2284-2296 | The walk collects a judgment exactly when the document carries it, at any depth |
| ComparisonDocument.PassesExactly | scripts/hook_comparison.py:2621-2673 | The document passes exactly when every row, arm, measure and other judgment in it is met |
| ComparisonMeaning.PassesCellByCell | scripts/hook_comparison.py:2621-2673 | The document passes exactly when every condition holds of the cells, each written out: both digests, both arms, every row, containment, the witness, the three detections, no wrong hold, both latency bounds as counts, two reservations with records of their own, the foreign registration in both arms |
| ComparisonMeaning.HalfAndMost | scripts/hook_comparison.py:2070-2170 | A passed document has at least half of its firings within two seconds, and 95 in a hundred less 45 hundredths of one within five |
| ComparisonMeaning.MostExactlyWhen | scripts/hook_comparison.py:2070-2075 | For which numbers of firings the second bound means 95 in a hundred in full; for twelve it does not |
| ComparisonDocument.UnreadNeverHelps | scripts/hook_comparison.py:2621-2673 | Turning any cells, digests and containment answers unread never makes a failed document pass |
| ComparisonDocument.NoTracerIsNoVerdict | scripts/hook_comparison.py:2239-2244 | Taking the tracer away drops exactly the witness's verdict |
| ComparisonDocument.TheWitnessAloneFails | scripts/hook_comparison.py:2239-2249 | A run failed by its witness alone, whose document passes once the tracer is gone |

## Left out

- Recovery.OneRunIsNotEnough: one execution of the code's own steps; the condition that shuts out its whole family is in `Recovery.InstallsExactlyWhen`.
- LinkGuard.LinkGuarded: outside edits may fall anywhere except between a guard and the write it guards, a window no code without a compare-and-swap can close.
- TraceWitness.TraceInverts: printed calls hold arguments that are balanced and results without an equals sign behind a closing bracket; every other line is covered where it is unreadable as it stands, and otherwise not.
- Release.BatchIsTakenApart: the names asked for are distinct, as `git ls-tree` lists them; `Release.Answered` says what a name asked for twice would get. Object lookups and refusals before the stream are not modelled.
- TraceReader.ParseTrace: where a started path resolves to, and the text and wording that go with an unreadable line, are not in the answer.
- Installer.Command.Update: component facts and the outgoing evidence are not in the record, so neither are the deltas that write them.
- Hooks.HookFile.Install: the file is read and written as one step; the answers for a file that changed underneath, could not be read, or could not be read back are not modelled.
- Hooks.AnswersExactly: exact for the answers of an install whose readings succeed and whose file nobody else changes meanwhile.
- TraceText.ReadString: hexadecimal escapes in digits other than ASCII, which `int` accepts, are not read.
- Toml.ServerReads: the reader covers the grammar this command writes, not all of TOML; theorems about other files take the reader as a parameter.
- HookOwners.OneHookOwner: explicit hook commands and the settings override are outside it; two user runs can still both append, which the command reports and does not prevent.
- BridgeOwners.OneBridgeOwner: runs are serialised by the ownership lock, as the command takes it.
- A partially removed tree. A directory half removed after its claim went is somebody else's to every later run, and the model's removal is one step.
- Wall-clock behaviour: the stale rule of the section lock beyond a dead run's lock going stale, polling, timeouts.
- Host record keys that are present and null, the outgoing evidence and the component facts of the record, and the reasons and details that accompany an answer.
- What a build does inside its directory, the measurement, the classification and the swap gate as seen by the installer: each is a step that lets the run go on or sends it to its failure path. The gate itself is modelled in `SwapGate`.
- Lock acquisition failures inside a release or a rollback are failed writes; further exceptions raised while reporting are not modelled.
- Splitting a trace into lines, and process identifiers in digits other than 0 to 9.
- Integer spellings other than plain digits in a batch header; names that are not valid UTF-8, for which the order of text and of bytes differ.
- Rounding of 0.95 as a binary fraction when the latency percentile picks its sample; the model uses the fraction itself.
- Unreadable write-backs, files changed by editors between a reading and its lock, and the answers that report them.
- The trial path, diagnosis, status commands, launchers, the marketplace and manifest rules, and the relay and bridge packages: argument parsing, plumbing, or decision tables a single reading settles.
