# Verification models for xchain-node

Dafny models of the parts of xchain-node whose correctness is an argument rather than a lookup: a
scheduler, a restart policy that runs for ever, an encoding that feeds a hash, an incremental
parser, a gate around a streaming dump, two lock protocols, a registry reconciliation, and several
checkers. Each module states what the code is for and proves it for all inputs, all runs or all
interleavings. `dafny verify dfyconfig.toml` checks everything.

| file | what it models |
|---|---|
| `ShardSchedule.dfy`, `ShardPlan.dfy` | the nightly shard planner: longest-first placement, coverage, balance, bounds against every assignment |
| `Autoheal.dfy` | autoheal passes over persistent state: episodes, backoff, recovery, leftovers |
| `CanonicalJson.dfy`, `JsonReader.dfy`, `ConsensusPin.dfy` | the canonical printer, a JSON reader it is checked against, and the consensus pin it feeds |
| `TarReader.dfy`, `TarNames.dfy` | the streaming reader of an archive's leading member; which member that is |
| `HaltGate.dfy` | the halt-marker gate before and after a dump, query by query |
| `LockFile.dfy`, `CommandLock.dfy` | the lock file call by call; the hold regions of every command above it |
| `Discovery.dfy` | the module registry scan |
| `TestMap.dfy` | the suite identity check with renames and splits |
| `Reachability.dfy` | the require-graph walk and the dead-file verdict |
| `HubReset.dfy` | the hub-checkpoint reset, in which any call may fail |
| `ShardMerge.dfy`, `ShardLog.dfy` | the merged shard log and the summary it is read by; both written out |
| `CommentScan.dfy`, `CommentText.dfy` | comment blanking and the top-level comma split; what they do to comments, literals and brackets |
| `RepublishLedger.dfy` | the reindex and publish ledger against its history |
| `PagedScan.dfy` | the keyset-paged nine-field scan |
| `Base.dfy` | shared vocabulary: stable sort, filters, splitting, orders |

Where the code updates something step by step the model does too (classes with fields, loops with
invariants), and each such method is proved equal to, or exactly characterised by, a function of its
inputs or of the old state; the lemmas are about those functions. Code that is an expression is a
function. Where a theorem would otherwise be stated through such functions, another one says what they
mean in names, codes and numbers written out.

## Where the code does less than its comments say

Each of these is proved here, with a concrete run or input and the condition under which the
promise holds.

- `bootstrap_health_gate.js` promises that nothing halted between its two readings. For reorg halts
  that is true in every interleaving. A sync halt raised after the first reading counts live halts
  and before that reading takes its watermark, and cleared during the dump, passes both readings
  (`HaltGate.SyncHaltSlipsThrough`). Only such halts do (`HaltGate.SyncHaltIsMidReading`), and a sync halt
  lies between two clean readings exactly when a row was raised in that gap and not cleared before the
  first reading ended (`HaltGate.SyncHaltInsideExactly`; for both databases and both kinds of halt,
  `HaltGate.DumpWindowExactly`).
- `command_lock.js` serialises reclamation behind a marker. Two windows remain between a check and
  the unlink it justifies: a lock read as absent inside the marker, and a marker judged abandoned
  before it is broken. With both shut, mutual exclusion holds in every run; each one alone, open
  once, lets two live processes hold the lock (`LockFile.ReclaimOfALiveLock`,
  `LockFile.BreakOfALiveMarker`), so exactly both have to stay shut (`LockFile.ExclusiveExactly`).
- `e2e_shard_plan.js` can end with an empty shard, and so in its closing error, although every group
  fits: exactly when the preload outweighs the least of the other shards before the last job
  (`ShardSchedule.EmptyShardExactly`, `ShardPlan.EmptyShardErrorExactly`), as with two suites of one
  weight, two shards and a heavier preload (`ShardPlan.HeavyPreloadEmptiesAShard`).
- Its plan lists every test file below the actions directory, and runs those at the top or below a directory
  named `.test`, each once (`ShardPlan.EachFileRunsOnce`); one below any other directory is counted in a
  group and run by no shard (`ShardPlan.PlainDirectoryIsNotRun`).
- `canonicalJson` prints `[undefined]` and `[]` alike; on values without that list it is injective up
  to key order (`CanonicalJson.UndefinedElementCollides`, `CanonicalJson.InjectiveOnSolidValues`).
- Autoheal looks at the pass listed last and at nothing when that one has no readable time, so a restart
  can rest on an onset that an earlier-listed pass contradicts (`Autoheal.OutOfOrderLogBreaksIt`,
  `Autoheal.UndatedPassBreaksIt`, `Autoheal.EarlierListedPassBreaksIt`). None does in a chronological log
  whose newest pass can be dated (`Autoheal.NoRetainedPassSinceOnset`); the logs that rule it out,
  whatever onset is on file, are exactly those of `Autoheal.LogRulesOutLaterPasses`.
- The registry scan counts a purged row without reading the delete's answer, so its number is exact,
  and a second scan returns 0, exactly when the database kept none of the orphans
  (`Discovery.CountIsExactUnlessKept`); one stuck orphan is reported by every scan
  (`Discovery.StuckOrphanIsCountedForEver`).
- The checkpoint reset restarts what it stopped, but a container whose stop call failed after taking
  effect is not on that list and gets no start attempt (`HubReset.FailedStopLeavesAHubDown`). What a
  reset leaves down is exactly that container and those whose start failed (`HubReset.ServicesLeftDown`).
- A many-to-one rename map hides a lost file from the suite check (`TestMap.ManyToOneRenameHidesATitle`),
  and every rename map that is not one-to-one can (`TestMap.OneToOneExactly`). Titles renamed to one
  hide a lost test in the same way (`TestMap.MergedTitlesHideATest`, `TestMap.TitlesOneToOneExactly`).
- The ledger compares instants and forgets a publish of a combo it does not know yet. After a clock
  stepped back, a combo published later than its reindex stays due
  (`RepublishLedger.ClockStepBackLeavesItDue`), and one reindexed since its publish can be missing from
  the list (`RepublishLedger.ClockStepBackHidesAReindex`). When it answers by the instants of the history
  and when by its order is exact: `RepublishLedger.DueByInstantsExactly`,
  `RepublishLedger.DueByOrderExactly`.
- The nine-field scan does not unwrap a batch inside a batch (`PagedScan.NestedBatchIsNotRead`). It finds
  what the commands have on their own exactly when no batch among them carries such a FILE
  (`PagedScan.BatchPayload`, `PagedScan.BatchHits`).

## Model

| member | source | states |
|---|---|---|
| `ShardPlan.PartFilesShareTheGroup` | scripts/e2e_shard_plan.js:69-71 | a suite and every file of its part directory, at any depth, get the same group |
| `ShardPlan.GroupOfMeans` | scripts/e2e_shard_plan.js:69-71 | the group of any file: its first path segment without one `.test.js` or `.test` |
| `ShardPlan.LeastBin` | scripts/e2e_shard_plan.js:108 | the scan for a bin returns the first bin no other is lighter than |
| `ShardPlan.PlaceLongestFirst` | scripts/e2e_shard_plan.js:100-111 | the placement loop leaves the bins of the longest-first greedy assignment |
| `ShardPlan.CloseShards` | scripts/e2e_shard_plan.js:113-117 | each bin becomes a shard with its groups sorted, its pattern and its load; the first runs the extras |
| `ShardPlan.BuildPlan` | scripts/e2e_shard_plan.js:79-126 | the planner answers with the specified plan or error on every input: no suites, unsafe names, a single suite, more shards than groups, the two closing checks |
| `ShardPlan.PlanRefusals` | scripts/e2e_shard_plan.js:79-94 | when each answer but a sharded plan is given, by the files and the letters of their groups, and which names it complains of |
| `ShardPlan.PlanIsMeasured` | scripts/e2e_shard_plan.js:96-125 | a sharded plan lists the groups and the unmeasured ones in order; each shard has its groups in order and their seconds as its load, after the preload on the first, which alone runs the extra suites |
| `ShardPlan.PlacementOrder` | scripts/e2e_shard_plan.js:106 | groups are placed heaviest first, those of one weight by name |
| `ShardPlan.PatternRunsItsGroups` | scripts/e2e_shard_plan.js:75-77 | read as a brace set of globs, the pattern of some groups selects exactly the files of those groups that are in place: at the top, or below a directory named `.test`, with no hidden segment |
| `ShardPlan.ShardRunsItsGroups` | scripts/e2e_shard_plan.js:113-117 | so a shard of a plan runs exactly the files in place whose group it has |
| `ShardPlan.EachFileRunsOnce` | scripts/e2e_shard_plan.js:96-125 | every listed file in place is run by exactly one shard, and one out of place by none |
| `ShardPlan.PlainDirectoryIsNotRun` | scripts/e2e_shard_plan.js:69-77 | a file below a plain directory makes a group, and the plan that has the group runs nothing of it |
| `ShardPlan.EachGroupOnce` | scripts/e2e_shard_plan.js:106-122 | a group is on a shard exactly when it is planned, and on no two shards |
| `ShardPlan.PlannedIsPartition` | scripts/e2e_shard_plan.js:119-122 | the shards together hold exactly the groups, counted |
| `ShardPlan.AlwaysAPartition` | scripts/e2e_shard_plan.js:119-122 | the closing partition check can never fire |
| `ShardPlan.ShardLoad` | scripts/e2e_shard_plan.js:100-111 | a shard's load is the preload, on the first, plus the weights of its groups |
| `ShardPlan.EmptyShardErrorExactly` | scripts/e2e_shard_plan.js:123 | with positive weights the empty-shard error fires exactly when the first shard's preload exceeds what the others reach before the last group |
| `ShardPlan.HeavyPreloadEmptiesAShard` | scripts/e2e_shard_plan.js:123 | two suites of one weight, two shards and a preload above that weight: the plan is refused |
| `ShardPlan.HeavyPreloadWitness` | scripts/e2e_shard_plan.js:123 | such an input |
| `ShardPlan.SmallPreloadAlwaysPlans` | scripts/e2e_shard_plan.js:94-123 | positive weights, no more shards than groups and a preload not above the (shards-1)-th largest weight: neither closing check fires |
| `ShardPlan.NearOptimal` | scripts/e2e_shard_plan.js:96-111 | against every way to distribute the groups with the preload on one shard, the heaviest planned shard is within 2 - 1/m of its makespan, and within 4/3 - 1/(3m) without a preload |
| `ShardPlan.Balanced` | scripts/e2e_shard_plan.js:96-111 | a shard less its lightest group is no heavier than any other shard |
| `ShardSchedule.MakespanBound` | scripts/e2e_shard_plan.js:100-111 | list scheduling with one preloaded machine is within 2 - 1/m of every assignment |
| `ShardSchedule.HeavyJobFits` | scripts/e2e_shard_plan.js:100-111 | a job above a third of a feasible makespan never overflows it |
| `ShardSchedule.LongestFirstBound` | scripts/e2e_shard_plan.js:100-111 | longest-first without preload is within 4/3 - 1/(3m) of every assignment |
| `ShardSchedule.Balance` | scripts/e2e_shard_plan.js:100-111 | taking the lightest job off a machine leaves it no heavier than any machine |
| `ShardSchedule.EmptyShardExactly` | scripts/e2e_shard_plan.js:123 | exactly when the greedy assignment leaves a machine empty |
| `ShardSchedule.SmallPreloadFillsEveryShard` | scripts/e2e_shard_plan.js:123 | the sufficient condition on the preload under which none stays empty |
| `Autoheal.Autohealer.HandleStopped` | src/services/autoheal_service.js:103-133 | the retry of a container an earlier restart left stopped: new state, notes and whether it was handled, as the step function says |
| `Autoheal.Autohealer.SkipNonRunning` | src/services/autoheal_service.js:146-160 | a container that does not run is skipped and its onset forgotten |
| `Autoheal.Autohealer.SkipNonUnhealthy` | src/services/autoheal_service.js:162-193 | a container that is not unhealthy ends its episode, and observed health clears its restart count |
| `Autoheal.Autohealer.SeedEpisodeOnset` | src/services/autoheal_service.js:195-219 | the onset is kept, or taken afresh when absent or older than a retained pass, never later than now |
| `Autoheal.Autohealer.ClearRecoveredRestartCount` | src/services/autoheal_service.js:221-237 | the restart count goes only with a fresh onset and a pass past the probation |
| `Autoheal.Autohealer.RestartEligibleCandidate` | src/services/autoheal_service.js:252-306 | grace, backed-off cooldown, dry run, restart and its two failures: the whole new state |
| `Autoheal.Autohealer.EstablishAndRestart` | src/services/autoheal_service.js:239-306 | the wedged path composed of the previous steps |
| `Autoheal.Autohealer.RunChecks` | src/services/autoheal_service.js:357-375 | the checks on one container in order |
| `Autoheal.Autohealer.VisitRow` | src/services/autoheal_service.js:346-376 | one registry row's turn |
| `Autoheal.Autohealer.RunAutoheal` | src/services/autoheal_service.js:328-381 | a pass over the registry equals the fold of the row steps, and the file afterwards is what the pass persists |
| `Autoheal.UnhealthySinceIsAnEntry` | src/services/autoheal_service/restart_state.js:121-136 | the derived onset is a failing probe's time, with no passing probe after it |
| `Autoheal.LastHealthyIsAnEntry` | src/services/autoheal_service/restart_state.js:147-159 | the last healthy time is that of the passing probe listed last |
| `Autoheal.UnhealthySinceIsTheFirst` | src/services/autoheal_service/restart_state.js:121-136 | and it is the first of the longest run of dated failures at the end of the log; none exactly when the newest entry is no such failure |
| `Autoheal.LastHealthyIsNewest` | src/services/autoheal_service/restart_state.js:147-159 | the newest-listed pass decides alone: its start, else its end, else nothing |
| `Autoheal.OthersAreLeftAlone` | src/services/autoheal_service.js:346-356 | nothing is done about a container not registered, not opted in, or not answered for |
| `Autoheal.EpisodeEnds` | src/services/autoheal_service.js:146-193 | seen not running, or running and not unhealthy, a container has no onset afterwards; its count goes exactly when it was seen healthy, its last restart stays, and the file is told exactly when something went |
| `Autoheal.LeftoverIsRetried` | src/services/autoheal_service.js:103-133 | a container left stopped is reported and left alone, or started when the pass may resume it, and then dated and counted |
| `Autoheal.UndatedWedgeWaits` | src/services/autoheal_service.js:239-250 | a wedged container that no failing probe dates is left as it is |
| `Autoheal.WedgeIsHandled` | src/services/autoheal_service.js:195-306 | what is done about any other wedged container, exactly: its onset and count, and then grace, the doubled and capped wait, dry run, restart and failed restart, in notes and in all four maps |
| `Autoheal.RestartsOnlyOnEvidence` | src/services/autoheal_service.js:252-306 | an unforced restart is of a registered, opted-in, running, unhealthy container whose recorded onset is at least a grace window old |
| `Autoheal.FailuresFollowPasses` | src/services/autoheal_service/restart_state.js:121-136 | in a chronological log no retained pass is later than the onset derived from it |
| `Autoheal.NoRetainedPassSinceOnset` | src/services/autoheal_service.js:195-219 | with a chronological log whose newest pass can be dated, no retained pass, wherever listed, is later than the onset a restart rests on |
| `Autoheal.OnsetIsNew` | src/services/autoheal_service.js:146-219 | in any run, once a pass that is no dry run has seen the container not running or not unhealthy, the onset on file was given by that pass or a later one |
| `Autoheal.NoRestartOnAnOldOnset` | src/services/autoheal_service.js:146-306 | so any later restart that was not forced rests on an onset given since then, and at least a grace window old |
| `Autoheal.PassesBeforeOnsetExactly` | src/services/autoheal_service.js:195-219 | for one state: every retained pass precedes the onset a restart rests on exactly when it precedes the onset on file, or that one is given up and it precedes the trailing failures and now |
| `Autoheal.LogRulesOutLaterPasses` | src/services/autoheal_service.js:195-219 | whatever onset is on file, every retained pass precedes the one relied on, exactly for logs whose last-listed pass can be dated and is the latest and whose passes all precede the trailing failures and now |
| `Autoheal.OutOfOrderLogBreaksIt` | src/services/autoheal_service/restart_state.js:121-136 | an out-of-order log on which a restart rests on an onset before a retained pass |
| `Autoheal.UndatedPassBreaksIt` | src/services/autoheal_service/restart_state.js:147-159 | a chronological log with the same outcome, its newest pass having no readable time |
| `Autoheal.EarlierListedPassBreaksIt` | src/services/autoheal_service/restart_state.js:147-159 | a log with the same outcome whose trailing failures are later than the pass listed last |
| `Autoheal.CountDropsOnlyOnRecovery` | src/services/autoheal_service.js:162-237 | a registered container's restart count drops only on observed health or on a pass that outlasts the probation |
| `Autoheal.EveryChangeReachesTheFile` | src/services/autoheal_service.js:308-325 | after a pass that is not a dry run the file holds the walked state, restricted to the registered ids |
| `Autoheal.FileSpeaksForTheRegistered` | src/services/autoheal_service.js:308-325 | of a registered container the file has everything the pass ended with; of any other nothing, or what it had when the pass learned nothing |
| `Autoheal.DryRunKeepsTheFile` | src/services/autoheal_service.js:328-381 | a dry run leaves the file as it was and restarts nothing |
| `Autoheal.BackoffOverRuns` | src/services/autoheal_service.js:252-306 | over any run of passes without recovery, n restarts span at least the sum of the capped doubling waits |
| `Autoheal.RestartsAreRationed` | src/services/autoheal_service/restart_state.js:67-70 | so their number is at most a logarithm plus the time spanned over the ceiling |
| `Autoheal.PersistentWedgeIsReported` | src/services/autoheal_service.js:384-388 | a container restarted twice and found wedged past the grace window, on the onset on file and with no later pass: whatever else the pass meets, it exits non-zero |
| `Autoheal.ExitMeans` | src/services/autoheal_service.js:384-388 | failures decide the exit code before escalations, and escalations before success |
| `CanonicalJson.StringReadsBack` | src/coins/index.js:275-280 | an escaped string literal is decoded uniquely, whatever follows, for all UTF-16 code units, lone surrogates included |
| `CanonicalJson.CanonicalPrefix` | src/coins/index.js:275-280 | no canonical text is a proper prefix of another in value position |
| `CanonicalJson.SamePrintsAlike` | src/coins/index.js:275-280 | values equal up to key order print the same |
| `CanonicalJson.PrintsDetermineValues` | src/coins/index.js:275-280 | over all values with distinct keys, two print the same exactly when they are equal up to key order once `[undefined]` reads as `[]` |
| `CanonicalJson.InjectiveOnSolidValues` | src/coins/index.js:275-280 | on values without `[undefined]`, exactly when equal up to key order |
| `CanonicalJson.UndefinedElementCollides` | src/coins/index.js:275-280 | two different values with one canonical text |
| `JsonReader.StringReads` | src/coins/index.js:275-280 | a printed string is JSON for it, in the one form that has short escapes where there are any, lower-case digits for the other control units and lone surrogates, and everything else as it is |
| `JsonReader.CanonicalIsJson` | src/coins/index.js:275-280 | the canonical text of a value without undefined list elements is JSON without white space: it reads back whole to the same value, every object with its keys in strictly ascending code-unit order; a field without a value reads `undefined` |
| `ConsensusPin.BuildStripped` | src/coins/index.js:84-89 | stripping descriptors keeps every other field, in order |
| `ConsensusPin.BuildKeptAddresses` | src/coins/index.js:287-337 | the kept addresses are the consensus ones, in order |
| `ConsensusPin.BuildConsensusSubset` | src/coins/index.js:287-337 | the assembled subset: required fields always, optional ones when present |
| `ConsensusPin.SubsetSays` | src/coins/index.js:287-337 | by name: the fourteen fields with their values, the slashing configuration when the file sets one, the full-node settings when it has them, and no other field |
| `ConsensusPin.AddressesKept` | src/coins/index.js:299-302 | an address is kept unless its role is declared for display, or is EXPLORER where nothing is declared |
| `ConsensusPin.DescriptorsStripped` | src/coins/index.js:84-89 | a field is stripped exactly when its name begins with a dollar sign |
| `ConsensusPin.PinReads` | src/coins/index.js:358-370 | a coin without a pin is not checked, and a pin may be written in either case |
| `ConsensusPin.VerifyConsensusPin` | src/coins/index.js:358-370 | the check passes exactly when every pinned coin's hash is its pin |
| `ConsensusPin.SubsetDistinct` | src/coins/index.js:287-337 | the subset has distinct keys throughout, so the printer is injective on it |
| `ConsensusPin.HashFixesTheSubset` | src/coins/index.js:341-343 | under a collision-free hash two configurations hash alike exactly when their subsets agree up to key order |
| `ConsensusPin.PassingPinMeansPinnedConfig` | src/coins/index.js:358-370 | a passing check means every pinned coin's subset is the pinned one |
| `ConsensusPin.CoveredFieldsAgree` | src/coins/index.js:287-337 | and exactly when, name by name, every required field agrees with the pinned one's, so do the addresses that are not for display and the full-node settings without descriptors, and each optional field is there when the pinned one's is |
| `ConsensusPin.GenesisDoesNotMoveTheHash` | src/coins/index.js:287-337 | genesis and chain genesis hash never move the hash |
| `ConsensusPin.DisplayAddressDoesNotMoveTheHash` | src/coins/index.js:287-337 | nor does a display-only address |
| `TarReader.Reader.OnData` | src/services/bootstrap_archive_meta.js:124-144 | after every chunk the reader agrees with a one-shot walk of all bytes received, and while it waits its buffer is below the bound |
| `TarReader.Reader.WalkHeaders` | src/services/bootstrap_archive_meta.js:127-143 | the header loop settles or stops where the one-shot walk does |
| `TarReader.Reader.OnEnd` | src/services/bootstrap_archive_meta.js:121-123 | the end of the stream settles an undecided reader on nothing |
| `TarReader.ReadLeadingMember` | src/services/bootstrap_archive_meta.js:100-147 | for every stream and every way to cut it, the result is the one-shot parse's |
| `TarReader.DecisionStands` | src/services/bootstrap_archive_meta.js:127-143 | a decision is not changed by what arrives later |
| `TarReader.BufferStaysBounded` | src/services/bootstrap_archive_meta.js:124-144 | a waiting reader has buffered less than maxSkipped*(512+roundup512(maxBytes))+512+maxBytes |
| `TarReader.ReturnsExactlyTheLeadingMember` | src/services/bootstrap_archive_meta.js:100-147 | content is returned exactly when up to maxSkipped acceptable extension entries lead to the named member, whole, and then it is that member's |
| `TarReader.HeaderRoundTrip` | src/services/bootstrap_archive_meta.js:74-93 | a ustar header block of a name, size and type flag parses to them |
| `TarReader.WrittenMemberReadsBack` | src/services/bootstrap_archive_meta.js:82-147 | an archive written with extension entries before the member reads back as its content |
| `TarNames.LeadingNameDecides` | src/services/bootstrap_archive_meta.js:82-147 | of every archive that begins with x, g, L or K entries and then another member: its content is returned exactly when it has the wanted name, plain or behind "./", and no limit is exceeded; else nothing is |
| `TarNames.HeaderReads` | src/services/bootstrap_archive_meta.js:82-93 | a size is its octal digits behind white space and before anything else; a blank size is zero, a zero type reads as plain, a zero block is none |
| `TarNames.OddSizes` | src/services/bootstrap_archive_meta.js:82-93 | signed sizes, and sizes that do not parse |
| `HaltGate.LiveCountExact` | src/db/halt_markers.js:51-54 | the live query counts a halt exactly when the newest marker row is one |
| `HaltGate.NewestClearExact` | src/db/halt_markers.js:62-66 | the payload query answers 1 exactly when the newest marker row is a clear nobody audited |
| `HaltGate.ReorgReadingExact` | src/services/bootstrap_health_gate/halt_markers.js:231-271 | the two together are positive exactly when the decoder reads itself halted |
| `HaltGate.WindowReasons` | src/services/bootstrap_health_gate.js:363-379 | no window reason exactly for a clean window |
| `HaltGate.LiveReasons` | src/services/bootstrap_health_gate.js:303-358 | no live reason exactly when nothing live was found |
| `HaltGate.HaltMarkerReasons` | src/services/bootstrap_health_gate.js:303-358 | no reason exactly when every probe was read and is clean, and each reason exactly for its own finding; the watermark handed on is the readings'; of databases that stand still: no reason exactly when they are fit; never one with a pending copy or a bad guard at the moment it is looked for |
| `HaltGate.StillReading` | src/services/bootstrap_health_gate.js:303-358 | of a database nothing changes meanwhile: a first reading is clean exactly when it is not halted either way and has no pending copy and no bad guard, and it names exactly what is wrong |
| `HaltGate.WindowIsCleanExactly` | src/services/bootstrap_health_gate/halt_markers.js:275-307 | a second reading finds its window clean exactly when no marker row and no sync row was added since the first one took its watermarks |
| `HaltGate.AstrayIsUnreadable` | src/services/bootstrap_health_gate/halt_markers.js:275-307 | a sequence that went back, or a sync table that is gone, is named as unreadable and not counted |
| `HaltGate.QuietWindowPasses` | src/services/bootstrap_health_gate/halt_markers.js:202-307 | so a fit database in which only ordinary events arrive passes both |
| `HaltGate.NoReorgHaltInside` | src/services/bootstrap_service.js:149-153 | two clean readings: the decoder was halted at no moment between them, in any interleaving with a writer |
| `HaltGate.SyncHaltIsMidReading` | src/services/bootstrap_health_gate/halt_markers.js:202-307 | a sync halt live at any moment between two clean readings was raised between the first one's live count and its watermark |
| `HaltGate.SyncHaltInsideExactly` | src/services/bootstrap_health_gate/halt_markers.js:202-307 | two clean readings have a sync halt between them exactly when a row was raised in that gap and stood when the first reading ended |
| `HaltGate.NoRowRaisedDuringTheReading` | src/services/bootstrap_health_gate/halt_markers.js:202-271 | so none was, at any moment, if no row appeared in that gap |
| `HaltGate.SyncHaltSlipsThrough` | src/services/bootstrap_health_gate/halt_markers.js:202-271 | a history in which both readings pass around a live sync halt |
| `HaltGate.DumpWindowSafety` | src/services/bootstrap_service.js:149-153 | both databases, the source's and the paired decoder's: at no moment between two clean readings a reorg halt, and no sync halt but one raised in that gap |
| `HaltGate.DumpWindowExactly` | src/services/bootstrap_service.js:149-153 | and exactly when a halt of either kind stood in either database between the readings: when one of the first readings had a sync row raised in that gap |
| `LockFile.StepKeepsInv` | src/utils/command_lock.js:121-219 | holder owns the lock file, marker owner owns the marker, a condemned lock is a dead process's: kept by every call and death outside the two windows |
| `LockFile.MutualExclusion` | src/utils/command_lock.js:130-251 | any number of processes, any interleaving of calls and deaths: with the two windows shut no two live processes hold the lock |
| `LockFile.HolderKeepsItsLock` | src/utils/command_lock.js:130-278 | and a live holder's file is never removed by another |
| `LockFile.ExclusiveExactly` | src/utils/command_lock.js:121-278 | of the two windows: in all runs that keep the chosen ones shut the lock is exclusive, and a holder's file stands, exactly when both are chosen |
| `LockFile.ReclaimOfALiveLock` | src/utils/command_lock.js:142-151 | two live processes hold the lock after a read inside the marker found no file |
| `LockFile.BreakOfALiveMarker` | src/utils/command_lock.js:121-125 | two live processes hold the lock after a live marker was broken |
| `LockFile.FreeLockIsTaken` | src/utils/command_lock.js:182-189 | left to itself a process takes a free lock |
| `LockFile.LiveLockIsRefused` | src/utils/command_lock.js:186-216 | is refused a live holder's, and leaves it as it is |
| `LockFile.DeadLockIsTakenOver` | src/utils/command_lock.js:130-219 | takes over a dead holder's, with no marker left behind, whoever crashed inside the marker before |
| `LockFile.MarkerIsGivenBack` | src/utils/command_lock.js:142-157 | inside the marker removes the lock exactly when its holder is gone and it is the file observed, and gives the marker back |
| `LockFile.OthersMarker` | src/utils/command_lock.js:121-140 | leaves a live owner's marker and breaks a dead one's |
| `LockFile.ReleaseRemovesItsOwn` | src/utils/command_lock.js:267-278 | gives back its own lock and no other |
| `LockFile.GivingUpAndDying` | src/utils/command_lock.js:182-226 | and by giving up or dying changes no file |
| `CommandLock.HoldRegions` | src/cli/dispatch.js:41-90 | by name: which commands keep the lock to exit, which begin with a self-update step, which do not lock, and that every other locks around preCheck |
| `CommandLock.WaitTimes` | src/cli/dispatch.js:121-125 | how long each waits, at least half a minute behind a self-update step, its parent's or its own |
| `CommandLock.StepKeepsInv` | src/cli/dispatch.js:140-235 | the hold regions' invariant under every event of every process |
| `CommandLock.LockedSectionsExclude` | src/cli/dispatch.js:127-235 | no two processes, running any commands or the interactive menu, are in a checkout move, a preCheck, a locking action or a scoped hold at once |
| `CommandLock.NothingElseHoldsTheLock` | src/cli/dispatch.js:152-161 | whoever holds the lock is in such a stretch or was killed in one: every other way out gives it back |
| `CommandLock.ListenerExactlyWhileHeld` | src/cli/dispatch.js:98-116 | the exit listener is there exactly while the process holds the lock to exit or in a scope |
| `CommandLock.RefusedOnlyByALiveHolder` | src/cli/dispatch.js:140-151 | a command or a scoped hold is refused only while another live process is in a covered stretch |
| `CommandLock.HandOffIsFinal` | src/cli.js:174-185 | a self-update parent never touches the lock again once its child is spawned |
| `CommandLock.CommandsBegin` | src/cli/dispatch.js:185-215 | a process begins where its command says, with no hold, listener or handler |
| `CommandLock.WaiterTakesTheLock` | src/cli/dispatch.js:140-161 | a waiting process takes a lock that can be taken and goes on; one that cannot be is refused |
| `CommandLock.SelfUpdateEnds` | src/cli.js:150-190 | skipped or without effect a self-update step leads to the wait, a failed one ends, and every way out of it gives the lock back |
| `CommandLock.PreCheckEnds` | src/cli/dispatch.js:217-231 | after preCheck a command that keeps the lock still has it and any other has given it back |
| `CommandLock.ScopedHolds` | src/cli/dispatch.js:98-116 | a scoped hold takes a lock that can be taken for an action that has none, and its release gives it back |
| `CommandLock.WaysOut` | src/cli/dispatch.js:152-161 | leaving or a handled signal gives the lock back; a kill leaves it standing for the next to take over |
| `CommandLock.ScopedLock.Hold` | src/cli/dispatch.js:103-107 | takes at most once, refusing a held lock, and listens exactly while held |
| `CommandLock.ScopedLock.Release` | src/cli/dispatch.js:108-114 | calls its release exactly once per hold |
| `Discovery.ClassifyInvertsNaming` | src/services/discovery_service.js:58-93 | a container is classified as a module exactly when it carries the name the CLI gives that module's container, for every prefix |
| `Discovery.NamedForMeans` | src/services/discovery_service.js:46-93 | the same with every module, coin and network by name |
| `Discovery.KeyIdentifies` | src/services/discovery_service.js:107-109 | among all rows the table could hold, only the classified identity's has its key |
| `Discovery.RunningFirst` | src/services/discovery_service.js:111-116 | the in-place sort is the running containers then the others, each in docker's order |
| `Discovery.TargetIsFirst` | src/services/discovery_service.js:118-131 | the target row is the first matching container's |
| `Discovery.ScanPicksRunning` | src/services/discovery_service.js:111-131 | so the newest running one of the name, else the newest, else no row |
| `Discovery.TargetMeans` | src/services/discovery_service.js:46-131 | by name and state: exactly the modules some container is named for have a row, with the id of the first such container that runs, else of the first |
| `Discovery.RegisterContainers` | src/services/discovery_service.js:111-152 | fails exactly when a row has to be written and cannot be, then with the containers before it registered and nothing else done; else lays the target over the table and counts the changed rows |
| `Discovery.RemoveOrphanRows` | src/services/discovery_service.js:154-172 | deletes exactly the rows no seen container backs, but for refused deletes, and counts them all |
| `Discovery.ScanAndRegisterModules` | src/services/discovery_service.js:174-189 | the whole scan: outcome, table and returned number, exactly |
| `Discovery.CountIsExactUnlessKept` | src/services/discovery_service.js:154-189 | the number is exact, and the next scan returns 0, exactly when no orphan was kept |
| `Discovery.StuckOrphanIsCountedForEver` | src/services/discovery_service.js:154-172 | a table every scan of which reports one change and makes none |
| `TestMap.RenamesMean` | bin/suite_title_map/split_map.js:113-118 | a file or title renamed to nothing keeps its name |
| `TestMap.ViewIsMapped` | bin/suite_title_map/split_map.js:108-121 | one-to-one renames lose no file, in whatever order they come |
| `TestMap.RenamedView` | bin/suite_title_map/split_map.js:108-121 | the view and the origins of each new name |
| `TestMap.CompareFiles` | bin/suite-title-map.js:259-267 | a finding is reported exactly when it is a real difference |
| `TestMap.CountTitles` | bin/suite_title_map/split_map.js:124-128 | counts every title of some lists as often as it occurs |
| `TestMap.TogetherMeans` | bin/suite_title_map/split_map.js:124-128 | taken together, lists have a title as often as they have it one by one |
| `TestMap.MissingTitles` | bin/suite_title_map/split_map.js:131-142 | reports expected less got, as often as short, with where each title went |
| `TestMap.SurplusTitles` | bin/suite_title_map/split_map.js:145-155 | reports got less expected, with the parts that hold each title |
| `TestMap.GradeSplit` | bin/suite_title_map/split_map.js:161-174 | collisions exactly; no title finding exactly when the parts' union is the old file; surplus less missing is the difference in size |
| `TestMap.ValidateSplits` | bin/suite_title_map/split_map.js:70-91 | no problem exactly for a valid record |
| `TestMap.ValidMeans` | bin/suite_title_map/split_map.js:70-91 | valid: every value a list of two non-empty paths or more, no path named twice, and none itself a key but its own source |
| `TestMap.Compare` | bin/suite-title-map.js:233-270 | with one-to-one renames the report is exactly the genuine differences |
| `TestMap.CompareWithSplits` | bin/suite_title_map/split_map.js:196-217 | an invalid record is refused whole; else nothing is reported exactly when every script in scope holds; without splits it is the ordinary comparison |
| `TestMap.OneToOneExactly` | bin/suite-title-map.js:253-258 | renames of some pinned files are one-to-one exactly when, whatever titles those files collect and in whatever order they come, no title that is lost under its new name compares clean |
| `TestMap.TitlesOneToOneExactly` | bin/suite-title-map.js:253-266 | no two pinned titles of a file become one under the title renames exactly when a tree that compares clean has as many titles in every file as were pinned |
| `TestMap.MergedTitlesHideATest` | bin/suite-title-map.js:253-266 | a title map, a pin and a tree with one test fewer that compare clean |
| `TestMap.ManyToOneRenameHidesATitle` | bin/suite-title-map.js:253-258 | a rename map, a pin and a tree with a lost title that compare clean |
| `Reachability.EdgesFrom` | bin/reachability.js:166-184 | the tracked files a file's requires resolve to, each once |
| `Reachability.ResolveWithout` | bin/reachability.js:150-161 | deleting files changes a resolution exactly when it led to one of them |
| `Reachability.ResolveMeans` | bin/reachability.js:150-161 | a require loads the first of the path, the path with `.js`, and the index of its directory that is a script on disk, and nothing when none is |
| `Reachability.Closure` | bin/reachability.js:206-216 | the walk stops and returns exactly the files reachable from the entries |
| `Reachability.ReverseEdges` | bin/reachability.js:192-203 | each file's non-test callers, each once and sorted |
| `Reachability.UnreferencedAcrossPlatform` | bin/reachability.js:317-363 | the flagged files are exactly the unreferenced sources |
| `Reachability.UnreferencedMeansDead` | bin/reachability.js:317-363 | unreferenced: a tracked script under src/ to which no chain of requires leads from a root or a script under bin/, scripts/ or tools/, which no sibling names and no checkout copies, and which no script outside test/ requires |
| `Reachability.KeptRequires` | bin/reachability.js:150-161 | a kept file's requires keep their meaning exactly when none led to a deleted file |
| `Reachability.DeletionIsSafe` | bin/reachability.js:340-363 | removing any flagged files at once leaves every kept non-test file's edges, the entries and both walks unchanged |
| `Reachability.VerdictIsStable` | bin/reachability.js:340-363 | afterwards a file is flagged exactly when nothing else held it and its last non-test callers are gone |
| `HubReset.MirrorOfOne` | src/cli/errors.js:61-76 | a container mirrors at most one hub |
| `HubReset.StacksAreDisjoint` | src/cli/errors.js:61-76 | the stacks' hubs and mirrors are pairwise distinct listed containers |
| `HubReset.ScopeMeans` | src/cli/errors.js:61-128 | by name: refused exactly when there is no hub or some hub lacks its database container, one of its three tables or a readable database name; else every hub and follower is involved, and exactly the hubs' tables and the mirrors that can be shown are rebuilt |
| `HubReset.StopContainers` | src/cli/errors.js:136-143 | stops the running ones in order, up to the first that fails |
| `HubReset.StartContainers` | src/cli/errors.js:145-153 | tries every one and records the failures |
| `HubReset.RebuildTables` | src/cli/errors.js:167-178 | rebuilds in order up to the first failure and touches no other table |
| `HubReset.ResetHubCheckpoints` | src/cli/errors.js:180-209 | what every outcome means: untouched, aborted without touching data, or rebuilt and restarted; success exactly when no call failed |
| `HubReset.EveryStopIsMatched` | src/cli/errors.js:180-209 | on every way out each stopped container has one start attempt and no other has any |
| `HubReset.RebuildsAreQuiet` | src/cli/errors.js:186-203 | no table is rebuilt unless every hub and mirror that ran is stopped by then |
| `HubReset.ResetIsSafe` | src/cli/errors.js:107-209 | the three together, for every container list and any failures |
| `HubReset.ServicesLeftDown` | src/cli/errors.js:180-209 | whatever fails, of what ran before exactly these are down after: a container whose failed stop took effect and one whose failed start did not |
| `HubReset.FailedStopLeavesAHubDown` | src/cli/errors.js:188-193 | a run after which a hub is down that nothing tried to start |
| `ShardMerge.CountSummary` | scripts/e2e_shard_merge.js:38-45 | the loop computes the last line of each kind |
| `ShardMerge.StripAnsiByLine` | scripts/e2e_shard_merge.js:33-35 | no terminal escape runs over a line end |
| `ShardLog.ControlIsCut` | scripts/e2e_shard_merge.js:33-35 | a control sequence is cut away whole, for all parameters, intermediates and finals |
| `ShardLog.EscapeIsCut` | scripts/e2e_shard_merge.js:33-35 | and so is a two-character escape |
| `ShardLog.OtherTextStays` | scripts/e2e_shard_merge.js:33-35 | other text stays |
| `ShardLog.LinesMean` | scripts/e2e_shard_merge.js:40 | where a line ends |
| `ShardLog.SummaryIsRead` | scripts/e2e_shard_merge.js:41-42 | white space or none, figures, white space and one of the three words on its own is a summary of what the figures make |
| `ShardLog.LongerWordIsNone` | scripts/e2e_shard_merge.js:41-42 | but not when something goes on the word |
| `ShardLog.FiguresMean` | scripts/e2e_shard_merge.js:42 | figures are read in tens, and commas between them do not count |
| `ShardMerge.LineReads` | scripts/e2e_shard_merge.js:160-162 | a printed summary line is read back as its number and kind |
| `ShardMerge.SummaryWins` | scripts/e2e_shard_merge.js:153-165 | whatever comes before, a log ending in the summary lines has their counts |
| `ShardMerge.CheckLeg` | scripts/e2e_shard_merge.js:99-115 | no reason exactly for a clean leg |
| `ShardMerge.CheckShard` | scripts/e2e_shard_merge.js:73-117 | no reason exactly for a clean shard |
| `ShardLog.CleanMeans` | scripts/e2e_shard_merge.js:73-117 | a clean shard: its coin, number and pattern, exit code 0, a summary with more than no test and no failure, and the same of every extra suite under its own banner |
| `ShardMerge.Merge` | scripts/e2e_shard_merge.js:119-175 | a merged log is written exactly when every planned shard is clean: banner, each shard's log under its header in plan order, and a summary that is the sum of theirs, whatever the logs contain |
| `ShardMerge.ShardLogIsWhole` | scripts/e2e_shard_merge.js:142-165 | every shard's log is in it unabridged, right after its header |
| `ShardLog.MergedLogReads` | scripts/e2e_shard_merge.js:142-165 | the merged log's opening, banner included, and its end with the totals, as text |
| `ShardLog.ShardIsNamed` | scripts/e2e_shard_merge.js:142-150 | and the line before each shard's log |
| `CommentScan.StripComments` | bin/sibling-reference-map.js:568-595 | the loop computes the scanner function |
| `CommentScan.PositionsKeep` | bin/sibling-reference-map.js:568-595 | each position holds the original character or a space, newlines stay, and one newline is added exactly when the text ends in a line comment |
| `CommentScan.Idempotent` | bin/sibling-reference-map.js:568-595 | blanking twice is blanking once |
| `CommentScan.LiteralsKept` | bin/sibling-reference-map.js:573-579 | a string literal comes out as it went in, comment markers and escapes included |
| `CommentText.LineCommentIsBlanked` | bin/sibling-reference-map.js:580-584 | a line comment becomes as many spaces |
| `CommentText.BlockCommentIsBlanked` | bin/sibling-reference-map.js:585-591 | a block comment becomes blanks up to the first end after its opening, newlines kept |
| `CommentText.OpenCommentIsBlanked` | bin/sibling-reference-map.js:585-591 | and one never closed runs to the end of the text |
| `CommentText.CodeStays` | bin/sibling-reference-map.js:573-594 | code and literals of the three quotes stay |
| `CommentText.LiteralsAre` | bin/sibling-reference-map.js:573-579 | which insides a literal can have |
| `CommentScan.SplitTopLevel` | bin/sibling-reference-map.js:598-613 | the loop computes the pieces between top-level commas, blank ones dropped |
| `CommentScan.SplitIsExact` | bin/sibling-reference-map.js:598-613 | the pieces rejoin to the body and none can be split further |
| `CommentText.OneCharacter` | bin/sibling-reference-map.js:598-613 | what each character outside a literal does to the depth |
| `CommentText.LiteralsPass` | bin/sibling-reference-map.js:604 | a literal changes nothing, whatever stands in it |
| `CommentText.LiteralsHideCommas` | bin/sibling-reference-map.js:604 | and no comma in it divides |
| `CommentText.CommasDivide` | bin/sibling-reference-map.js:608 | a comma outside literals divides exactly where no bracket is open |
| `CommentText.BlankMeans` | bin/sibling-reference-map.js:612 | which pieces are blank, by code |
| `RepublishLedger.ValidKeyExactly` | src/services/bootstrap_republish_ledger.js:77-93 | exactly the keys of a known service, coin and network are valid |
| `RepublishLedger.ValidKeyMeans` | src/services/bootstrap_republish_ledger.js:77-93 | by name: the twenty-seven valid keys |
| `RepublishLedger.DiskRoundTrip` | src/services/bootstrap_republish_ledger.js:109-154 | the file reads back as written exactly when every key is valid |
| `RepublishLedger.Ledger.RecordReindex` | src/services/bootstrap_republish_ledger.js:186-203 | marks every valid combo or, when the file cannot be written, none |
| `RepublishLedger.Ledger.RecordBootstrapPublished` | src/services/bootstrap_republish_ledger.js:210-222 | records a publish of a known combo and leaves an unknown one out |
| `RepublishLedger.ReindexIsRecorded` | src/services/bootstrap_republish_ledger.js:186-203 | a reindex is recorded for exactly the services that make a valid key, in order |
| `RepublishLedger.RecordMeans` | src/services/bootstrap_republish_ledger.js:186-222 | what one record does to its entry, its reason included, and that it does nothing to any other |
| `RepublishLedger.ListRepublishDue` | src/services/bootstrap_republish_ledger.js:241-250 | exactly the due combos, each once, sorted |
| `RepublishLedger.DueByLedger` | src/services/bootstrap_republish_ledger.js:228-235 | for every history: due exactly when reindexed and the last publish the ledger kept is missing or earlier |
| `RepublishLedger.DueByInstantsExactly` | src/services/bootstrap_republish_ledger.js:186-250 | for every history: due agrees with "last reindex later than last publish" exactly unless the ledger forgot a publish not before the last reindex |
| `RepublishLedger.DueByOrderExactly` | src/services/bootstrap_republish_ledger.js:224-235 | for every history: due agrees with "reindexed, and no publish since" exactly unless the kept instants contradict the order of the records |
| `RepublishLedger.DueRefinesHistory` | src/services/bootstrap_republish_ledger.js:186-250 | with increasing instants: due exactly when the last reindex is later than the last publish, through any number of disk round trips |
| `RepublishLedger.ClockStepBackLeavesItDue` | src/services/bootstrap_republish_ledger.js:210-215 | a history with a publish later than the reindex that is still due |
| `RepublishLedger.ClockStepBackHidesAReindex` | src/services/bootstrap_republish_ledger.js:228-235 | a history with a reindex since the publish that is not due |
| `PagedScan.TrimMeans` | src/services/gated_file_field_scan.js:63-99 | trimming takes white space off both ends, and all of it |
| `PagedScan.CommandMeans` | src/services/gated_file_field_scan.js:83-99 | a command is a hit exactly when it is a FILE, in either case, with a ninth field that is not blank; what the hit says |
| `PagedScan.BatchCommands` | src/services/gated_file_field_scan.js:63-73 | a batch splits into its trimmed, non-empty commands |
| `PagedScan.BatchHits` | src/services/gated_file_field_scan.js:63-123 | a batch of any commands has exactly the hits that those which are not batches have on their own, in order, and so those of all of them exactly when no batch among them has a hit |
| `PagedScan.BatchPayload` | src/services/gated_file_field_scan.js:63-123 | the same for every batch payload as it is stored; a batch among its commands has a hit exactly when what follows its version is a nine-field FILE |
| `PagedScan.NestedBatchIsNotRead` | src/services/gated_file_field_scan.js:63-73 | a FILE that is a hit in a batch and is none in a batch inside a batch |
| `PagedScan.ScanRows` | src/services/gated_file_field_scan.js:103-123 | counts every row and lists every hit in order |
| `PagedScan.PaginateScan` | scripts/scan-nine-field-files.js:52-66 | for any page size paging stops and equals one scan of all selected rows |
| `PagedScan.AfterLast` | src/db/transactions.js:30-36 | what the query returns after a page is what was left |

## Left out

- `HaltGate.DumpWindowSafety`: admits a sync halt raised between the first reading's live count and its watermark, because the code does (`HaltGate.DumpWindowExactly`); says nothing about pending-halt copies and rollback-guard rows between the readings, because the code looks at them only at the two ends.
- `HaltGate.NoRowRaisedDuringTheReading`: assumes no sync row appears in that gap, because the code admits one; `HaltGate.SyncHaltInsideExactly` is the exact condition.
- `LockFile.MutualExclusion`: assumes the two windows named above stay shut, because the code is not safe otherwise (`LockFile.ExclusiveExactly`).
- `LockFile.StepKeepsInv`: the same.
- `LockFile.HolderKeepsItsLock`: the same.
- `CommandLock.LockedSectionsExclude`: takes the lock as one atomic test-and-set, so it adds nothing about the windows in the lock file.
- `TestMap.CompareWithSplits`: with a rename map that is not one-to-one only the refusal of an invalid record is stated, because then two pinned files become one.
- Docker, MariaDB, git, npm, HTTP and gzip: their answers are inputs, or outcomes that may fail.
- SHA-256 is a function given as a parameter and taken as injective where a lemma says so; signatures are not modelled.
- The queries of the halt gate are modelled by meaning; the SQL text and the shell that sends it are not.
- The JSON fields of the bootstrap metadata and the identity comparison after the member is read; white space other than ASCII in a tar size field.
- The container state, readiness and chain-tip checks of the health gate, which are case analyses on one answer each.
- The unreadable-holder and the exclusive-create fallback branches of the lock file, process-id recycling, and the polling wait.
- Interactive confirmation, telemetry and the release notice around a locked command.
- Shard weights and loads are reals, times are integers and counters are unbounded; JavaScript's rounding above 2^53 is not modelled. A number in canonical JSON is its printed text, any non-empty run of digits, signs, points and exponent letters, so -0 is 0 and NaN is null.
- `localeCompare` and default sorts are by code unit; names are sequences of characters without normalisation. Registry keys compare byte by byte, not under a database collation.
- Failed registry reads, which the code takes for absent rows; garbage in autoheal's state file.
- The order in which the suite check and the ledger walk an object's keys: every order is allowed, and only what is reported counts.
- The regular expression that finds the script banner of a test log, and the copying of artifacts; the regular expression that finds requires in a file, and the tooling-directory probe.
- The filter of the paged scan is an arbitrary predicate, since the column's collation decides what `LIKE` matches.
- Data that only add easy members: coin data, environment views, secret names, version comparison, report formatting.
