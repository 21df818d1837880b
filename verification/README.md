# Backup, restore and cutover: verified models

Dafny models of the MySQL backup, restore and cutover programs under `db/provision`, and of six smaller
decision procedures of the same repository, with proofs of what their comments promise.

- **Snapshot** (`Snapshot`, `SnapshotRun`, `SnapshotAttempt`, `SqlQuoting`): the coordinator that locks tables, reads the
  binary-log position, opens mysqldump's snapshot and unlocks, interleaved with writers whose transactions are
  logged before they are committed; its attempts, clean-up and retries; what an attempt's answers allow of the server's
  steps; the statements it sends.
- **Recovery** (`ShipBinlogs`, `PruneBackups`, `PruneRun`, `ExtractBinlog`, `RecoveryPlan`, `Recovery`, with
  `BinlogNames` and `BackupKeys`): shipping closed logs behind a marker, the retention planner over arbitrary
  listings, the replay's sort, slice and contiguity check, and all of them over one bucket as a state machine in
  which every job may stop at any step. The jobs' own decision functions drive the machine: a plan step runs the
  whole planner, and the final theorem runs the comment parser and the replay.
- **Cutover gate** (`PromotionGate`, `ReplicaStatus`, `PrintedStatus`): one reading, the wait under a deadline, the status parser.
- **Reversible rewrite** (`LinkRewrite`, `LinkStore`): string replacement over a database with a backup and an undo.
- **Registers and checks** (`UidClaims`, `UidRegister`, `BucketPolicy`, `ImageRefs`, `DigestScope`, `ImageLoad`,
  `GrantPattern`, `Heartbeat`).

`Options`, `Strings` and `Sorting` hold the shared vocabulary: optional values, Python's string search and
replacement, stable sorting and filtering.

Times are integers. A crash is a stop between two effects. I/O, subprocesses, clocks and the network are parameters:
answers, schedules and faults over which every statement is quantified. A method that loops or changes state in the
source is a method here, proved against a function of the old state; what the source promises is proved of that function.

Five promises do not hold as written; the code is modelled as it is, with the exact condition and an input that fails:

- `LinkMap` forbids containment only, and its comment takes that to make a rewrite run once. It does not
  (`LinkRewrite.ContainmentIsNotEnough`); a second run changes nothing, and no old address is left, exactly when both
  pairs are `SafePair` (`RewriteOnceIff`, `RewriteClearsIff`).
- The bucket check means nobody to reach a critical action silently. It compares classes of resources where the engine,
  as `infra/provisioning/scripts/bucketpolicy.py` models it, matches each resource, so it accepts policies in which they do (`BucketPolicy.PartialDenyLeavesObjects`,
  `OneObjectAccountsForAll`, `BucketAllowAccountsForObjects`, `NamingDenyLeavesOthers`). At one resource nobody does exactly
  when a Deny that names everyone reaches it, and each name in the policy that all of those spare has it said of it there
  (`NobodySilentIff`: a check over the policy's own names).
  Acceptance alone never ensures the second half (`AcceptedButSilent`); where every statement on the objects reaches the
  object it does exactly when the Deny does not cover the bucket (`SaidAtIff`).
- The check means never to lock the operator out. It compares the names of a Principal where the engine matches patterns;
  the operator is refused exactly when a pattern there takes them in (`OperatorRefusedIff`, `PatternLocksOperatorOut`).
- A uid on record is never to be handed out again. It is, exactly when a re-run that rewrites its tenant's claim is torn
  inside the uid's digits (`UidRegister.RecordKeptIff`, `NextTenantTakesUidIff`); `TornRerunReusesUid` is such a history.
- A kept dump can lose its resume log. Over logs listed in order it can at some clock and margin exactly when the log was
  shipped before the dump landed and a newer log is listed (`PruneBackups.ResumeLogOutlivesOrderly`, for any listing
  `ResumeLogOutlivesIff`); `FixedPolicyIff` says when under one policy, `DeletedUnder` is the failing plan. The bucket
  theorems take a resume log to ship no earlier than its dump.

The bucket state machine further takes the server to keep a closed log until it is shipped, the marker to survive, and a
rebuilt server to have a uuid never seen before and not to be rebuilt under a running job.

## Model

| member | source | states |
|---|---|---|
| `Snapshot.SnapshotPlusReplayIsSource` | db/provision/bounded_snapshot.py:450-490 | at every moment after a successful attempt, in every interleaving with writers, rotations and a session that may die at any time: for each locked table, the snapshot and a replay from the reported coordinates equal the rows plus what is logged but not yet committed, each change exactly once |
| `Snapshot.StepKeeps` | db/provision/bounded_snapshot.py:424-490 | every step of writers, server and coordinator keeps: each table is its share of the log up to what is still to commit, no transaction in flight has written a locked table, and the position read describes the locked rows as long as the session lives |
| `Snapshot.ReadPositionKeeps` | db/provision/bounded_snapshot.py:463-466 | the position read under the lock is exactly what the locked tables show, although the log may run ahead of the engine for others |
| `Snapshot.UnansweredUnlockIsWrong` | db/provision/bounded_snapshot.py:473-480 | had the session died after the position was read, a single write makes snapshot plus replay apply that write twice, so the unlock must be acknowledged; from every state holding the locks |
| `SnapshotRun.Host.Attempt` | db/provision/bounded_snapshot.py:424-498 | one attempt succeeds exactly when every answer came in time and agreed, and may be retried exactly when it gave up on a bound and its session is confirmed gone; its dump is dead unless it succeeded, and after success its session is known to be gone exactly when its client exits on close |
| `SnapshotAttempt.AttemptIff` | db/provision/bounded_snapshot.py:424-498 | an attempt's answers matched with the server's own steps, a session that ends being a drop before the request is served: an attempt that is over succeeded exactly when the server reached the end of the protocol by an unlock it served, with the listed tables at the position read |
| `SnapshotAttempt.AttemptAmong` | db/provision/bounded_snapshot.py:424-498 | the attempt run among the steps of writers and server: it reports a snapshot exactly at that end, and then snapshot plus replay from the position it reports is faithful for every table listed |
| `SnapshotAttempt.DriveIff` | db/provision/bounded_snapshot.py:424-498 | the requests its answers allow, put to a quiet server, drop included, end in a served unlock exactly when the attempt succeeds, with those tables and that position |
| `SnapshotAttempt.OutcomeIff` | db/provision/bounded_snapshot.py:424-498 | success exactly when all seven answers are good; a retry exactly when the first that is not is out of a bound and the session is confirmed gone |
| `SnapshotRun.ConnectionIdIff` | db/provision/bounded_snapshot.py:438-445 | the connection id is the first line of its answer, a numeral |
| `SnapshotRun.Host.Cleanup` | db/provision/bounded_snapshot.py:411-421 | the dump dies first, then the session; an end that cannot be confirmed is reported |
| `SnapshotRun.Host.TakeBoundedSnapshot` | db/provision/bounded_snapshot.py:512-555 | at most one session and dump at a time; a report counts one attempt more than it aborted; exhaustion counts every attempt as aborted, a fatal one all but the last; the waits are the back-offs in turn |
| `SnapshotRun.BackoffsAre` | db/provision/bounded_snapshot.py:530-548 | the waits are the given ones in turn, the last of them again and again once they run out |
| `SnapshotRun.AtMostOneLives` | db/provision/bounded_snapshot.py:411-421 | sessions started one at a time: never more than one not known to be gone, and no dump alive where one starts |
| `SnapshotRun.Ask` | db/provision/bounded_snapshot.py:273-288 | one request takes the rows up to its own sentinel, or reports the end or the deadline |
| `SnapshotRun.AnswersStayApart` | db/provision/bounded_snapshot.py:273-288 | an answer free of its sentinel is read whole and the next request starts right after it |
| `SnapshotRun.Drain` | db/provision/bounded_snapshot.py:197-211 | the marker is noticed wherever it stands; only the last forty other lines are held |
| `SnapshotRun.KeptIs` | db/provision/bounded_snapshot.py:197-211 | line by line, the lines with the marker or a comment go and all others stay in order |
| `SqlQuoting.IdentifierRoundTrip` | db/provision/bounded_snapshot.py:310-311 | a quoted identifier is read back by the server as the very name, whatever characters it holds |
| `SqlQuoting.StringRoundTrip` | db/provision/bounded_snapshot.py:314-315 | the same for quoted strings with backslashes and quotes |
| `SqlQuoting.LockStatementRoundTrip` | db/provision/bounded_snapshot.py:331-334 | the LOCK TABLES statement, parsed, locks exactly the tables it was built from, in order |
| `ExtractBinlog.CommentRoundTrip` | db/provision/bounded_snapshot.py:118-122 | the coordinates comment is parsed back to its own coordinates exactly when the file name is not empty and holds no quote |
| `ExtractBinlog.FindResumePoint` | db/provision/extract_tenant_binlog.py:96-124 | the first resume comment wins; missing comment and undeclared database are told apart, in that order |
| `ExtractBinlog.UseDeclaresIff` | db/provision/extract_tenant_binlog.py:84-93 | a USE line declares its own database and no other |
| `ExtractBinlog.CreateDeclaresIff` | db/provision/extract_tenant_binlog.py:84-93 | and so does a CREATE DATABASE line, whatever stands between its words and after the name |
| `ExtractBinlog.OwnCommentFound` | db/provision/dump_nightly.py:211-214 | a dump that opens with its snapshot's comment resumes at those coordinates whatever its body says |
| `ExtractBinlog.AssertContiguous` | db/provision/extract_tenant_binlog.py:151-169 | no error exactly when each file follows the one before; otherwise the first break, by kind |
| `ExtractBinlog.PlanAcceptedIff` | db/provision/extract_tenant_binlog.py:386-390 | a list of files in any order is accepted exactly when they form one run without duplicate, gap or second base, and one of them is the resume file |
| `ExtractBinlog.PlanAcceptedShape` | db/provision/extract_tenant_binlog.py:386-391 | an accepted replay reads the resume file and every later one given, each once, in number order |
| `ExtractBinlog.EndsWithOwnName` | db/provision/extract_tenant_binlog.py:388 | a path ends in a log's name only if it is that log |
| `ExtractBinlog.ReplayOfLogs` | db/provision/extract_tenant_binlog.py:365-391 | for logs lo+1..hi in any order a replay from r is accepted exactly when lo < r <= hi and reads r..hi; otherwise the resume file is not found |
| `BinlogNames.LogNameParses` | db/provision/extract_tenant_binlog.py:143-148 | the name mysqld gives log n parses back to its base and n, for the replay and for the pruner |
| `BinlogNames.ParseLogNameIff` | db/provision/extract_tenant_binlog.py:143-148 | a name is read as base and number exactly when it is that base, ending in a dot, and a numeral of that number |
| `BinlogNames.ReadersAgree` | db/provision/prune_backups.py:115-119 | whatever name the replay accepts, the pruner numbers the same |
| `ShipBinlogs.MarkerRoundTrip` | db/provision/ship_binlogs.py:132-167 | a marker written to the file is read back as it was |
| `ShipBinlogs.PendingIsTheRest` | db/provision/ship_binlogs.py:170-182 | with a resumable marker, what is not pending is already uploaded and ends with the marker's log, and what is pending is the rest, in order; everything is pending exactly when the marker cannot be trusted |
| `ShipBinlogs.ServerMoves` | db/provision/ship_binlogs.py:170-182 | purging old logs and closing new ones keeps a marker resumable |
| `ShipBinlogs.MarkerKept` | db/provision/ship_binlogs.py:237-263 | however far a run got, its marker resumes exactly there and nothing before it is missing |
| `ShipBinlogs.Shipper.ShipOne` | db/provision/ship_binlogs.py:244-262 | upload, then marker; a stop in between leaves the old marker |
| `ShipBinlogs.Shipper.ShipPending` | db/provision/ship_binlogs.py:243-263 | the loop uploads and records pending logs in order up to where it is stopped |
| `ShipBinlogs.Shipper.RunShip` | db/provision/ship_binlogs.py:219-263 | a run records a prefix of its pending list, all of it unless stopped, and the next run's pending list is exactly the rest |
| `ShipBinlogs.CatchUp` | db/provision/ship_binlogs.py:219-263 | after any stopped run, one run to the end leaves every closed log uploaded |
| `BackupKeys.BinlogKeyIff` | db/provision/ship_binlogs.py:122-123 | the pruner reads a binlog key as uuid and log name exactly when the shipper wrote it for them |
| `BackupKeys.DumpKeyIff` | db/provision/dump_nightly.py:244 | the pruner reads a dump key as uuid and time stamp exactly when the nightly run wrote it for them |
| `BackupKeys.KeyKindsDiffer` | db/provision/prune_backups.py:82-112 | no key is both a dump's and a binlog's |
| `PruneBackups.AnchorIsNewest` | db/provision/prune_backups.py:157-163 | the anchor is the newest dump at or before the window boundary |
| `PruneBackups.NoCoverUnreachable` | db/provision/prune_backups.py:169-175 | the refusal for an uncovered window never happens |
| `PruneBackups.DumpsKept` | db/provision/prune_backups.py:165-167 | exactly the anchor and the dumps inside retention stay |
| `PruneBackups.BinlogsCleanPrefix` | db/provision/prune_backups.py:177-217 | what is deleted is numbered strictly below everything kept, and something is always kept |
| `PruneBackups.GoneOrdered` | db/provision/prune_backups.py:177-220 | deletions go lowest number first and are all older than some dump |
| `PruneBackups.NotPrefixMeansShared` | db/provision/prune_backups.py:210-217 | the last guard fires only when two binlogs of one incarnation share a number |
| `PruneBackups.BinlogGoesIff` | db/provision/prune_backups.py:177-220 | a binlog goes exactly when its incarnation has an anchor and is not refused, and it is older than retention and anchor |
| `PruneBackups.ResumeLogOutlivesIff` | db/provision/prune_backups.py:177-217 | for any listing and any window, every clock and margin that keeps a dump keeps its resume log exactly when no division between the log and the dump would stand |
| `PruneBackups.ResumeLogOutlivesOrderly` | db/provision/prune_backups.py:177-217 | over numbered logs listed in order: exactly when the log was shipped no earlier than the dump landed, or no newer one is listed |
| `PruneBackups.DeletedUnder` | db/provision/prune_backups.py:177-223 | under any one policy, the clock at which the dump stays and every log older than a division within one margin before it goes |
| `PruneBackups.FixedPolicyIff` | db/provision/prune_backups.py:177-223 | under one policy, over ordered logs: some clock keeps the dump and loses its resume log exactly when retention can end after the log, before the dump and no later than the newest log, with a dump newer than the resume log to anchor then, or when a log is as new as the dump and no newer dump lies within one margin |
| `PruneBackups.PruneConverges` | db/provision/prune_backups.py:129-223 | pruning at t1 and, after any part of it, at t2 leaves what pruning once at t2 leaves, unless t2 refuses |
| `PruneBackups.ReplanDeletesNothing` | db/provision/prune_backups.py:129-223 | planning again at once deletes nothing |
| `PruneBackups.RefusedLeavesAll` | db/provision/prune_backups.py:171-217 | a refused incarnation loses nothing |
| `PruneBackups.RefusalIff` | db/provision/prune_backups.py:171-217 | when an anchored incarnation is refused, for each of the four reasons in their order |
| `PruneBackups.ComposesIff` | db/provision/prune_backups.py:129-223 | pruning at two times leaves what the later prune alone leaves, for every listing, exactly when the margin is not negative |
| `PruneRun.GroupByUuid` | db/provision/prune_backups.py:122-126 | grouping keeps each incarnation's objects, in listing order |
| `PruneRun.PlanPrune` | db/provision/prune_backups.py:129-223 | the loop over the groups in sorted order, against the specified plan |
| `PruneRun.BuildPlan` | db/provision/prune_backups.py:226-240 | the plan of the two listings' keys; what those keys are read as, and what it takes, is stated in the rows below |
| `PruneRun.DumpsInIff` | db/provision/prune_backups.py:82-97 | a listing gives exactly the dumps whose key the nightly run wrote, each with its own key, incarnation and upload time |
| `PruneRun.DumpsInParts` | db/provision/prune_backups.py:82-97 | one for each such entry, in listing order |
| `PruneRun.BinlogsInIff` | db/provision/prune_backups.py:99-112 | the same for binlogs, with their log names |
| `PruneRun.BinlogsInParts` | db/provision/prune_backups.py:99-112 | one for each such entry, in listing order |
| `PruneRun.ListedDumpGoesIff` | db/provision/prune_backups.py:153-240 | over the two listings: a dump entry is deleted exactly when its incarnation's plan stands, it was uploaded no later than retention began, and a newer entry is old enough to anchor the window |
| `PruneRun.NothingRecentGoes` | db/provision/prune_backups.py:153-240 | over the two listings: whatever is deleted is an entry uploaded no later than retention began |
| `PruneRun.DecidedIndependently` | db/provision/prune_backups.py:153-221 | what the plan deletes of one incarnation depends on that incarnation's objects alone |
| `PruneRun.RefusalsRecorded` | db/provision/prune_backups.py:153-217 | refusals are recorded exactly for the incarnations whose own decision refuses |
| `PruneRun.WholePlan` | db/provision/prune_backups.py:153-221 | restricted to any incarnation, listed or not, the plan is its own decision |
| `PruneRun.Bucket.ApplyPlan` | db/provision/prune_backups.py:285-296 | dumps then binlogs, in order, up to where it stops |
| `PruneRun.StoppedRunConverges` | db/provision/prune_backups.py:285-296 | stopping after any removal and planning again later reaches the same survivors |
| `PruneRun.ParsedKeysDetermine` | db/provision/prune_backups.py:82-112 | a listing's keys determine kind, incarnation and log |
| `RecoveryPlan.DecisionOnSlots` | db/provision/prune_backups.py:177-220 | on log numbers: removals are downward closed, leave a higher number, and are older than a listed dump |
| `RecoveryPlan.RemovalOrder` | db/provision/prune_backups.py:177-220 | each incarnation's logs are removed lowest first |
| `Recovery.PendingIsLogsToShip` | db/provision/ship_binlogs.py:170-182 | the state machine's pending range is what `logs_to_ship` computes |
| `Recovery.KeptSlotStays` | db/provision/prune_backups.py:177-179 | a plan from an older dump listing never removes the resume log of a dump that stays, new ones included, whatever clock and policy it used |
| `Recovery.StepKeeps` | db/provision/ship_binlogs.py:237-263 | every step of server, shipper, dump and pruner, each stopping anywhere, keeps one unbroken run of logs per incarnation and every dump's resume log |
| `Recovery.RunKeeps` | db/provision/ship_binlogs.py:237-263 | and so does every run from an empty bucket |
| `Recovery.EveryDumpRestores` | db/provision/extract_tenant_binlog.py:365-391 | at any moment of any run, the coordinates read from any bucket dump's own comment are accepted against its incarnation's logs in any order and replay everything to the last shipped one; only an unshipped resume log is refused |
| `Recovery.NothingLost` | db/provision/ship_binlogs.py:237-263 | no log is missing between the bucket and what the server still retains |
| `PromotionGate.PromotesExactlyTheFrozenPrefix` | db/provision/promotion_gate.py:150-187 | against a source log and a replica that applied a prefix: promote exactly when both threads are well and the prefix is the frozen one, wait exactly when it is shorter or only receiving is unwell, abandon when longer |
| `PromotionGate.PromotesIff` | db/provision/promotion_gate.py:132-187 | promote exactly when there is one row with every field, and its own text says: both threads run, both error numbers are numerals of 0, the source is the frozen one up to case, the applied log and position are the frozen ones |
| `PromotionGate.WaitsIff` | db/provision/promotion_gate.py:132-187 | wait exactly when the same holds of the applier, it is behind in the frozen log's series or just there with a receiver that is unwell but may return |
| `PromotionGate.FrozenUsableIff` | db/provision/promotion_gate.py:78-90 | frozen coordinates are usable exactly when the uuid is 36 characters of the uuid form, the position at least 4 and the file a log's name |
| `PromotionGate.UnusableNeverPromotes` | db/provision/promotion_gate.py:132-141 | without that the answer is always to abandon |
| `PrintedStatus.PromotesPrintedIff` | db/provision/promotion_gate.py:93-187 | from the printed text: over any answer the server prints, one row and those values shown in it |
| `PromotionGate.PromoteNeeds` | db/provision/promotion_gate.py:132-187 | the same in terms of the row as read |
| `PromotionGate.LogNameCoordinates` | db/provision/promotion_gate.py:78-82 | mysqld's own log name is read as its number |
| `PromotionGate.PollUntil` | db/provision/promotion_gate.py:211-226 | the loop: every earlier reading waited in time, the last one decides, and it ends within ceil(timeout/poll)+1 readings |
| `PromotionGate.WaitedInTurn` | db/provision/promotion_gate.py:211-226 | every reading but the last said to wait, in time; the last gives the answer, unless it says to wait and the time is up, or cannot be had |
| `PromotionGate.WaitForPromotion` | db/provision/promotion_gate.py:201-226 | never waits as an answer; a limit not above 0 or above ten minutes abandons before any reading; else the wait ends as `WaitedInTurn` tells |
| `PromotionGate.WaitedPromotionIsSafe` | db/provision/promotion_gate.py:201-226 | a promotion means the replica had applied exactly the frozen prefix on the last reading and no more than it on every earlier one |
| `ReplicaStatus.ParseReplicaStatus` | db/provision/promotion_gate.py:93-122 | the reading loop over the text's lines, against a fold that refuses a repeated field and text before a row |
| `ReplicaStatus.FieldReads` | db/provision/promotion_gate.py:111-120 | a printed field is read as that field |
| `ReplicaStatus.HeaderReads` | db/provision/promotion_gate.py:105-108 | a printed row header is read as one |
| `ReplicaStatus.StatusRoundTrip` | db/provision/promotion_gate.py:93-122 | the text of any rows, no key twice in one and values over any number of lines, is read back as exactly those rows |
| `ReplicaStatus.GtidLineContinues` | db/provision/promotion_gate.py:93-98 | a line of a GTID set continues the value before it |
| `LinkRewrite.RewriteClearsIff` | db/provision/rewrite_media_links.py:44-55 | for backslash-free accepted addresses, no rewritten value holds an old address, plain or escaped, exactly when both pairs are safe -- more than the constructor checks |
| `LinkRewrite.SafePairClears` | db/provision/rewrite_media_links.py:85-88 | replacing a safe pair leaves no occurrence, however matches touch |
| `LinkRewrite.UnsafePairLeaves` | db/provision/rewrite_media_links.py:85-88 | and for every unsafe pair some value keeps one |
| `LinkRewrite.OrdinaryAddressesAreSafe` | db/provision/rewrite_media_links.py:44-52 | addresses with the scheme only at the front are safe |
| `LinkRewrite.RewriteOnceIff` | db/provision/rewrite_media_links.py:47-49 | "once": a second run leaves every value as the first run did exactly when both pairs are safe |
| `LinkRewrite.CleanValueUntouched` | db/provision/rewrite_media_links.py:85-99 | a value without old links is not changed |
| `LinkRewrite.ReplaceIsJoin` | db/provision/rewrite_media_links.py:85-88 | replacing cuts the text at the leftmost occurrences and joins the same pieces by the substitute |
| `LinkRewrite.RewriteIsJoin` | db/provision/rewrite_media_links.py:85-99 | so a rewrite keeps everything but the addresses: each old one becomes the new one, plain, then escaped |
| `LinkRewrite.ContainmentIsNotEnough` | db/provision/rewrite_media_links.py:49-52 | two addresses the constructor accepts whose rewrite leaves the old one behind |
| `LinkStore.Store.Blockers` | db/provision/rewrite_media_links.py:106-117 | the scan, against its specification |
| `LinkStore.Store.Plan` | db/provision/rewrite_media_links.py:120-131 | the scan for changes, against its specification |
| `LinkStore.Store.Remaining` | db/provision/rewrite_media_links.py:134-141 | the scan for what is left, against its specification |
| `LinkStore.BlockersIff` | db/provision/rewrite_media_links.py:106-117 | nothing blocks exactly when every column holding an old link is a text column of a keyed table |
| `LinkStore.PlanIsExact` | db/provision/rewrite_media_links.py:120-131 | exactly the cells whose value rewriting changes are planned, with both values |
| `LinkStore.ApplyLeavesNothing` | db/provision/rewrite_media_links.py:134-170 | an apply that was not refused leaves no old link in any text or json column, and nothing to plan |
| `LinkStore.Store.Apply` | db/provision/rewrite_media_links.py:144-170 | all changes and a backup of them, or a refusal, or nothing at all: a failure anywhere leaves store and backups as they were |
| `LinkStore.Store.Reverse` | db/provision/rewrite_media_links.py:173-193 | restores exactly the recorded cells that still hold the rewritten value, or nothing |
| `LinkStore.ConflictIff` | db/provision/rewrite_media_links.py:180-188 | a conflict exactly when some recorded cell holds neither of its two values |
| `LinkStore.ReverseInvertsApply` | db/provision/rewrite_media_links.py:144-193 | reversing an apply restores the very database, and a second reverse finds nothing to do |
| `LinkStore.Store.ApplyThenReverseTwice` | db/provision/rewrite_media_links.py:144-193 | the same, as one sequence of method calls |
| `UidClaims.ParseClaim` | demo-host/provision/demo_uid_claims.py:65-79 | the reading of a claim file, with Python's reading of its integer, against its specification |
| `UidClaims.PyIntReads` | demo-host/provision/demo_uid_claims.py:65-79 | signs and single underscores between digits are read, others are not |
| `UidClaims.ClaimRoundTrip` | demo-host/provision/demo_uid_claims.py:61-79 | a claim is read back as written |
| `UidClaims.TornClaimIff` | app/provision/provision_tenant_volume.py:285-291 | a claim cut short is refused exactly when none of the uid's digits are left; otherwise it reads as the cut number |
| `UidRegister.ReadRegister` | demo-host/provision/demo_uid_claims.py:163-185 | all claims, or nothing when one entry is unreadable or misnamed |
| `UidRegister.DemoSlotsAreATable` | demo-host/provision/demo_uid_claims.py:27-34 | the slot table claims distinct uids under distinct slugs, in range |
| `UidRegister.Host.RecordDemoClaims` | demo-host/provision/demo_uid_claims.py:201-262 | the demo program's loops, crashing after any number of effects |
| `UidRegister.AccountRefusesIff` | demo-host/provision/demo_uid_claims.py:240-255 | an account the host already has refuses a run exactly when a claim it would newly make has its uid |
| `UidRegister.NoAccountClaimed` | demo-host/provision/demo_uid_claims.py:218-262 | no claim the run makes has the uid of such an account, wherever it stops |
| `UidRegister.DemoSucceeds` | demo-host/provision/demo_uid_claims.py:218-262 | where every entry is a claim and no wanted uid is out of range, another's or an account's, an uninterrupted run ends with every wanted claim on file |
| `UidRegister.Host.ProvisionTenant` | app/provision/provision_tenant_volume.py:303-340 | the tenant program up to its claim, crashing after any number of effects |
| `UidRegister.TenantGoesIff` | app/provision/provision_tenant_volume.py:205-264 | a tenant run goes ahead exactly when slug and uid are a tenant's, every entry is some slug's claim, every content volume's slug has one, and uid and slug are each other's or new |
| `UidRegister.TenantCompletes` | app/provision/provision_tenant_volume.py:303-340 | the three volumes of that name are made in order, the claim written only when all stand, and a run left to its end leaves exactly these and the claim in full |
| `UidRegister.DemoKeeps` | demo-host/provision/demo_uid_claims.py:218-262 | a demo run adds to the record and changes nothing in it, wherever it crashes |
| `UidRegister.TenantKeeps` | app/provision/provision_tenant_volume.py:248-264 | so does a tenant run, unless it re-writes its own claim and is torn inside the uid's digits |
| `UidRegister.RecordKeptIff` | app/provision/provision_tenant_volume.py:285-340 | a run of either program, crashing after any effect and with its write cut anywhere, keeps the record exactly when it is not that one |
| `UidRegister.UidsNeverReused` | app/provision/provision_tenant_volume.py:248-264 | over any sequence of runs of both programs, crashing and cut anywhere else: two uids of the range read at any two times are equal exactly when they are the same slug's |
| `UidRegister.ClaimsStayOnFile` | demo-host/provision/demo_uid_claims.py:188-198 | over the same runs a recorded claim's file is never lost and never reads as another uid |
| `UidRegister.CrashedTenantBlocks` | app/provision/provision_tenant_volume.py:205-245 | a new tenant's run did nothing, or recorded its uid, or blocks every later tenant run, exactly unless it was torn inside the digits |
| `UidRegister.NextTenantTakesUidIff` | app/provision/provision_tenant_volume.py:248-340 | whatever became of a run, another tenant is handed its uid next exactly when the run was torn inside the digits, or was a new tenant's and did nothing |
| `UidRegister.TornRerunReusesUid` | app/provision/provision_tenant_volume.py:285-340 | a history in which a recorded uid is handed to a second tenant: one torn re-run is enough |
| `UidRegister.DemoRerunConverges` | demo-host/provision/demo_uid_claims.py:218-262 | run again after its own crash, the demo program reaches the register of an uninterrupted run |
| `UidRegister.DemoCompletes` | demo-host/provision/demo_uid_claims.py:218-262 | which is: the old claims and all the wanted ones, no temporary file |
| `BucketPolicy.CheckPolicy` | db/provision/configure_backup_bucket.py:267-429 | the check's loops accept exactly the policies the order-free definition accepts |
| `BucketPolicy.AcceptedIff` | db/provision/configure_backup_bucket.py:247-429 | accepted exactly when each statement passes the rules written out, and the engine finds a Deny for each of the seven bucket actions on the bucket and for each of the three object actions on some object |
| `BucketPolicy.PassesIff` | db/provision/configure_backup_bucket.py:290-404 | the rules for one statement, in terms of the resources, actions and principals it holds |
| `BucketPolicy.StatementRoundTrip` | db/provision/configure_backup_bucket.py:153-183 | a statement written as JSON, one name bare or in a list, a principal plain or under AWS, is read as that statement |
| `BucketPolicy.DocumentReads` | db/provision/configure_backup_bucket.py:247-290 | and a document as its statements in order |
| `BucketPolicy.CheckDocument` | db/provision/configure_backup_bucket.py:247-429 | the same for the document as JSON gives it |
| `BucketPolicy.OneOrMany` | db/provision/configure_backup_bucket.py:153-162 | a bare string and a list of it are read alike |
| `BucketPolicy.CollectAllows` | db/provision/configure_backup_bucket.py:267-287 | the first pass collects exactly what Allows grant, per principal |
| `BucketPolicy.CollectDenied` | db/provision/configure_backup_bucket.py:218-244 | exactly the patterns Denies withhold from one principal |
| `BucketPolicy.CheckExemptions` | db/provision/configure_backup_bucket.py:348-378 | the exemption loop, against its definition |
| `BucketPolicy.OperatorLockedOutIff` | db/provision/configure_backup_bucket.py:382-404 | an accepted Deny on the bucket reaches the operator exactly when a Principal beside a NotPrincipal names them |
| `BucketPolicy.NoLockout` | db/provision/configure_backup_bucket.py:382-404 | with one way of naming principals per statement it never does |
| `BucketPolicy.ExemptionsSpelledIff` | db/provision/configure_backup_bucket.py:348-378 | a Deny's exemptions pass exactly when each exempted principal but the operator has each critical action of each class the Deny covers spelled out on some class it covers |
| `BucketPolicy.OwnClassIff` | db/provision/configure_backup_bucket.py:360-378 | a statement the check counts is there on the action's own class, in every accepted policy that holds the Deny, exactly when the Deny does not cover both classes |
| `BucketPolicy.BucketAllowAccountsForObjects` | db/provision/configure_backup_bucket.py:360-370 | the smallest policy where it is not: an Allow on the bucket alone accounts for the objects, and nothing is said of any of them |
| `BucketPolicy.Decide` | infra/provisioning/scripts/bucketpolicy.py:224-264 | the engine's decision on one request, loop against fold |
| `BucketPolicy.DecisionIff` | infra/provisioning/scripts/bucketpolicy.py:231-264 | the engine raises exactly at a statement that names nobody, before any Deny that speaks; else a request is denied exactly when some Deny speaks of it, whatever the order, or nothing does and the principal is no key of the project |
| `BucketPolicy.NotActionIgnored` | infra/provisioning/scripts/bucketpolicy.py:245-253 | a statement with a NotAction decides nothing, wherever it stands |
| `BucketPolicy.CoversIff` | db/provision/configure_backup_bucket.py:205-213 | a pattern stands for itself, and one that ends in a star for whatever begins with the text before it |
| `BucketPolicy.OnIff` | db/provision/configure_backup_bucket.py:334-335 | an allowed statement is on the bucket exactly when it reaches the bucket, and on the objects exactly when it reaches some object |
| `BucketPolicy.UnmentionedRefusedIff` | infra/provisioning/scripts/bucketpolicy.py:231-264 | a principal the policy does not mention is refused at one resource exactly when a Deny that names everyone reaches it; in an accepted policy nothing is said of them otherwise |
| `BucketPolicy.NobodySilentIff` | db/provision/configure_backup_bucket.py:369-429 | in an accepted policy with plain names nobody but the operator makes a request silently exactly when a Deny that names everyone reaches the very resource, and of the names in the policy each that all such spare has it said of it there |
| `BucketPolicy.Stranger` | db/provision/configure_backup_bucket.py:337-378 | where names are no patterns some principal is not mentioned |
| `BucketPolicy.SaidAtIff` | db/provision/configure_backup_bucket.py:348-378 | where every statement that reaches any object reaches this one, and names plainly in one way: an exempted principal has each critical object action said there in every accepted policy that holds the Deny exactly when the Deny does not cover the bucket |
| `BucketPolicy.AcceptedButSilent` | db/provision/configure_backup_bucket.py:348-378 | without that, never: for every accepted Deny and every object it reaches an accepted policy holds it in which whoever it exempts reaches the object silently |
| `BucketPolicy.PartialDenyLeavesObjects` | db/provision/configure_backup_bucket.py:334-375 | a Deny on the bucket and one part of the objects is accepted alone and says nothing of the others to anyone |
| `BucketPolicy.OneObjectAccountsForAll` | db/provision/configure_backup_bucket.py:360-370 | an Allow on one object accounts for a principal exempted on all, though each Deny keeps to one class |
| `BucketPolicy.NamingDenyLeavesOthers` | db/provision/configure_backup_bucket.py:369-429 | a Deny that names one principal is accepted and says nothing of anyone else |
| `BucketPolicy.OperatorRefusedIff` | db/provision/configure_backup_bucket.py:382-404 | the engine refuses the operator a request on the bucket under an accepted policy exactly when a Deny names them in its Principal by a pattern |
| `BucketPolicy.PatternLocksOperatorOut` | db/provision/configure_backup_bucket.py:399-404 | and such a policy is accepted |
| `BucketPolicy.OrderIsIrrelevant` | db/provision/configure_backup_bucket.py:262-287 | permuting the statements never changes the answer |
| `ImageRefs.ExpandRef` | scripts/assert-image-refs-on-mirror.py:227-269 | the recursion ends, and computes the specified expansion |
| `ImageRefs.GatherRef` | scripts/assert-image-refs-on-mirror.py:256-268 | its loop over definitions |
| `ImageRefs.CoveredIff` | scripts/assert-image-refs-on-mirror.py:256-269 | covered exactly when every definition substituted along every followed path is reported, self-referencing defaults included |
| `ImageRefs.ValuesAreOfDefinitions` | scripts/assert-image-refs-on-mirror.py:227-269 | of a reference head + variable + tail: its values are those of head + value + tail, cleaned, over the definitions of the file, or where it has none the repository's, or where neither has one or the variable is being expanded the default; up to sixteen |
| `ImageRefs.ExpandsEach` | scripts/assert-image-refs-on-mirror.py:247-269 | in order: the values of each definition in the variable's place, the first sixteen; one substitution and those inside each; covered when every one followed is reported and covered |
| `ImageRefs.UnsubstitutedIff` | scripts/assert-image-refs-on-mirror.py:242-247 | nothing was substituted exactly when there was nothing to substitute, and then the reference is its own value |
| `ImageRefs.RefusedIff` | scripts/assert-image-refs-on-mirror.py:256-269 | it is refused exactly when no definition stands, or one that is not reported at its own line cannot be expanded |
| `ImageRefs.ValuesAreGround` | scripts/assert-image-refs-on-mirror.py:242-247 | every value returned has nothing left to expand but the kept variable, and is reached by a path of definitions |
| `ImageRefs.OnlyTheLimitDrops` | scripts/assert-image-refs-on-mirror.py:269 | a value some path reaches is missing only when the limit of sixteen was met |
| `ImageRefs.PathsAreShort` | scripts/assert-image-refs-on-mirror.py:242-243 | no path is longer than the depth limit |
| `ImageRefs.FileScan.Emit` | scripts/assert-image-refs-on-mirror.py:806-824 | the raw text cleaned, then: literal, operand it cannot read, alias, unresolved, suppressed, or each value not skipped, in order |
| `ImageRefs.EmittedIff` | scripts/assert-image-refs-on-mirror.py:806-824 | exactly which candidates are reported for a reference, unresolved ones and values |
| `ImageRefs.CleanedIs` | scripts/assert-image-refs-on-mirror.py:806-808 | quotes around a reference and a docker:// before it are no part of it |
| `ImageRefs.DroppedIff` | scripts/assert-image-refs-on-mirror.py:806-824 | a reference goes unreported exactly when it is a literal, an alias of the file, wholly covered by definitions reported elsewhere, or expands to nothing but skipped values |
| `ImageRefs.SuppressedOnlyWhenReported` | scripts/assert-image-refs-on-mirror.py:821-823 | a candidate is dropped only when something was substituted and all of it is reported elsewhere |
| `DigestScope.ParseFromIff` | scripts/digest-line-scope.js:12-19 | a line parses as a FROM reference exactly when it is that reference printed |
| `DigestScope.ValidIff` | scripts/digest-line-scope.js:12-19 | the alphabets of image, tag and digest, written out, and the digest's sixty-four characters |
| `DigestScope.IdentityFormIff` | scripts/digest-line-scope.js:12-37 | the machine identity is well formed exactly when it is a slug of letters, digits and hyphens, no hyphen first, and [bot] |
| `DigestScope.OnlyLineIff` | scripts/digest-line-scope.js:58-64 | the file list passes exactly when its one line that is not empty is the modified Dockerfile's |
| `DigestScope.ContentHeaderPasses` | scripts/digest-line-scope.js:68-78 | the headers of a change of contents alone are no objection |
| `DigestScope.OtherHeadersRefused` | scripts/digest-line-scope.js:68-78 | mode changes, new, deleted, renamed, copied and binary files are |
| `DigestScope.InScopeIff` | scripts/digest-line-scope.js:59-97 | exactly the one-hunk patches replacing one FROM line by one of the same image are in scope |
| `DigestScope.OnlyTheFromLineChanged` | scripts/digest-line-scope.js:66-97 | for any two files and any zero-context diff between them, an accepted one means one replaced line, FROM before and after, same image |
| `DigestScope.Evaluate` | scripts/digest-line-scope.js:25-100 | when the check applies, and that it then accepts exactly what is in scope |
| `DigestScope.Judge` | scripts/digest-line-scope.js:58-97 | problems are reported exactly when the change is out of scope |
| `ImageLoad.Docker.WriteAll` | demo-host/provision/branchleft_slot.py:581-584 | all bytes in order through short writes, or a prefix of them when the pipe breaks |
| `ImageLoad.WriteCheckedBytes` | demo-host/provision/branchleft_slot.py:553-578 | whatever the file does meanwhile, only bytes read at their own offset are sent; all of them are sent exactly when no read falls short and no write breaks, and a file that ends early kills docker first |
| `ImageLoad.Stream` | demo-host/provision/branchleft_slot.py:519-604 | a running docker sees the end of input only after all expected bytes; loaded means exit 0 after all of them |
| `GrantPattern.GrantEscapesEachChar` | db/provision/provision_tenant_db.py:74-84 | the three chained replacements escape each character once |
| `GrantPattern.GrantMatchesOnlyItself` | db/provision/provision_tenant_db.py:74-84 | under MySQL's wildcards the pattern matches that database name and no other |
| `GrantPattern.ValidTenantIff` | db/provision/naming.py:42-55 | a tenant's name: at most 26 small letters, digits and hyphens, the first a letter, the last no hyphen |
| `GrantPattern.DatabaseNameFits` | db/provision/naming.py:42-64 | the name fits the account limit and determines the tenant |
| `GrantPattern.TenantsApart` | db/provision/naming.py:42-64 | one tenant's grant matches another's database exactly when they are the same tenant |
| `GrantPattern.UnescapedReachesOthers` | db/provision/provision_tenant_db.py:77-79 | an unescaped underscore reaches every name that differs only there |
| `Heartbeat.DeadMansSwitch.OnCycleComplete` | deadmans-switch/src/heartbeat.ts:60-78 | the new set and the outcome of one call |
| `Heartbeat.DecisionIff` | deadmans-switch/src/heartbeat.ts:61-73 | over any calls, a ping is decided exactly when someone is expected and every expected target has reported since the last decision |
| `Heartbeat.SilenceAllowsOnePing` | deadmans-switch/src/heartbeat.ts:61-73 | a target that stays expected and silent allows at most one more decision |
| `Heartbeat.SilentFromADecisionNeverPings` | deadmans-switch/src/heartbeat.ts:61-73 | and none when the silence began at a decision |

## Left out

- Row events, statements and SQL semantics: a table is the sequence of changes it has taken, which decides its contents under any meaning of a change.
- DDL inside the lock window that creates tables, and tables outside the lock: only the locked tables are compared.
- Wall-clock bounds on waiting and holding, and thread scheduling: a deadline is an answer that did not come in time.
- The JSON reading of `performance_schema.log_status` and `SHOW MASTER STATUS` fields: a parameter of `SnapshotRun`.
- Scoping a replay to one tenant inside mysqlbinlog, event counting and coverage horizons of an extract.
- `coverage_report`: derived from a fresh listing; it may say "gap" after a correct prune when the anchor is older than retention.
- Object storage, SigV4, age, systemd, Docker and HTTP calls; a listing is taken to be complete.
- MySQL commits whose outcome the client cannot learn: a transaction either takes effect as a whole or not at all.
- LinkStore.ReverseInvertsApply: key columns hold no old link, so rewriting never moves a row's address.
- LinkRewrite.RewriteClearsIff: addresses that themselves hold a backslash are not covered.
- `find_links`, which only feeds the report of what was changed.
- Unicode digits and white space beyond blank and the five ASCII control characters, in every recogniser; a line ends at a line feed, and a pattern's `$` is the end of the text, not also before a final line break.
- Python's limit of 4300 digits in `int`; a session's connection id is taken to be plain digits.
- NaN and infinite limits of the gate: limits are integers of milliseconds.
- ShipBinlogs.Shipper.RunShip: the marker is the decoded one; its file's text is covered by the round trip beside it.
- File ownership, modes, symbolic links, the directory lock and passwd parsing of the uid register; the two programs run one after the other, since only one of them takes the lock.
- A short `os.write` without a crash, whose count both uid programs ignore: a tenant run then leaves the register a crash at the write leaves; a demo run renames the cut text into place, which is not part of this model.
- BucketPolicy.NobodySilentIff: the policy's names are taken to be no patterns, but for a Principal's bare star; of one principal, `UnmentionedRefusedIff` speaks without that.
- BucketPolicy.Decide: a bare string for a Principal and an absent Action or Effect, on which the engine's model raises, are read as the check reads them.
- UidRegister.Host.ProvisionTenant: the ownership steps after the claim, which change neither claims nor volume names.
- The image guard's patterns, shell lexing, `_protect_substitutions` and file reading: the patterns are one scanning function, over which the expansion theorems are quantified.
- Metrics, logging, argument parsing, lifecycle documents, probes, fakes and self-tests: single steps with no state or branching to prove anything about.
