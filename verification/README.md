# Verification of the migration, exclusion and answering core

This project models five parts of the backend and proves what they promise. Run
`dafny verify dfyconfig.toml` to check it.

**Exclusive results** (`Exclusion*.dfy`). An article has a curation or a noise, a curation an analyzed or
an out-of-scope article. The triggers of revision z33 and the ones before it are a step system of
any number of READ COMMITTED transactions: rows, uncommitted work, savepoints, row locks in three
modes, statement visibility, unique and foreign key checks, inserts that skip a taken key.
`ExclusionStore` is the same system as mutable state, one method per statement; `ExclusionLaws` says
what each statement does to what its transaction sees, `ExclusionLedger` is the database as clients
think of it, and `ExclusionWriters` is the way results are written. From any quiet
database with sound tables the locking protocol keeps the tables exclusive and every run is
serializable, provided a parent row is there to be locked; `ExclusionParents` shows that two client
rules guarantee this (children only for visible parents, keys never reused), `ExclusionRaces` that
the lock-free triggers fail and that neither rule can be dropped.

**Migrations** (`Migration*.dfy`, `RunnerSessions.dfy`, `RunnerGate.dfy`, `PyAst.dfy`, `SqlText.dfy`,
`GateGrammar.dfy`, `SchemaModel.dfy`, `SchemaUse.dfy`, `GateMeaning.dfy`). The runner is proved against
collaborators that may return or raise anything, on a connection with a transaction state and a counting session lock; many sessions
are interleaved call by call. The gate works on arbitrary syntax trees; the calls it accepts are
written down as forms, each of its reasons is shown to be true, and its answer "expand" is given a
meaning: what the accepted operations do to tables, rows and old clients. `RunnerGate` puts
the two together: what a run that reports "applied" has done.

**Unique keys rewritten in place** (`KeyTable.dfy`, `WebUrlMigration.dfy`, `Url*.dfy`). Revision z32 for an
arbitrary rule, revision s2 with its concrete URL rule at character level; `UrlMeaning` says what the
rule makes of a URL without mentioning how it is computed.

**JSON arrays** (`JsonArrays.dfy`, `KeyPointMigration.dfy`, `ArticleIdRemap.dfy`). The rewrites of z15, x6
and w4, and exactly when their downgrades restore the data.

**Answers** (`Citation*.dfy`, `Visible*.dfy`, `AsyncTasks.dfy`, `GatherCancel.dfy`, `AnswerRun.dfy`). Citation markers as a
regular expression, as a linear scan and as an incremental filter; child tasks under every
schedule of ends, cancellations, timers and resumptions.

Properties that turned out not to hold without a condition:

- A child of an uncommitted parent escapes the lock (`LateParentRace`), and so does a child of a parent
  whose key is used again (`ReusedKeyRace`); the client rules exclude both.
- The gate accepts `server_default=sa.text("NULL")` on a NOT NULL column (`NullDefaultSlipsThrough`); the
  exact condition is `AcceptedAddColumnExactly`.
- s2 canonicalization is not idempotent on paths such as `/a;/`, although its `downgrade` comment
  calls it so, and its loop can then stop half-way (`LoopCanConflict`); the exact condition is `IdempotentIff`.
- The lock count on exit is not always the one on entry, and an unlock can meet an aborted
  transaction; the exact conditions are `GivesLockBack` and `LosesUnlock`, which `ExecuteMigration`
  states as equivalences. A commit that fails after the last unlock does no harm; a rollback that
  succeeds is enough against a lost unlock (`RollbackIsEnough`).
- An outside cancellation can replace the original exception of a gather, before the waiting coroutine
  is resumed with it or while it joins children that are still running, and a failing child can replace
  a cancellation (`RaisesTheOriginal`).
- A failed organizer costs the answer if it ends in `CancelledError` by itself (`OrganizerNeverCostsTheAnswer`).

## Model

| member | source | states |
|---|---|---|
| `ExclusionSafety.StepKeeps` | backend/alembic/versions/z33_lock_exclusion_parents.py:32-113 | Every statement of every transaction, savepoints and rollbacks to them included, keeps the invariant that ties uncommitted rows to the locks on their parents, unless it writes a row whose parent was not there to be locked. |
| `ExclusionSafety.CommitKeepsOther` | backend/alembic/versions/z33_lock_exclusion_parents.py:37-51 | A commit changes nothing another open transaction depends on: its statements, and those up to each of its savepoints, still all succeed against the new committed rows and give its view. |
| `ExclusionSafety.RunIsSound` | backend/alembic/versions/z33_lock_exclusion_parents.py:32-113 | From any quiet database with sound tables: in every state reached by interleaved READ COMMITTED transactions no parent has rows in both tables of a pair, and unique and foreign keys hold. Transactions may go on after a trigger raised in a savepoint or an insert skipped a taken key. |
| `ExclusionSafety.OneResultPerArticle` | backend/alembic/versions/z33_lock_exclusion_parents.py:34-112 | Both levels together: an article has at most one committed row among noise, analyzed and out-of-scope. |
| `ExclusionLedger.RunIsSerializable` | backend/alembic/versions/z33_lock_exclusion_parents.py:3-7 | The committed rows of any run are those of its committed transactions executed one at a time, with no locks, in commit order. What each transaction did, without what it rolled back, is read off the events of the run alone. |
| `ExclusionLedger.RunIsAsNoted` | backend/alembic/versions/z33_lock_exclusion_parents.py:3-7 | After any run the committed rows, and what every open transaction sees, are those of a database without locks, triggers and waiting in which the statements are simply carried out as they were sent. |
| `ExclusionSafety.FirstLockerEndsFirst` | backend/alembic/versions/z33_lock_exclusion_parents.py:37-39 | On one parent a second transaction gets the lock only after the first holder has committed, aborted or rolled back to a savepoint. |
| `ExclusionSafety.RowKeepsOthersOut` | backend/alembic/versions/z33_lock_exclusion_parents.py:37-39 | While a transaction has an uncommitted row under a parent, nobody else has that parent's lock, so commit order there is lock order. |
| `ExclusionSafety.RollbackUndoes` | backend/app/analysis/curation/repository.py:115-128 | An insert in a savepoint that is rolled back leaves no trace: the transaction's work and locks are those at the savepoint, whatever the other transactions did meanwhile. |
| `ExclusionParents.WellBehavedIsAnchored` | backend/alembic/versions/z33_lock_exclusion_parents.py:37-39 | If clients write children only for parents they see and keys are never used twice, no row is ever written under a parent the lock statement missed. |
| `ExclusionParents.WellBehavedRunsAreSound` | backend/alembic/versions/z33_lock_exclusion_parents.py:32-113 | The exclusion in the clients' terms: from any quiet database with sound tables, under those two rules every reachable state is sound and the run is serializable, for any number of transactions. |
| `ExclusionSerial.SerialTxSound` | backend/alembic/versions/z33_lock_exclusion_parents.py:40-48 | The one-at-a-time reference keeps exclusion, unique keys and foreign keys once the cascade has run. |
| `ExclusionRaces.LockFreeRace` | backend/alembic/versions/z33_lock_exclusion_parents.py:116-185 | With the functions kept for the downgrade, from every quiet state an interleaving of two inserts commits a row in both tables of the pair. |
| `ExclusionRaces.LateParentRace` | backend/alembic/versions/z33_lock_exclusion_parents.py:37-48 | The lock does not help a child of a parent, article or curation, that is not committed yet: from every quiet state a run that uses no key twice commits both rows. So the parent-first rule is needed. |
| `ExclusionRaces.ReusedKeyRace` | backend/alembic/versions/z33_lock_exclusion_parents.py:37-48 | Nor when a parent's key comes back after the parent was deleted: from every quiet state a run in which every write names a parent it sees commits both rows. So the key rule is needed. |
| `ExclusionLaws.WriteLaw` | backend/alembic/versions/z33_lock_exclusion_parents.py:49-52 | A row for which there is room is seen by its transaction from now on, inside a savepoint or not; otherwise nothing changes and the statement has failed. |
| `ExclusionLaws.DeleteLaw` | backend/app/models/article_curation.py:55 | A delete takes exactly the row out of what the transaction sees. |
| `ExclusionLaws.TriggerLaw` | backend/alembic/versions/z33_lock_exclusion_parents.py:37-51 | The trigger locks the parent exactly if it sees it and raises exactly if it sees a row of the other table under the same parent. |
| `ExclusionLaws.BeginAndEndLaw` | backend/alembic/versions/z33_lock_exclusion_parents.py:3-7 | A transaction begins by seeing what is committed and ends with exactly what it saw being committed, or with nothing; its locks are gone. |
| `ExclusionWriters.ResultIsSaved` | backend/app/analysis/curation/repository.py:115-119 | An insert in a savepoint of its own gives the transaction the row if there is no row in either table of the pair, whatever it has done before. |
| `ExclusionWriters.ResultIsRefused` | backend/app/analysis/curation/repository.py:120-126 | If the other table has a row, the trigger raises, and after going back to the savepoint the transaction is exactly as it was, locks included. |
| `ExclusionWriters.ResultIsSkipped` | backend/app/analysis/curation/repository.py:90-92 | If the same table has a row, the statement ends without one and the transaction has only locked the parent. |
| `ExclusionStore.Store.LockParentRow` | backend/alembic/versions/z33_lock_exclusion_parents.py:37-39 | The lock statement waits exactly while another transaction holds a conflicting lock on a parent row it can see, and otherwise takes one protocol step. |
| `ExclusionStore.Store.CheckOppositeRow` | backend/alembic/versions/z33_lock_exclusion_parents.py:40-48 | It raises exactly if a visible row of the opposite table has the same parent. |
| `ExclusionStore.Store.PutRow` | backend/alembic/versions/x3_analyzable_article_fks.py:106-112 | When a write has to wait: an uncommitted claim on its unique key, or a conflicting lock on the visible parent. Otherwise the transaction sees the row from now on exactly if there was room for it; with ON CONFLICT DO NOTHING a taken key ends the statement without a row and without the foreign key check. |
| `ExclusionStore.Store.StartWrite` | backend/alembic/versions/x5_analyzed_articles.py:216-223 | INSERT and UPDATE both start the trigger; an UPDATE first locks its row or waits for it. |
| `ExclusionStore.Store.RemoveRow` | backend/app/models/article_curation.py:55 | A delete of a visible row waits for conflicting locks on it, then takes exactly that row out of what the transaction sees; without a visible row it does nothing. |
| `ExclusionStore.Store.RollbackToSavepoint` | backend/app/analysis/curation/repository.py:117-119 | Leaving a savepoint with an error, also after a failed statement: work and locks go back, the transaction can go on, and the invariant holds. |
| `ExclusionStore.Store.CommitTx` | backend/alembic/versions/z33_lock_exclusion_parents.py:32-113 | After a commit the committed rows are exactly what the transaction saw, and they are sound. |
| `MigrationRunner.ExecuteMigration` | backend/scripts/migration_runner.py:100-204 | For all behaviours of the collaborators: one upgrade exactly when the lock was entered and every check passed; a result that says what happened (kind, reason, exit code and revisions as in Reports), unless an interrupt escapes; the lock count comes out as it went in exactly if GivesLockBack, and an unlock is lost to an aborted transaction exactly if LosesUnlock. |
| `MigrationRunner.SuccessMeans` | backend/scripts/migration_runner.py:131-178 | Each success is reported exactly when it happened, with the revisions it stands for. |
| `MigrationRunner.ReasonMeans` | backend/scripts/migration_runner.py:118-178 | When nothing is raised, the first check that fails gives the reason, in the order and with the names of the source. |
| `MigrationRunner.InvalidMeans` | backend/scripts/migration_runner.py:184-204 | Exit code 2 is never given once the upgrade was started, and stands for one of six reasons. |
| `MigrationRunner.MayUpgradeMeans` | backend/scripts/migration_runner.py:114-152 | The upgrade is due exactly if database and tree have one head each, the tree's is the target, the database's is an expected one, and something is pending of the kind the mode stands for. |
| `MigrationRunner.SingleRevisionMeans` | backend/app/db/migration/request.py:14-21 | A list of heads is accepted exactly if it is one concrete revision id. |
| `MigrationRunner.UnderLock` | backend/scripts/migration_runner.py:112-182 | The block under the lock: what ran, which exception leaves it, which acquisitions are left over, and that the transaction is left aborted exactly after an interrupt or a rollback that failed. |
| `MigrationRunner.RollbackIsEnough` | backend/scripts/migration_runner.py:179-182 | If the rollback after an error succeeds, failed scripts are rolled back and nothing outside Exception is raised, no unlock meets an aborted transaction, whatever else fails. |
| `MigrationRunner.ConflictIsRefusal` | backend/scripts/migration_runner.py:184-190 | Unless a collaborator raises the exception itself, a reported conflict means that the server refused the lock to a session that did not hold it. |
| `MigrationRunner.OneErrorComesOut` | backend/scripts/migration_runner.py:111-204 | In a run in which all else goes well a single error comes out unchanged, whichever collaborator raises it. |
| `MigrationRunner.LaterErrorComesOut` | backend/app/migration_lock.py:30-38 | Of two errors the later one comes out: a rollback, an unlock or a commit that fails hides the error of the scripts. |
| `MigrationRunner.Prepare` | backend/scripts/migration_runner.py:113-152 | The checks before the upgrade let it through exactly when heads, start, range and mode all match; every early return has the reason of the check that failed, and the fields read so far. |
| `MigrationRunner.UpgradeAndCheck` | backend/scripts/migration_runner.py:153-178 | It reports applied exactly if the upgrade did not raise and both heads are the target afterwards. |
| `MigrationRunner.Handle` | backend/scripts/migration_runner.py:184-204 | Every handled exception gives the kind, reason and exit code that the source gives it, before or after the upgrade was reached, and keeps the other fields. |
| `MigrationRunner.CheckRevisions` | backend/scripts/migration_runner.py:124-125 | Accepts a pending list exactly if every id is a concrete revision id. |
| `MigrationSession.NestedNeverConflicts` | backend/alembic/env.py:67-70 | Unless a part of the upgrade raises that exception itself, an upgrade ends in a lock conflict exactly if its session did not hold the lock and another one does. |
| `MigrationSession.Session.Enter` | backend/app/migration_lock.py:20-29 | The lock count goes up exactly if the server grants it, which it does for a session that already holds it. |
| `MigrationSession.Session.Exit` | backend/app/migration_lock.py:30-38 | Unlock goes through exactly on a usable transaction; on an aborted one it is lost. |
| `MigrationSession.Session.Upgrade` | backend/scripts/migration_runner.py:246-250 | The nested acquire and release leave the count as it was exactly if UpgradeKeeps, lose the unlock exactly if the scripts fail without a rollback, and leave the transaction aborted exactly as stated. |
| `RunnerSessions.StepKeeps` | backend/app/migration_lock.py:20-38 | Every call of every session keeps: the owner of the lock is the one session inside the protocol, held as often as its phase says. |
| `RunnerSessions.RevisionChangesUnderLock` | backend/app/migration_lock.py:20-38 | Over any interleaving of runners, plain Alembic runs and crashes, the revision changes only in a step of the lock's owner, and at most one session is inside. |
| `RunnerSessions.AppliedMeansMoved` | backend/scripts/migration_runner.py:112-178 | A runner that reports applied made exactly one change, from the revision both of its reads saw to its target. |
| `RunnerSessions.ReadsAgree` | backend/scripts/migration_runner.py:219-244 | The head reads of execute_migration and load_pending see the same revision, and it is still the current one when the upgrade starts. |
| `RunnerSessions.NestedIsGranted` | backend/alembic/env.py:67-70 | Over any interleaving the second acquisition on the runner's connection is granted, and until the outer release everybody else who tries is refused. |
| `RunnerSessions.GetsInIffNobodyInside` | backend/app/migration_lock.py:22-27 | A session that has not started gets in exactly when nobody is inside, and is refused at once exactly when somebody is. |
| `RunnerSessions.CrashFreesTheLock` | backend/app/migration_lock.py:20-38 | A session that dies inside lets the next one in. |
| `RunnerSessions.UndisturbedRunnerApplies` | backend/scripts/migration_runner.py:112-178 | A runner that nobody disturbs and whose start is the expected one gets through: one change, the lock free again, applied exactly if the scripts led to the target. |
| `RunnerSessions.WrongStartStops` | backend/scripts/migration_runner.py:120-121 | An expected start that is not the current revision keeps the runner from listing the range, and nothing else does. |
| `RunnerSessions.ChangesChain` | backend/scripts/migration_runner.py:153-178 | The changes of all sessions lead from the first revision to the last without a gap. |
| `PyAst.Walk` | backend/scripts/migration_gate.py:254 | The walk terminates and visits every node of an arbitrary tree, each occurrence once, level by level. |
| `MigrationGate.ScanUpgradeBody` | backend/scripts/migration_gate.py:251-258 | The reasons are exactly those of the calls at any depth, each at its first use in the order of the walk; none exactly if every call is allowlisted. |
| `MigrationGate.Classify` | backend/scripts/migration_gate.py:125-192 | A file is expand exactly if it declares so and every call in upgrade() is allowlisted; mislabelled exactly if it declares so and some call is not; everything unreadable is unknown; the reasons and their order are determined too. |
| `MigrationGate.Distinct` | backend/scripts/migration_gate.py:258 | Every reason once, ordered by its first use. |
| `MigrationGate.ReadQualifiedName` | backend/scripts/migration_gate.py:304-313 | The loop over attribute parts gives the dotted name, or nothing when the root is not a name. |
| `MigrationGate.DeclarationGivesReason` | backend/scripts/migration_gate.py:216-234 | The declared kind is usable exactly when no declaration reason is reported. |
| `MigrationGate.PendingGate` | backend/scripts/migration_gate.py:571-583 | It passes exactly when the decision over the whole range is none or expand. |
| `MigrationGate.PassesIffAllAutoAllowed` | backend/scripts/migration_gate.py:195-213 | The set decision is none or expand exactly when each file alone is auto-allowed. |
| `MigrationGate.DecideIsSetDecision` | backend/scripts/migration_gate.py:195-213 | The decision depends on the set of files only, not on their order or on how often one is listed. |
| `MigrationGate.ManualIffAllContract` | backend/scripts/migration_gate.py:199-212 | The decision is manual exactly for a non-empty range of contract files none of which is mislabelled. |
| `MigrationGate.MixedIsInvalid` | backend/scripts/migration_gate.py:207-208 | An expand and a contract file in one range are always invalid. |
| `SqlText.SingleStatement` | backend/scripts/migration_gate.py:35 | The single-statement test passes exactly the texts in which only white space follows a semicolon. |
| `SqlText.DropSpacesMeaning` | backend/scripts/migration_gate.py:34 | It drops leading white space only, and all of it. |
| `SqlText.AllowlistedMeans` | backend/scripts/migration_gate.py:34-35 | Accepted SQL is exactly white space, SET or COMMENT in any case as a word, and nothing but white space after a semicolon. |
| `GateGrammar.AcceptedExactly` | backend/scripts/migration_gate.py:261-450 | A call carries no reason exactly if it has one of the forms written down: create_table, nullable=True, a concurrent plain index, a plain column, SET or COMMENT, or a listed constructor. |
| `GateGrammar.AutoAllowedExactly` | backend/scripts/migration_gate.py:125-192 | A file is auto-allowed exactly if it declares expand, has an upgrade(), and every call in it, at any depth, has one of the forms. |
| `GateGrammar.AutoAllowedCalls` | backend/scripts/migration_gate.py:261-272 | In an auto-allowed file every call is one of five operations or builds a listed part of a definition; nothing is executed on a connection. |
| `GateGrammar.HelperIsRefused` | backend/scripts/migration_gate.py:270-272 | A helper call anywhere makes an expand file mislabelled. |
| `GateGrammar.ReasonsAreTrue` | backend/scripts/migration_gate.py:261-437 | Every reason that is reported is true of its call, and a call carries at most one. |
| `GateGrammar.FirstDeclarationDecides` | backend/scripts/migration_gate.py:216-234 | The first module-level declaration decides; a literal text is the declared kind and anything else is a reason. |
| `GateGrammar.NullableColumnIsAccepted` | backend/scripts/migration_gate.py:386-422 | The plain ways to add a nullable column are accepted. |
| `GateGrammar.ConcurrentIndexIsAccepted` | backend/scripts/migration_gate.py:351-383 | So is a plain concurrent index. |
| `GateGrammar.ConstructorsAreAccepted` | backend/scripts/migration_gate.py:297-301 | So are the constructors used in create_table and add_column. |
| `GateMeaning.ExpandKeepsOldClients` | backend/scripts/migration_gate.py:275-450 | Any list of calls, of whatever kind, taken from the expand revisions of a range, in any order and number, keeps every table, column, value and valid row, and every insert the old schema accepted is accepted afterwards. |
| `RunnerGate.RunOnConnection` | backend/scripts/migration_runner.py:207-254 | Runner and gate together: the one upgrade is started exactly for a range that fits the mode, and an expand run that reports applied has left every old client as it was. |
| `RunnerGate.FitsIffMayUpgrade` | backend/scripts/migration_runner.py:124-152 | The mode matches the range exactly if all its files are auto-allowed (expand) or all are contract files (contract), it is not empty and all ids are concrete. |
| `GateMeaning.AcceptedIsHarmless` | backend/scripts/migration_gate.py:275-294 | Every accepted call, operation or not, means a harmless schema operation, although a helper may do anything. |
| `GateMeaning.AcceptedAddColumnExactly` | backend/scripts/migration_gate.py:386-422 | For an accepted add_column the promise holds exactly when the column is nullable or its default is not NULL. |
| `GateMeaning.NullDefaultSlipsThrough` | backend/scripts/migration_gate.py:425-437 | A NOT NULL column with server default text NULL is accepted and breaks every insert into its table. |
| `SchemaModel.HarmlessRunExtends` | backend/alembic/versions/r5_drop_trends_gen_default.py:8-9 | Any run of harmless operations extends the database. |
| `SchemaModel.ExtensionAcceptsOldInserts` | backend/alembic/versions/r5_drop_trends_gen_default.py:8-9 | An extended database accepts every insert the old one accepted: checks, unique keys and references included. |
| `SchemaModel.AddColumnExactly` | backend/scripts/migration_gate.py:411-421 | An added column keeps old inserts working exactly if it can be filled in for them. |
| `SchemaUse.NullableColumnIsUsable` | backend/scripts/migration_gate.py:386-422 | A nullable add_column, which the gate accepts, is carried out wherever the table lacks the column; old inserts go on working, and an insert with a value for the column works exactly if the value has its type or is NULL. |
| `SchemaUse.ColumnIsUsable` | backend/scripts/migration_gate.py:411-421 | For any added column: an insert the old schema accepted, extended with a value, is accepted exactly if the value fits the column. |
| `SchemaUse.AddColumnRuns` | backend/scripts/migration_gate.py:411-421 | The server adds a column exactly if it is new, its default has its type, and every row fits the table afterwards. |
| `SchemaUse.InsertRefused` | backend/app/models/article_curation.py:39-62 | What an accepted insert cannot be: a NULL where none is admitted, a repeated unique value, a dangling reference, a value that a CHECK rejects. |
| `KeyTable.NormalizeKeys` | backend/alembic/versions/z32_normalize_web_urls.py:138-169 | It refuses exactly when a value cannot be normalized or two changing rows share a form, before the first write; otherwise the table ends as specified, unique throughout. |
| `KeyTable.FindChanges` | backend/alembic/versions/z32_normalize_web_urls.py:108-120 | It fails exactly if some value cannot be normalized and otherwise finds exactly the rows whose value changes, with their new values. |
| `KeyTable.RejectCollisions` | backend/alembic/versions/z32_normalize_web_urls.py:123-129 | It refuses exactly if two changing rows get the same new value. |
| `KeyTable.RewriteChanged` | backend/alembic/versions/z32_normalize_web_urls.py:153-156 | No single UPDATE meets a taken key; afterwards exactly the changing rows whose form was free carry it. |
| `KeyTable.DeleteSuperseded` | backend/alembic/versions/z32_normalize_web_urls.py:157-163 | In the deleting variant exactly the superseded rows go. |
| `KeyTable.Table.Update` | backend/alembic/versions/z32_normalize_web_urls.py:132-135 | The unique index refuses exactly a key another row holds. |
| `WebUrlMigration.Database.Upgrade` | backend/alembic/versions/z32_normalize_web_urls.py:172-212 | The whole upgrade: it goes through exactly when both tables, the endpoints and the site addresses pass; then all are normalized, else nothing has changed. |
| `WebUrlMigration.Database.NormalizeSources` | backend/alembic/versions/z32_normalize_web_urls.py:197-212 | The part about news sources: refused exactly if an endpoint would change or a value cannot be normalized. |
| `WebUrlMigration.UpgradeTwice` | backend/alembic/versions/z32_normalize_web_urls.py:172-212 | For idempotent rules a second upgrade goes through and changes nothing. |
| `KeyTable.HolderStays` | backend/alembic/versions/z32_normalize_web_urls.py:146-156 | The row that already holds a normalized key is itself neither rewritten nor deleted. |
| `KeyTable.KeySetKept` | backend/alembic/versions/z32_normalize_web_urls.py:7-10 | The set of normalized keys is the same before and after. |
| `KeyTable.AfterwardsCanonical` | backend/alembic/versions/z32_normalize_web_urls.py:7-10 | Afterwards every key is a fixed point of the rule, or, only when rows are kept, its canonical form is present. |
| `KeyTable.SecondRunIsIdle` | backend/alembic/versions/z32_normalize_web_urls.py:138-169 | A second run does not refuse and writes nothing, in either variant. |
| `KeyTable.OneRowNeedsIdempotence` | backend/alembic/versions/z32_normalize_web_urls.py:3-5 | Already on one row the result is canonical exactly if the rule leaves its own result alone. |
| `KeyTable.FindDuplicates` | backend/alembic/versions/s2_articles_canonicalize_backfill.py:106-113 | It reports duplicates exactly if two rows canonicalize to the same URL. |
| `KeyTable.CanonicalizeAll` | backend/alembic/versions/s2_articles_canonicalize_backfill.py:99-131 | The loop stops at the unique index exactly if some row is rewritten to a key that a later row still holds. |
| `KeyTable.IdempotentNeverConflicts` | backend/alembic/versions/s2_articles_canonicalize_backfill.py:124-131 | Where the rule is idempotent on the stored values, such a stop would have been a duplicate beforehand. |
| `UrlQuery.QuoteRoundTrip` | backend/alembic/versions/s2_articles_canonicalize_backfill.py:88-90 | Form-decoding an encoded name or value gives it back, whatever characters it has. |
| `UrlQuery.QueryRoundTrip` | backend/alembic/versions/s2_articles_canonicalize_backfill.py:88-90 | Decoding an encoded pair list gives the list back. |
| `UrlQuery.CanonQueryMeans` | backend/alembic/versions/s2_articles_canonicalize_backfill.py:88-90 | The canonical query parses to what is left of the original's pairs and is its own canonical form. |
| `UrlQuery.DropTrackingTwice` | backend/alembic/versions/s2_articles_canonicalize_backfill.py:89 | Dropping a second time changes nothing, and every pair is kept or dropped by its name alone. |
| `UrlMeaning.ParameterStays` | backend/alembic/versions/s2_articles_canonicalize_backfill.py:54-73 | Wherever a parameter stands it goes if its lower-cased name is one of the fifteen names, and otherwise stays, with its value and in its place. |
| `UrlMeaning.ReadingQuery` | backend/alembic/versions/s2_articles_canonicalize_backfill.py:88 | Parameters are separated by &, name and value by the first =; empty ones do not count and a missing value is empty. |
| `UrlMeaning.Quoting` | backend/alembic/versions/s2_articles_canonicalize_backfill.py:90 | Quoting leaves letters, digits and four signs alone, makes a space a plus, and escapes the UTF-8 bytes of everything else in capitals. |
| `UrlMeaning.Unquoting` | backend/alembic/versions/s2_articles_canonicalize_backfill.py:88 | A complete escape is one byte; a percent sign that is none stands for itself. |
| `UrlMeaning.EncodingIsUtf8` | backend/alembic/versions/s2_articles_canonicalize_backfill.py:88-90 | Characters are encoded as UTF-8, in no more bytes than needed. |
| `UrlPath.PathIdempotentIff` | backend/alembic/versions/s2_articles_canonicalize_backfill.py:92-96 | Canonicalizing a path twice equals once exactly when stripping slashes uncovers no parameter separator in the two ways described. |
| `UrlPath.StripFacts` | backend/alembic/versions/s2_articles_canonicalize_backfill.py:92-94 | Slash stripping is stable and leaves exactly the paths without a trailing slash alone. |
| `UrlMeaning.TrailingSlashesGo` | backend/alembic/versions/s2_articles_canonicalize_backfill.py:92-94 | All trailing slashes go, unless nothing else is there: then one stays. |
| `UrlMeaning.PathIs` | backend/alembic/versions/s2_articles_canonicalize_backfill.py:92-96 | Parameters start at the first ; of the last segment and are kept as they are. |
| `UrlCanonical.ParseUnparse` | backend/alembic/versions/s2_articles_canonicalize_backfill.py:85-96 | Well-formed parts are read back from the text they make. |
| `UrlMeaning.ReadingUrl` | backend/alembic/versions/s2_articles_canonicalize_backfill.py:85 | The parts are read off the text, and the fragment is not among them. |
| `UrlMeaning.CanonicalText` | backend/alembic/versions/s2_articles_canonicalize_backfill.py:76-96 | From text to text: the scheme stays, the host is lower-cased, the path loses its trailing slashes, the query is what is left of the parameters, and the fragment goes. |
| `UrlMeaning.CanonicalParameters` | backend/alembic/versions/s2_articles_canonicalize_backfill.py:88-90 | The parameters of the canonical URL are exactly those of the URL that are not tracking parameters, with their values and in their order. |
| `UrlCanonical.IdempotentIff` | backend/alembic/versions/s2_articles_canonicalize_backfill.py:76-96 | On every URL of the column canonicalization is idempotent exactly when its path is not unstable. |
| `UrlCanonical.NoSemicolonIsStable` | backend/alembic/versions/s2_articles_canonicalize_backfill.py:76-96 | In particular on every URL whose path has no semicolon. |
| `UrlCanonical.LoopNeverConflicts` | backend/alembic/versions/s2_articles_canonicalize_backfill.py:99-131 | Without unstable paths the loop never meets the unique index part-way, in any row order. |
| `UrlCanonical.LoopCanConflict` | backend/alembic/versions/s2_articles_canonicalize_backfill.py:124-131 | Two URLs that pass the duplicate check and still stop the loop half-way. |
| `JsonArrays.FormsAgree` | backend/alembic/versions/z15_assessment_key_points.py:82-111 | The z15 and x6 formulas are one function on every column; length and order stay, only objects with the key change, and only by moving that field. |
| `JsonArrays.RenameTwice` | backend/alembic/versions/x6_analyzed_article_ids.py:28-50 | Running the statement again changes nothing. |
| `JsonArrays.RenameUndoneIff` | backend/alembic/versions/x6_analyzed_article_ids.py:28-50 | The reverse rename restores the column exactly when no object element carried the target key. |
| `KeyPointMigration.Database.RenameInnerKey` | backend/alembic/versions/z15_assessment_key_points.py:82-111 | It fails exactly where the column events is missing; otherwise every array keeps length and order, objects with the key have it moved, and no other value, row, column or table changes. |
| `KeyPointMigration.Database.Upgrade` | backend/alembic/versions/z15_assessment_key_points.py:114-127 | It goes through exactly when both tables still have events and not key_points; then both tables and all codes are converted, else nothing is. |
| `KeyPointMigration.Database.Downgrade` | backend/alembic/versions/z15_assessment_key_points.py:130-141 | The same for the way back. |
| `KeyPointMigration.Database.RewriteOutcomeCodes` | backend/alembic/versions/z15_assessment_key_points.py:125-127 | The UPDATEs one after the other are one simultaneous renaming. |
| `KeyPointMigration.RecodeStep` | backend/alembic/versions/z15_assessment_key_points.py:125-127 | No code written by one UPDATE is rewritten by a later one. |
| `KeyPointMigration.CodesAreSeparate` | backend/alembic/versions/z15_assessment_key_points.py:54-65 | The eight codes of the table are distinct. |
| `KeyPointMigration.UpgradeUndoneIff` | backend/alembic/versions/z15_assessment_key_points.py:114-141 | Downgrade after upgrade is accepted and restores tables and codes exactly when no object carried content and no row a new code. |
| `ArticleIdRemap.Lookup` | backend/alembic/versions/w4_remap_key_article_ids.py:42-51 | The subquery finds exactly the joined id, in both directions. |
| `ArticleIdRemap.LookupBack` | backend/alembic/versions/w4_remap_key_article_ids.py:42-51 | The two subqueries are inverse to each other. |
| `ArticleIdRemap.CastErrorIff` | backend/alembic/versions/w4_remap_key_article_ids.py:42-51 | The cast to an integer fails exactly on what is neither null nor a whole number of four bytes, written as a number or as a text. |
| `ArticleIdRemap.Briefings.UnresolvedIsZeroIff` | backend/alembic/versions/w4_remap_key_article_ids.py:54-63 | The count is zero exactly if every element with the key resolves. |
| `ArticleIdRemap.Briefings.GuardUnresolved` | backend/alembic/versions/w4_remap_key_article_ids.py:94-105 | The guard passes exactly if every element with the key resolves. |
| `ArticleIdRemap.Briefings.Remap` | backend/alembic/versions/w4_remap_key_article_ids.py:66-91 | It fails exactly on a value that is no 32-bit integer; otherwise every array keeps length and order, each object with the key gets the joined id or, where no row matches, a null, and nothing else changes. |
| `ArticleIdRemap.Briefings.Migrate` | backend/alembic/versions/w4_remap_key_article_ids.py:108-130 | Guard and remap together: done exactly if everything resolves, else the table is as it was. |
| `ArticleIdRemap.GuardedRemap` | backend/alembic/versions/w4_remap_key_article_ids.py:66-91 | Past the guard length and order stay, elements without the key stay, and every other one gets a real id and never a null. |
| `ArticleIdRemap.SecondRunIsIdle` | backend/alembic/versions/w4_remap_key_article_ids.py:15-16 | A second run passes the guard and changes nothing. |
| `ArticleIdRemap.UndoneIff` | backend/alembic/versions/w4_remap_key_article_ids.py:108-130 | The way back completes and restores the table exactly when no object carried the target key and every remapped id was a JSON integer. |
| `CitationMarkers.ScannerIsExpression` | backend/app/agent/citation_markers.py:13 | A deterministic scanner leaves exactly what the regular expression can leave, so there is at most one match length per position. |
| `CitationMarkers.ValidIff` | backend/app/agent/citation_markers.py:13 | References are non-empty runs of the ten digits, and only spaces and tabs stand between a comma and the next reference. |
| `CitationMarkers.FindAllRefs` | backend/app/agent/citation_markers.py:14-23 | The digit runs found in a group are its references in order. |
| `CitationPieces.PiecesAreTheMatches` | backend/app/agent/citation_markers.py:17-30 | One linear scan finds exactly the leftmost, non-overlapping matches. |
| `CitationPieces.OrderedUnique` | backend/app/agent/citation_markers.py:33-41 | The loop computes the first occurrences. |
| `Prelude.DedupIsFirstUses` | backend/app/agent/citation_markers.py:33-41 | Every value once, ordered by where it first occurs. |
| `CitationPieces.ParseCitationRefs` | backend/app/agent/citation_markers.py:17-24 | The references of all matches, deduplicated by first use. |
| `CitationPieces.RebuildsText` | backend/app/agent/citation_markers.py:27-30 | Literals and matches interleaved rebuild the text. |
| `CitationPieces.StripKeepsIff` | backend/app/agent/citation_markers.py:17-30 | Stripping changes nothing exactly when parsing finds nothing. |
| `CitationPieces.RefsAround` | backend/app/agent/citation_markers.py:17-30 | Between any two texts a marker adds its references and disappears, and nothing around it changes. |
| `CitationPieces.GroupedIsSeparate` | backend/app/agent/citation_markers.py:10-13 | In any context the grouped form and separate markers parse and strip alike. |
| `CitationPieces.StripTwiceDiffers` | backend/app/agent/citation_markers.py:27-30 | Stripping is not idempotent: for every marker there is a text around it whose stripped form is a marker again. |
| `VisibleScan.MoveKeeps` | backend/app/agent/answering/visible_text.py:39-108 | One move of the incremental filter releases the next part of the stripped text, whatever follows. |
| `VisibleText.AnswerVisibleTextFilter.Advance` | backend/app/agent/answering/visible_text.py:39-108 | One pass of the loop is one move of the machine. |
| `VisibleText.AnswerVisibleTextFilter.Append` | backend/app/agent/answering/visible_text.py:32-110 | What is shown grows by the returned fragment; a finished filter refuses. |
| `VisibleText.AnswerVisibleTextFilter.AppendCharacter` | backend/app/agent/answering/visible_text.py:125-136 | White space is held back until something visible follows, and dropped at the start. |
| `VisibleText.AnswerVisibleTextFilter.Finish` | backend/app/agent/answering/visible_text.py:112-123 | In the end exactly the stripped text without outer white space has been shown. |
| `VisibleText.AnswerVisibleTextFilter.NothingTakenBack` | backend/app/agent/answering/visible_text.py:32-33 | At any time what has been shown is a prefix of what any continuation will show. |
| `VisibleText.ReadKeeps` | backend/app/agent/answering/visible_text.py:32-110 | Whatever follows, the literals released and the pending candidate carry the stripped text. |
| `VisibleText.ShowDraft` | backend/app/agent/answering/live_draft.py:42-57 | However an answer is cut into fragments, the deltas join to the same stripped answer, and no delta is empty. |
| `GatherCancel.GatherCancelOnError` | backend/app/agent/concurrency.py:11-23 | On every schedule of ends, cancellations and resumptions all children have ended when it exits; values are in argument order. |
| `GatherCancel.CancelUnfinished` | backend/app/agent/concurrency.py:19-21 | Exactly the unfinished children are cancelled. |
| `GatherCancel.ReturnsInOrder` | backend/app/agent/concurrency.py:17 | It returns exactly when no child failed and nobody cancelled it; the i-th value is what the i-th child ended with. |
| `GatherCancel.NothingToGather` | backend/app/agent/concurrency.py:15-17 | Without children it returns at once, whatever happens around it. |
| `GatherCancel.RaisesTheOriginal` | backend/app/agent/concurrency.py:18-23 | It raises the exception of the first child to fail, or CancelledError in exactly the stated cases; when every child had ended there is nothing to join and no later cancellation can replace it. |
| `GatherCancel.UnfinishedAreCancelled` | backend/app/agent/concurrency.py:19-22 | Every child still running when the error surfaced was told to stop, and has ended. |
| `GatherCancel.ComesBack` | backend/app/agent/concurrency.py:17-22 | If every child ends in the end, two resumptions later it is back. |
| `AsyncTasks.AwaitGives` | backend/app/agent/concurrency.py:17-22 | What awaiting a gather gives, in terms of the events alone. |
| `AsyncTasks.AwaitRecords` | backend/app/agent/concurrency.py:15-22 | A task's result is its first end among the events consumed. |
| `AnswerRun.AnswerWhileOrganizing` | backend/app/agent/answering_runner.py:225-277 | On every way out the organizer has ended, and only the answer itself is ever returned; with nothing to organize the answer or its failure is passed on at once. |
| `AnswerRun.CancelAndJoin` | backend/app/agent/answering_runner.py:379-384 | An ended task is left alone; an unfinished one is cancelled and has ended afterwards. |
| `AnswerRun.WaitForOrganizer` | backend/app/agent/answering_runner.py:268-271 | The bounded wait ends only with the organizer. |
| `AnswerRun.LateTaskIsTold` | backend/app/agent/answering_runner.py:268-271 | A task still running when the timer goes off or the waiting coroutine is cancelled is told to stop, and no other task is. |
| `AnswerRun.AnswerSurvives` | backend/app/agent/answering_runner.py:267-277 | Once there is an answer: it is returned alone when there was nothing to organize; otherwise a timely handoff goes with it, a failed, late or timed-out organizer leaves the ledger, and the answer is lost exactly on a cancellation that is not the timer's alone. |
| `AnswerRun.OrganizerNeverCostsTheAnswer` | backend/app/agent/answering_runner.py:238-239 | Without outside cancellation the answer is lost exactly if there is an organizer and it ends in CancelledError of its own accord before the timer. |
| `AnswerRun.FailureComesOut` | backend/app/agent/answering_runner.py:262-265 | A failed answer raises its own exception unless the join is cancelled; a running organizer was told to stop. |
| `AnswerRun.ComesBack` | backend/app/agent/answering_runner.py:252-277 | If the organizer ends in the end, the answer or the failure gets out. |

## Left out

- Deadlocks: a step that has to wait is simply not enabled, and nothing is claimed about progress; a statement that gives up waiting is a rollback to its savepoint or an abort.
- The repositories' translation of database errors into None or an exception is not modelled; the savepoint around the insert is.
- PostgreSQL re-reads a row it waited for; the model lets an UPDATE start only once the row is free, which gives the same visible row.
- The GRANT statements of z33 and the role check are not modelled.
- ExclusionStore.Store.PutRow: promises the invariant only when the lock statement found a parent row, because without one the exclusion does fail (LateParentRace).
- Alembic's revision graph, the database driver and process start-up of the runner: the collaborators return or raise anything instead.
- Undoing an upgrade that already committed when the check afterwards fails: the runner only reports it, and so does the model.
- The request's rule that expand and contract need an expected start revision is checked before execute_migration and is not assumed there.
- The command line, the JSON files and the path checks of the gate are not modelled, nor is the text of the operating system's or the parser's own error in a reason.
- GateMeaning.ExpandKeepsOldClients: assumes that names are not rebound, that SET and COMMENT leave tables alone, that created tables are well formed and that SQL text defaults are not NULL.
- Non-ASCII word characters in the SQL pattern's word boundary are approximated by "not white space".
- The WHATWG parser behind z32's rule: the rule is any idempotent partial function.
- The table locks of z32 are taken for granted: nothing else writes between its reads and its writes.
- KeyTable.DeleteSuperseded: the source's error for a wrong row count cannot arise here and is shown not to.
- Python's str.lower and UTF-8 decoding are parameters with the assumed laws of SoundRules; ValueError of urlparse on malformed hosts is not part of this model.
- JSON numbers are integers or opaque decimal text; a cast error is taken to arise for every selected element, whatever plan the server picks.
- The column and constraint renames of x6 outside its JSON column are not modelled.
- The pending range is what load_pending returns; how Alembic enumerates it is not part of this model.
- LiveAnswerDraftSession's abort and the reporter behind it are not modelled; ShowDraft covers append and commit.
- asyncio: callbacks run at once when a task ends, children are distinct fresh tasks, a gather over ended children is complete at once (Python 3.12 and later), and everything else that can happen is the list of events.
- The exception wrapping in AnsweringRunner.run is a fixed case split and is not modelled, nor are the planning and collecting phases before it.
- Logging, spans, printing and argument parsing are not modelled.
