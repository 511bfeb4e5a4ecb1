# Verified models of gubbi's protocols

Dafny models of the parts of gubbi where correctness depends on more than one function: protocols with several
actors, tables that must stay consistent, batch jobs that may be killed, and text formats that must parse back.
Each component has its own module or group of modules; they share only `Prelude`, and the token store uses the table of
`RateLimit`.

* **Extraction jobs and their budget** (`ExtractionJobs`, `ExtractionRuns`, `ExtractionBudget`, `ExtractionClaims`,
  `ExtractionSettlement`, `ExtractionExact`, `ExtractionStranded`, `ExtractionSweeps`, `ExtractionWitnesses`,
  `ExtractionActors`). Ingest
  requests, workers and orphan sweeps interleave over one database and one ledger; every transaction is one step, any
  actor may die between two of its steps, months may turn at any moment. `ExtractionActors` holds the three programs in
  imperative form and proves that in every run of the machine, with the other actors' steps at their awaits, the code
  of a worker and of a request does what the machine does.
* **OAuth token store** (`OAuthModel`, `OAuthStore`, `OAuthCleanup`, `OAuthGrants`, `OAuthHistory`). Codes, access
  tokens, refresh tokens and the pairing relation; issuing, rotation, revocation, expiry and cascading cleanup, one
  request at one clock reading. `OAuthHistory` says of every answer, from the earlier requests alone, when it is given.
* **Rate limiting** (`RateLimit`), **single-flight introspection** (`Hydra`), **conversation archive** (`Archive`,
  `ArchiveHistory`), **encryption and key rotation** (`Cipher`, `Rotation`), **reindexing** (`Reindex`).
* **Workflow checker** (`RequiredNeeds`, `RequiredNeedsPatterns`, `RequiredNeedsReading`, `RequiredNeedsDocument`,
  `RequiredNeedsLayout`, `RequiredNeedsSelfTest`, `RequiredNeedsDrop`, `RequiredNeedsCheck`). The line grammar of the
  `needs` check against its regular expressions, its parser against a reading of texts that has no loops, what the
  self-test reports, and the round trip of the documented layout.
* **Periods** (`Calendar`, `Periods`), **LIKE escaping** (`Like`), **exception chains** (`ErrorChain`), **topic paths**
  (`Topics`).

Code that updates state in place is modelled by classes and loops whose contracts equate the new state with a
function of the old one; the theorems are about those functions and about all runs.

## Results that differ from what the code or its documentation promises

* *Right bucket.* The refund of a failing worker is meant to go to the bucket of the row's period. It does not when
  loading the conversation fails after the period was read and the worker started in another month:
  `_period_start_known` is set before `effective_period_start` is (gubbi/extraction/jobs/extract_conversation.py:651
  and :659). `ExtractionBudget.RightBucketExactly` says exactly when, `ExtractionWitnesses.LateLoadFailureMisroutes`
  and `ExtractionWitnesses.MonthTurnsBeforeStart` give the runs.
* *Settled twice.* A pre-charge is meant to be settled once. Exactly three kinds of step break that, each for the one
  job it touches: starting the job (its conversation not processed yet) or sweeping it while it is settled already, or
  while a live worker may still settle it, or while a sweep still owes its refund; and losing the commit of Phase 3 after
  its budget call. After a run without such steps for the job, the next step leaves it settled at most once in every
  such continuation if and only if it is not such a step itself (`ExtractionExact.SettledAtMostOnceExactly`). The
  witnesses start from the empty database: a second delivery, a sweep during the run, a lost commit, a rerun after a
  failure, a sweep after a lost failure mark, and two deliveries that both find no topic, where nothing fails at all.
* *The wrong amount.* Losing a settlement instead of doubling it unbalances the account too. Which steps do either is
  `ExtractionSettlement.SoundFor`, and `ExtractionExact.RightAmountExactly` is the if-and-only-if for it.
* *Stranded pre-charges.* A pre-charge without a row is never settled if and only if its request ended while it held
  the charge, or its refund call failed (`ExtractionStranded.StrandedExactly`, `ExtractionStranded.NeverSettledExactly`).
* *Jobs in flight.* `create_pending` promises the id of the job in flight on a conflict. Inside the transaction of the
  ingest request the read that would find it fails, as tests/storage/repositories/test_extraction_jobs.py:127-137
  records, so the request refunds the charge and counts an error (gubbi/api/v1/ingest.py:319). Both the model's step and
  the method do that; outside a transaction the id is handed back.
* *Periods.* `resolve_period` documents ValueError for every unrepresentable range. `this-week`, `last-week` and
  `last-month` raise OverflowError instead, exactly under the conditions of `Periods.OverflowsExactly`.
* *Rotation.* A row with an empty ciphertext is a candidate, is never decrypted, and stays at the source version;
  text that authenticates but is not UTF-8 is skipped like any `ValueError`; rotation from a version to itself does
  nothing (`Rotation.LeftoversExactly`).
* *Token expiry.* The validator needs `exp > now`, the loaders refuse `exp < now`: they differ at equality, and both
  are modelled as they are.
* *Reindex.* A failed row below the cursor waits for the next run, and after an exit on a wholly failed batch the
  failure counter may count a row twice.

## Model

| member | source | states |
|---|---|---|
| ExtractionRuns.ExtractedAtMostOnce | gubbi/extraction/jobs/extract_conversation.py:628-826 | Over all interleavings of requests, workers, crashes and sweeps a conversation gets at most one batch of entries, and a completed job's conversation is processed |
| ExtractionRuns.CompletedForEver | gubbi/storage/repositories/extraction_jobs.py:251-312 | From any safe state no continuation leaves `completed` or changes a completed row |
| ExtractionRuns.OneActiveJobPerKey | gubbi/alembic/_archive/20260510_0023_extraction_jobs_relocate.py:70-75 | In every reachable state at most one non-terminal job exists per user, conversation and source |
| ExtractionRuns.AuditedExactlyWhenCompleted | gubbi/extraction/jobs/extract_conversation.py:436-456 | A job has exactly one `extraction_job.completed` audit row if its status is completed and none otherwise |
| ExtractionRuns.FailuresToldExactly | gubbi/extraction/jobs/extract_conversation.py:307-336 | After every run a row has an error code exactly when it has failed, and the `extraction_job.failed` audit rows count the failure paths that failed an active row |
| ExtractionJobs.MarkRunningFailsExactly | gubbi/storage/repositories/extraction_jobs.py:182-201 | Starting a job raises a unique violation exactly when it had failed and another active job has its key |
| ExtractionJobs.PersistKeepsSound | gubbi/extraction/jobs/extract_conversation.py:404-458 | Persisting keeps uniqueness, the audit agreement and the batch bound, given the checks of Phase 3 |
| ExtractionJobs.SweepKeepsSound | gubbi/extraction/orphan_cleanup.py:113-162 | A sweep update keeps them too and touches only active rows |
| ExtractionSweeps.SweepRunningTakesExactly | gubbi/extraction/orphan_cleanup.py:150-162 | In every run a sweep fails a row as `worker_lost` if and only if it is running and the last step that made it running was more than 1200 seconds ago, and leaves it alone otherwise |
| ExtractionSweeps.SweepPendingTakesExactly | gubbi/extraction/orphan_cleanup.py:113-122 | In every run a sweep fails a row as `enqueue_lost` if and only if it is pending and the step that inserted it was longer ago than the threshold |
| ExtractionSweeps.NoSweepHitsATimelyWorker | gubbi/extraction/orphan_cleanup.py:62 | No sweep takes a row within twice the job timeout of the load that made it running, whatever happens in between |
| ExtractionBudget.RightBucketExactly | gubbi/extraction/jobs/extract_conversation.py:595-659 | Every entry of a job is in the bucket of the row's period if and only if no refund follows a Phase 1 failure of a worker that started in another month |
| ExtractionWitnesses.LateLoadFailureMisroutes | gubbi/extraction/jobs/extract_conversation.py:829-868 | From every state with a startable job of another month, that failure refunds the wrong bucket |
| ExtractionWitnesses.MonthTurnsBeforeStart | gubbi/api/v1/ingest.py:186-373 | Such states are reachable |
| ExtractionClaims.SettledAtMostOnce | gubbi/extraction/jobs/extract_conversation.py:662-872 | In every run whose steps are safe for one job, whatever happens to the others and whichever calls, marks and processes are lost, its pre-charge is settled at most once |
| ExtractionExact.UnsafeStepsSettleTwice | gubbi/extraction/jobs/extract_conversation.py:805-872 | From every reachable state a step that is not safe for a job has a continuation, blameless itself, that settles it twice |
| ExtractionExact.SettledAtMostOnceExactly | gubbi/extraction/jobs/extract_conversation.py:595-872 | After a run safe for a job, the next step leaves it settled at most once in every safe continuation if and only if it is safe |
| ExtractionSettlement.SettledForTheRightAmount | gubbi/extraction/jobs/extract_conversation.py:673-693 | In every run whose steps are sound for one job its account matches its row: completed nets `cents_spent`, failed nets zero or, only when its refund was skipped, the estimate, active nets the estimate, except between two writes that belong together |
| ExtractionExact.UnsoundStepsUnbalance | gubbi/extraction/orphan_cleanup.py:109-177 | From every state such a run reaches, a step that is not sound has a sound continuation after which account and row disagree |
| ExtractionExact.RightAmountExactly | gubbi/extraction/jobs/extract_conversation.py:595-872 | After a run sound for a job, the next step keeps account and row in line in every sound continuation if and only if it is sound |
| ExtractionSettlement.OnlyEarlyFailuresSkipRefunds | gubbi/extraction/jobs/extract_conversation.py:838-857 | A job's refund is skipped only in runs where one of its own workers fails before the period was read |
| ExtractionWitnesses.SecondDeliverySettlesTwice | gubbi/extraction/jobs/extract_conversation.py:620-659 | A run from the empty database in which only a second delivery of a running job is not sound, and which settles twice |
| ExtractionWitnesses.NoTopicTwiceSettlesTwice | gubbi/extraction/jobs/extract_conversation.py:662-693 | A run from the empty database in which two deliveries of one job both find no topic: nothing fails, the row is completed, and the charge is settled twice |
| ExtractionWitnesses.RerunAfterFailureSettlesTwice | gubbi/storage/repositories/extraction_jobs.py:182-201 | The same for a job that failed, was refunded, and is delivered again |
| ExtractionWitnesses.LostMarkThenSweepSettlesTwice | gubbi/extraction/orphan_cleanup.py:150-177 | The same for a job whose failure mark was lost after its refund and whose row is swept later |
| ExtractionWitnesses.SweepDuringRunSettlesTwice | gubbi/extraction/orphan_cleanup.py:150-177 | The same for a job that is swept while its worker calls the model |
| ExtractionWitnesses.LostCommitSettlesTwice | gubbi/extraction/jobs/extract_conversation.py:811-872 | The same for a job whose Phase 3 loses its commit after the budget call, for every topic and cost |
| ExtractionStranded.StrandedExactly | gubbi/api/v1/ingest.py:292-366 | In every run a pre-charge is unsettled, without a row and in nobody's hands if and only if its request ended while holding it or failed to refund it |
| ExtractionStranded.NeverSettledExactly | gubbi/api/v1/ingest.py:317-366 | No continuation settles a pre-charge without a row if and only if it is stranded |
| ExtractionJobs.ExtractionStore.CreatePending | gubbi/storage/repositories/extraction_jobs.py:85-150 | Inserts the row; on a conflict changes nothing and hands back the only active job of the key, or inside a transaction fails |
| ExtractionJobs.ExtractionStore.MarkJobRunning | gubbi/storage/repositories/extraction_jobs.py:182-201 | Revives pending and failed rows, refuses a conflicting one, ignores the rest |
| ExtractionJobs.ExtractionStore.UpdateProgress | gubbi/storage/repositories/extraction_jobs.py:209-243 | Counters of an active row only grow; nothing else changes |
| ExtractionJobs.ExtractionStore.PersistExtraction | gubbi/extraction/jobs/extract_conversation.py:404-458 | Commits the topic where it is missing, one batch, the processed mark, the `conversation.extracted` audit row, the completion with the count of new topics, of entries and the cost, and its audit row |
| ExtractionJobs.ExtractionStore.MarkSkippedNoTopic | gubbi/extraction/jobs/extract_conversation.py:259-290 | Marks processed and completed with zero counters, and audits only a real update |
| ExtractionJobs.ExtractionStore.RecordJobFailure | gubbi/extraction/jobs/extract_conversation.py:307-336 | Fails an active row and audits only a real update |
| ExtractionJobs.ExtractionStore.Sweep | gubbi/extraction/orphan_cleanup.py:113-122 | Fails exactly the stale rows and returns each with its period |
| ExtractionActors.ExtractionWorker.Phase1 | gubbi/extraction/jobs/extract_conversation.py:620-659 | Leaves database, bucket and the known flag as the Phase 1 step of the machine does, rollback included |
| ExtractionActors.ExtractionWorker.Phase3Connection | gubbi/extraction/jobs/extract_conversation.py:779-826 | Second idempotency check, persistence and budget call are the Phase 3 step |
| ExtractionActors.ExtractionWorker.FailurePath | gubbi/extraction/jobs/extract_conversation.py:829-872 | Gated refund, then failure mark, as the machine's two steps with others' steps before each |
| ExtractionActors.ExtractionWorker.ExtractConversation | gubbi/extraction/jobs/extract_conversation.py:595-872 | In every run in which its worker comes to an end or dies, with the run's outcomes of its calls and the others' steps at its awaits, the code does to database and ledger what the machine does |
| ExtractionActors.IngestRequest.IngestConversations | gubbi/api/v1/ingest.py:186-425 | The same for the request loop; the counters and tasks are what the run comes to, every task names a row of this user for its conversation, and unless the request dies every conversation is counted once |
| ExtractionActors.OrphanCleanup.Cycle | gubbi/extraction/orphan_cleanup.py:109-177 | Does what a run of the machine does: the pending sweep, its refunds, the running sweep, its refunds; each taken row is failed once and refunded once into its own period |
| OAuthCleanup.CleanupIsInvisible | gubbi/oauth/storage.py:604-668 | Inserting `cleanup_expired` anywhere in a run changes no answer any request gives |
| OAuthCleanup.CascadeOnlyExpired | gubbi/oauth/storage.py:622-660 | The cascade deletes only access tokens that have expired themselves |
| OAuthCleanup.CleanupRemovesExactly | gubbi/oauth/storage.py:604-668 | After any run a cleanup leaves exactly the codes and tokens that have not expired, unchanged, and exactly the pairing rows that name no expired token |
| OAuthCleanup.StepKeepsInv | gubbi/oauth/storage.py:425-580 | Every request keeps: rows well formed, pairs functional, every access token paired and not outliving its refresh token |
| OAuthGrants.OneLiveFamilyPerGrant | gubbi/oauth/provider.py:106-229 | In every run a grant has at most one stored refresh token and one stored access token, each access token with its pair row |
| OAuthGrants.RevokedGrantIsNeverAccepted | gubbi/oauth/provider.py:242-260 | After either live token is revoked no token of the grant is accepted in any continuation |
| OAuthGrants.CodeRedeemedAtMostOnce | gubbi/oauth/provider.py:142-153 | A redeemed code never loads again for any client in any continuation |
| OAuthHistory.RedeemedExactly | gubbi/oauth/provider.py:83-153 | In every run a code is exchanged, for the scopes it was saved with, if and only if it was saved for this very client, has not expired, and nobody has tried it since |
| OAuthHistory.RotatedExactly | gubbi/oauth/provider.py:155-229 | In every run a refresh token is exchanged if and only if it was issued to this very client at most thirty days ago and neither rotated nor revoked since; the scopes are those asked for, else those it had |
| OAuthHistory.RefreshRevokedExactly | gubbi/oauth/provider.py:242-260 | A refresh token is revoked exactly when it could be exchanged |
| OAuthHistory.IntrospectedExactly | gubbi/oauth/provider.py:231-240 | In every run an access token loads, with the client, scopes, expiry and resource of its issue, exactly until an hour has passed or its pair was rotated or revoked |
| OAuthHistory.ValidatedExactly | gubbi/oauth/selfhost.py:50-63 | The validator grants it for the same time less its last second |
| OAuthHistory.AccessRevokedExactly | gubbi/oauth/provider.py:231-260 | An access token is revoked exactly when it loads |
| OAuthStore.OAuthStorage.SaveIssuedTokenPair | gubbi/oauth/storage.py:425-460 | Both tokens and their pair row in one step |
| OAuthStore.OAuthStorage.RotateRefreshToken | gubbi/oauth/storage.py:508-580 | Deletes the old family and inserts the new pair as one state change |
| OAuthStore.OAuthStorage.CleanupExpired | gubbi/oauth/storage.py:604-668 | The ordered deletes compute the cascading cleanup function, then old rate-limit events go; the count is of all rows deleted |
| OAuthStore.JournalOAuthProvider.LoadAuthorizationCode | gubbi/oauth/provider.py:83-104 | Loads a live code of the client; deletes an expired or foreign one |
| OAuthStore.JournalOAuthProvider.RedeemCode | gubbi/oauth/provider.py:83-153 | Load and exchange together are the redeem request |
| OAuthStore.JournalOAuthProvider.ExchangeRefreshToken | gubbi/oauth/provider.py:155-229 | Load and rotate together are the rotate request |
| OAuthStore.JournalOAuthProvider.RevokeByAccess | gubbi/oauth/provider.py:231-260 | Load and revoke together are the revocation by access token |
| OAuthStore.JournalOAuthProvider.RevokeByRefresh | gubbi/oauth/provider.py:242-260 | Load and revoke together are the revocation by refresh token, loop over paired tokens included |
| OAuthStore.JournalOAuthProvider.ValidateToken | gubbi/oauth/selfhost.py:50-63 | Grants exactly a stored token with strictly remaining lifetime |
| RateLimit.PruningIsInvisible | gubbi/oauth/_rate_limit.py:110-143 | Pruning at any moment changes no later count or admission, as retention covers every window |
| RateLimit.NoWindowOverfills | gubbi/oauth/selfhost.py:73-98 | No closed window of an hour holds more than ten admitted registrations of one address |
| RateLimit.AdmittedExactly | gubbi/oauth/selfhost.py:73-98 | In every sequential run a registration is let through if and only if fewer than ten events were logged for its own address in the hour before it |
| RateLimit.RateLimitStorage.Register | gubbi/oauth/selfhost.py:73-98 | Admits exactly below the limit, and records admitted attempts only |
| RateLimit.RateLimitStorage.Prune | gubbi/oauth/_rate_limit.py:133-143 | Every event at or after the cutoff stays, in place and as often as before, no older one does, no count from the cutoff or later changes, and the result is the number removed |
| Hydra.OneCallPerKey | gubbi/auth/hydra.py:187-223 | At most one upstream call in flight per key in every interleaving |
| Hydra.ResolvesOnlyPending | gubbi/auth/hydra.py:211-223 | A leader always finds its future unresolved |
| Hydra.ResolvedForGood | gubbi/auth/hydra.py:211-223 | A resolved future never changes |
| Hydra.FollowerAgreesWithLeader | gubbi/auth/hydra.py:187-223 | A follower ends with its leader's claims or error, given by the upstream for its own key |
| Hydra.OnlySuccessesAreCached | gubbi/auth/hydra.py:211-223 | Errors are never cached, and a hit returns claims the upstream gave for that key |
| Hydra.HitsExactly | gubbi/auth/hydra.py:187-215 | In every run with a cache, a lookup is answered at once with the latest successful reply for its key if there was one and the entry has not gone since, and goes on to the upstream otherwise |
| Hydra.NeverStuck | gubbi/auth/hydra.py:187-223 | Some step is enabled while any task is unfinished |
| Hydra.QuiescentMeansEmpty | gubbi/auth/hydra.py:187-223 | When all tasks have finished the in-flight map is empty and every future is resolved |
| Hydra.ResolvedExactlyOnce | gubbi/auth/hydra.py:211-223 | In every run a future is resolved at most once, and once all tasks have finished each has been exactly once |
| Hydra.BurstDrains | gubbi/auth/hydra.py:187-223 | Without arrivals a run takes at most four steps per task |
| Hydra.OwnStepsOfTask | gubbi/auth/hydra.py:187-223 | In every run a task that finishes has looked; or looked, entered and woken; or looked, entered, got its reply and left |
| Hydra.HydraIntrospector.Introspect | gubbi/auth/hydra.py:187-223 | In every run in which its task finishes, with the run's reply and the others' steps at its awaits, the code leaves the fields and returns the outcome the machine has then |
| Archive.CommittedRowsHaveFiles | gubbi/storage/repositories/conversations.py:282-351 | At every point of every run with concurrent savers, rollbacks and crashes each committed row's file is on disk |
| Archive.ScheduledPathsNeverReturn | gubbi/storage/repositories/conversations.py:335-351 | A path scheduled for deletion is no row's path then or ever after |
| ArchiveHistory.ArchiveToldExactly | gubbi/storage/repositories/conversations.py:282-372 | After every run: a row names the file of the last save committed under its key; a file is on disk if and only if it was written and never unlinked; a saver has a file to delete if and only if it committed over a row in which it had found it and has not dealt with it since |
| Archive.DeletingBeforeCommitLosesTheFile | gubbi/storage/repositories/conversations.py:353-372 | A run on which deleting before the commit leaves a committed row without its file |
| Archive.StoredPathNamesItsFile | gubbi/storage/repositories/conversations.py:83-97 | The base name of a stored path is the file written for it |
| Archive.ConversationStore.SaveConversation | gubbi/storage/repositories/conversations.py:228-351 | File before row; hands back exactly the path the row moved away from |
| Archive.ConversationStore.DeleteSuperseded | gubbi/api/v1/ingest.py:414-415 | The deletions after commit remove only the given files and leave every row its own |
| Archive.ArchiveDirectory.DeleteSupersededArchive | gubbi/storage/repositories/conversations.py:353-372 | Removes only the base name, never a symlink, and swallows an operating-system error |
| Cipher.DecryptInvertsEncrypt | gubbi/crypto/cipher.py:134-217 | Decryption finds the key by the nonce and inverts encryption under every known version |
| Rotation.TryRowTurns | gubbi/scripts/rotate_encryption_key.py:181-216 | What the inner loop does to a row: abort exactly on a failed tag, re-encrypt exactly the rotatable |
| Rotation.FetchIsNextCandidates | gubbi/scripts/rotate_encryption_key.py:157-170 | A batch is the next rows with both columns and the source version in the nonce, in order, without gaps |
| Rotation.RotationPreservesReadings | gubbi/scripts/rotate_encryption_key.py:121-257 | Wherever a rotation is stopped every row decrypts to what it did before |
| Rotation.LeftoversExactly | gubbi/scripts/rotate_encryption_key.py:121-257 | A finished rotation leaves at the source version exactly the rows with an empty ciphertext and those whose decryption raised the skipped `ValueError`, unchanged; or everything, when source and target are the same |
| Rotation.CompleteTurnsAll | gubbi/scripts/rotate_encryption_key.py:121-257 | It has brought every row that had both columns, a non-empty ciphertext, the source version and a decryption to the target version with the same text, and left every other row untouched |
| Rotation.RerunUpdatesNothing | gubbi/scripts/rotate_encryption_key.py:121-257 | A second rotation changes nothing |
| Rotation.RestartReachesTheSameEnd | gubbi/scripts/rotate_encryption_key.py:121-257 | A killed and restarted rotation reaches the versions and readings of an uninterrupted one and updates each row once |
| Rotation.ColumnPair.Rotate | gubbi/scripts/rotate_encryption_key.py:121-257 | The batch loop terminates, turns the rows up to its cursor, and its audit counts sum to the number of rows that changed |
| Rotation.Run | gubbi/scripts/rotate_encryption_key.py:311-361 | All column pairs in turn; after a real finish every due row of each is at the target version and no other row has changed; a dry run changes nothing, an unknown target is refused, an abort means a failing tag |
| Reindex.EntryQueue.RunReindex | gubbi/tools/admin.py:111-219 | For any failures the loop terminates; queued = generated + still queued, no stamped row lacks its embedding, none is embedded twice |
| Reindex.EntryQueue.EmbedBatch | gubbi/tools/admin.py:129-161 | Splits a batch into embedded and failed rows, in order |
| Reindex.ClaimsWithoutGaps | gubbi/storage/repositories/entries.py:1053-1090 | A claim takes every queued row between the cursor and its last one |
| RequiredNeedsDrop.SelfTestPasses | tools/check_required_needs.py:208-218 | For every source text: when the check reports nothing the self-test reports nothing |
| RequiredNeedsDrop.SelfTestExactly | tools/check_required_needs.py:208-218 | For every text that parses the self-test finishes and names, in order, exactly the entries without which the list would be complete |
| RequiredNeedsDrop.EveryRemovalIsReported | tools/check_required_needs.py:208-218 | Dropping the line of any one entry parses and is reported |
| RequiredNeedsDrop.DropLineReparses | tools/check_required_needs.py:175-218 | Dropping it re-parses to the same jobs with exactly that entry gone, later lines renumbered |
| RequiredNeedsDrop.LinesDrop | tools/check_required_needs.py:81-87 | The text without a line has exactly the other lines, under both ways the tool splits it |
| RequiredNeedsDrop.StructuralDrop | tools/check_required_needs.py:101-115 | Dropping a plain line that ends no block scalar drops exactly it from the structural lines |
| RequiredNeedsDrop.SectionDrop | tools/check_required_needs.py:118-130 | Dropping a line of the jobs section keeps its start and moves its end by one |
| RequiredNeedsSelfTest.JobBodiesCut | tools/check_required_needs.py:133-148 | Cutting a body line leaves the same jobs, with that line gone from its body |
| RequiredNeedsSelfTest.NeedsCut | tools/check_required_needs.py:151-172 | Cutting an item line leaves the other items |
| RequiredNeedsSelfTest.ItemShape | tools/check_required_needs.py:54-58 | An item line is indented by six and is no key, comment, top-level line or block scalar |
| RequiredNeedsLayout.LayoutParses | tools/check_required_needs.py:13-24 | Every workflow written in the documented layout, whatever its jobs, `needs` and line ends, parses to exactly those |
| RequiredNeedsLayout.LayoutPassesExactly | tools/check_required_needs.py:175-205 | Such a text passes exactly when it has another job and `needs` lists each of them once and nothing else |
| RequiredNeedsReading.ParsesExactly | tools/check_required_needs.py:175-180 | For every text: it parses to a workflow if and only if its lines read as that workflow, said line by line without the loops of the parser |
| RequiredNeedsReading.LinesExactly | tools/check_required_needs.py:81-87 | A text has these lines if and only if it is these lines, each free of break characters, with `\n` or `\r\n` between them |
| RequiredNeedsReading.SectionExactly | tools/check_required_needs.py:118-130 | The section begins behind the only `jobs` key and ends at the next top-level line |
| RequiredNeedsReading.SkipBodyExactly | tools/check_required_needs.py:111-114 | Every skipped line is blank or deeper than the key, and the first line after them is neither |
| RequiredNeedsReading.StructuralExactly | tools/check_required_needs.py:101-115 | A line is kept if and only if it is no blank, no comment and not in the text of a kept block scalar |
| RequiredNeedsReading.TableExactly | tools/check_required_needs.py:133-148 | The job table exists exactly for headers with different names followed by body lines, and lists each header with the lines up to the next |
| RequiredNeedsReading.NeedsExactly | tools/check_required_needs.py:151-172 | The entries are the items behind the only `needs` key, up to the first line that is not deeper |
| RequiredNeedsDocument.DocumentParses | tools/check_required_needs.py:101-180 | Jobs with any body lines, with comments, blank lines and block scalars of any text among them, parse to their names and their needs, in order |
| RequiredNeedsDocument.DocumentPassesExactly | tools/check_required_needs.py:175-205 | Such a text passes exactly when its needs are the other jobs, each once, and there is one |
| RequiredNeedsPatterns.ShapeExactly | tools/check_required_needs.py:42-55 | Each test on a line holds of exactly the lines its regular expression matches |
| RequiredNeedsPatterns.NamesExactly | tools/check_required_needs.py:48-52 | The name taken from a header or an item is what its group matches |
| RequiredNeeds.NoProblemsExactly | tools/check_required_needs.py:183-205 | Nothing is reported exactly when there is another job and `needs` lists each of them once and nothing else |
| RequiredNeedsCheck.StructuralLines | tools/check_required_needs.py:101-115 | The loop with its block-scalar skipping computes the structural lines |
| RequiredNeedsCheck.JobBodiesLoop | tools/check_required_needs.py:133-148 | The loop builds the job table or the first error |
| RequiredNeedsCheck.NeedsEntriesLoop | tools/check_required_needs.py:151-172 | The loops find the entries or the first error |
| RequiredNeedsCheck.FindProblems | tools/check_required_needs.py:183-205 | The loop with its seen set reports nothing exactly for a complete `needs` |
| RequiredNeedsCheck.FindProblemsIn | tools/check_required_needs.py:175-205 | From the text to the problems or the layout error |
| Calendar.OrdinalRoundTrip | gubbi/tools/context.py:43-47 | Day numbers and dates convert back and forth |
| Calendar.WeeksInYear | gubbi/tools/context.py:113-121 | A year has 53 ISO weeks exactly when it starts on a Thursday, or on a Wednesday and is a leap year |
| Periods.EveryDateInOneWeek | gubbi/tools/context.py:113-123 | Every date whose week lies inside the calendar is in the range of exactly one accepted YYYY-WNN |
| Periods.AcceptedWeeksAbut | gubbi/tools/context.py:113-123 | Accepted weeks are seven days from Monday and consecutive ones abut |
| Periods.EveryDateInOneMonth | gubbi/tools/context.py:103-111 | Every date is in the range of exactly one YYYY-MM |
| Periods.EveryDateInOneYear | gubbi/tools/context.py:95-101 | Every date is in the range of exactly one YYYY, so the months partition the year |
| Periods.WeeksAbut | gubbi/tools/context.py:75-83 | `this-week` is seven days from Monday around today, `last-week` seven days that end the day before it; each overflows exactly where it leaves the calendar |
| Periods.MonthsAbut | gubbi/tools/context.py:85-93 | `this-month` is the whole month of today, `last-month` the whole month before it, which overflows exactly in January of year 1 |
| Periods.TodayIsItself | gubbi/tools/context.py:71-73 | `today` is that day alone |
| Periods.OverflowsExactly | gubbi/tools/context.py:55-68 | Which names overflow, and on exactly which days; no other name ever does |
| Periods.ThisWeekOverflows | gubbi/tools/context.py:75-78 | In the last five days of the calendar `this-week` overflows |
| Periods.LastMonday | gubbi/tools/context.py:75-78 | Monday the 27th of December 9999 is such a day |
| Periods.NamesNormalize | gubbi/tools/context.py:50-52 | What normalization makes of the canonical names |
| Periods.SpacedNamesNormalize | gubbi/tools/context.py:50-52 | Surrounding blanks go, the gap between two words becomes one hyphen, and letters are lowered |
| Like.ReplacementsEscapeEach | gubbi/storage/repositories/base.py:8-10 | The three replacements equal a per-character escape |
| Like.EscapeUndone | gubbi/storage/repositories/base.py:8-10 | Escaping can be undone |
| Like.PrefixQueryMeansPrefix | gubbi/storage/repositories/topics.py:193 | A text matches the escaped string plus `%` exactly when it starts with the string |
| Like.EscapedMatchesItself | gubbi/storage/repositories/base.py:8-10 | Without the wildcard only the string itself matches |
| ErrorChain.WalkChain | gubbi/telemetry/sanitized_errors.py:105-132 | On any graph the walk stops with at most ten distinct links; not exhausted, they are the whole orbit |
| ErrorChain.IsDriverCaused | gubbi/telemetry/sanitized_errors.py:159-176 | False exactly when the orbit has at most ten distinct links and none is a driver error |
| Topics.SegmentsAreMatched | gubbi/validation.py:65 | What the segment pattern matches, in words |
| Topics.ValidatesExactly | gubbi/validation.py:75-89 | A value is accepted exactly when it lowers to one segment, to two with a slash between them, or to such a path and a newline; the lowered value is returned |
| Topics.SuggestionsParse | gubbi/tools/errors.py:53-60 | A suggestion is made exactly when a letter or digit survives, and validation accepts it unchanged |
| Topics.SuggestionExactly | gubbi/tools/errors.py:53-60 | The suggestion is the first two segments that have a letter or digit, in order, each as its words joined by hyphens |
| Topics.HardenedIsFixed | gubbi/validation.py:92-129 | A hardened path is in the grammar and is a fixed point of hardening |
| Topics.HardenAcceptsExactly | gubbi/validation.py:92-129 | Exactly which raw paths are accepted, and that the path is what is left of them |

## Left out

- HTTP, middleware, tool registration, streaming, Redis publishing, spans, metrics and logging: no invariant of their own.
- AES-GCM, embedding inference and the budget service: an abstract cipher whose opening inverts sealing, an oracle that may fail, and a ledger of entries.
- `PRE_CHARGE_CENTS`, `current_period_start` and `BudgetHelper` come from gubbi_common, which is not part of this model: the estimate is a free parameter, the month an input.
- A deployment without a budget helper, and jobs run with the id "unknown".
- Weaker isolation inside Phase 3: transactions on one conversation are serialised.
- The job queue: a job may be delivered any number of times, at any time after its row is inserted.
- Task cancellation in the introspector, and interleavings inside one OAuth request.
- The TTL and the size bound of the introspection cache: entries may vanish at any time.
- Two conversations whose titles share a slug: saving overwrites by topic and slug by design.
- Messages, linked entries and soft decryption in the conversation repository: mappings without state.
- Archive.ArchiveDirectory.DeleteSupersededArchive: symlinks are a fixed set of names.
- Writers beside a rotation or a reindex, and a second reindex at the same time (SKIP LOCKED): the set of rows is fixed.
- Rotation's verification sample and dry-run counts: they only read.
- The wording and the sorting of the workflow checker's messages: problems are listed in the order they are found.
- `splitlines` on texts with foreign line breaks: the tool refuses such texts before it splits them.
- Period labels, ISO rendering of dates, and non-ASCII digits and letters in period names.
- Topics.SuggestionsParse: takes `str.lower` as any function that leaves topic characters alone, does not lengthen a string into topic characters, and creates no newline.
- `validate_topic` may accept a trailing newline, since `$` does; nothing is claimed about its absence there.
- Alembic migrations, settings, search ranking, retry and backoff, response-size limits.
