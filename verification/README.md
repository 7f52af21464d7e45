# Verified models of the knowledge base's core

Dafny models of the parts of this multi-tenant knowledge base where a mistake is quiet:
who sees which row, which cached answer is served, how often the key server is called,
how many requests a limiter lets through, what an automated approver may do, and what a
replica or a rotated key leaves behind. Each component has its own modules, and
`dafny verify dfyconfig.toml` checks them all.

Protocols with several actors are state machines over their steps, and their theorems
speak of every run. Objects that one caller updates in place are classes, and loops are
methods, each proved against a specification function whose meaning separate lemmas
establish.

- **Row security** (`RowPolicies`, `PolicyMigrations`, `TenantIsolation`). Policies are a
  small expression language with two readings: as PostgreSQL evaluates them, each subquery
  filtered by the policies of its own table (Row Security Policies, section 5.9 of the
  PostgreSQL manual), and flat. The readings agree for every catalog whose subqueries only
  ask for what their tables already admit, and every modelled revision is such a catalog.
- **Tenant context** (`TenantSessions`, `TenantRequests`). Sessions, pooled connections,
  transaction-local settings and the hook that re-applies them.
- **Signing keys** (`JwksCache`, `JwksSafety`, `JwksPromises`, `JwksFirstSet`, `JwksRuns`,
  `JwksVerifier`). Every clock read, every unlocked read of a shared attribute and every
  write is a step of its own; fetches may take any time and fail. `JwksVerifier` is the object
  those steps write to. Keys and key ids are those of sections 5 and 4.5 of RFC 7517.
- **Answers** (`ParentGrouping`, `ContextSelection`, `Conflicts`, `CitationChecks`,
  `HistoryWindow`, `CacheKeys`, `AnswerCache`). Grouping and selecting the prompt context,
  detecting explicit contradictions, reusing earlier turns, and the answer cache under
  interleaved requests and changing permissions.
- **Limiters** (`SlidingWindow`, `FixedWindow`), **approval agent** (`ApprovalRules`,
  `ApprovalRun`), **provider access lists** (`PrincipalNames`, `GroupNames`, `AclAuto`),
  **startup** (`Startup`), **first administrator** (`AdminRace`), **secrets** (`SecretKeys`)
  and **connection text** (`PercentEncoding`, `Dsn`).
- `Options`, `Lists`, `Sets`, `Numbers`, `Texts` and `Decimals` hold what they share.

What the code calls but does not define here enters as a parameter, so the theorems hold
for every such function: text compression, the citation marker pattern, hashes (injective,
without the separator), string folding, white space. The language model's reply, the outcome of
a fetch, a Redis command or a service call, and the order of steps are arbitrary inputs.

## Where code and documentation part

The model follows the code. Each point below is a theorem with its exact condition.

- `migrations/versions/20260806_21_identity_and_ai_rls.py:60` joins two disjunctions with
  `AND` and no parentheses, so bookmarks were visible company-wide until revision 24.
- `migrations/versions/20260807_27_restrict_identity_sensitive_rls.py:41` writes an identity
  disjunct on downgrade that revision 26 never had.
- `migrations/versions/20260806_24_article_scope_rls.py:65` drops its policies and leaves row
  security forced, the very state `20260807_26_identity_scope_rls.py:79-81` warns of.
- `src/domain/ai_service.py:512` tests the parent limit after adding, so one parent is taken
  even where the limit is below one.
- `src/domain/ai_service.py:545-547` speaks of the same label with different values; only each
  article's first value counts.
- `src/domain/ai_service.py:417` speaks of the strongest hit; a later hit without a score wins
  over a row with a negative one and leaves it that score.
- `src/domain/ai_service.py:1192-1198` joins the cache key's fields by `|`; a version that
  contains one shares its key texts with another.
- `src/core/rate_limit.py:45` reads the clock before taking the lock, so readings can reach the
  deque out of order, and a limit above one then holds only for spans shorter by the lag; a
  limit below one raises on an empty deque; a retry at exactly the stated delay can be
  refused, because the delay is rounded down.
- `src/models/governance.py:337` says the first rule that reaches a verdict decides; the code
  asks only the first rule in scope.
- `src/domain/approval_agent.py:465` rolls back audit rows of earlier drafts that are not
  committed yet, and a service failing after its commit leaves a decision that is reported as
  left for review.
- `src/domain/acl_auto.py:95-96` says only a role suffix at the end is removed; the role
  phrases of lines 99-100 go anywhere, inside words too.
- `src/domain/admin_bootstrap.py:28-30` leaves the race to the unique constraint; it settles
  one address, and replicas on different settings can create two administrators.
- `src/domain/admin_bootstrap.py:120-123` takes a uniqueness failure for a lost race; where an
  ordinary account holds the address, no administrator ever comes to exist.
- `src/core/secrets.py:32-36` splits and strips the list of previous keys, so a data key with a
  comma or surrounding blanks cannot be kept there.

## Model

| member | source | states |
|---|---|---|
| `JwksCache.MatchKid` | src/domain/access_jwt.py:222 | a key of the set that carries the requested id, and nothing exactly when no key carries it |
| `JwksCache.MatchKidIsFirst` | src/domain/access_jwt.py:222 | and the first such key |
| `JwksSafety.StepKeeps` | src/domain/access_jwt.py:169-251 | every step of any thread, clock tick or fetch outcome keeps the invariant: one lock holder, recorded times in order, attributes naming real fetches, both cooldown clocks covering every fetch but the one in progress, every waiting thread's locals still justified |
| `JwksPromises.EveryRunIsSafe` | src/domain/access_jwt.py:169-251 | so the invariant holds after every interleaving of any number of threads |
| `JwksPromises.StormGuard` | src/domain/access_jwt.py:173-251 | at most two fetches start in any half-open window of one cooldown; of two, the first is an expiry refetch and the second an unknown-kid refresh; k cooldowns see at most 2k |
| `JwksRuns.TwoFetchesInOneCooldown` | src/domain/access_jwt.py:226-251 | the bound is met: a run in which an expiry refetch and an unknown-kid refresh start within one cooldown |
| `JwksPromises.FoundKeysAreCurrent` | src/domain/access_jwt.py:183-251 | a returned key carries the requested id, is in a set some fetch delivered, and at a moment of the call that set was within its lifetime, counted from its stamp or, unstamped, from the start of its fetch, or a fetch attempt had ended within the cooldown before it |
| `JwksRuns.CurrentWithinLateness` | src/domain/access_jwt.py:183-251 | at its return every key found over any run is current once lifetime and cooldown are prolonged by the time that has passed since the set was judged |
| `JwksRuns.SafeLatenessIff` | src/domain/access_jwt.py:183-251 | exactly so: answers at most d late are current at their return on every run, with lifetime and cooldown prolonged by e, exactly when d <= e; with nothing added, for no positive lateness |
| `JwksRuns.LongPauseIsOutOfDate` | src/domain/access_jwt.py:183-224 | a run whose call pauses for lifetime and cooldown after its own fetch and answers from a set out of date |
| `JwksPromises.UnknownIsChecked` | src/domain/access_jwt.py:226-251 | "unknown" is answered only of a fetched set without that id, and only when an unknown-kid refresh was recorded during the call or within the cooldown before a moment of it, and delivered nothing newer than that set |
| `JwksPromises.UnavailableIsExplained` | src/domain/access_jwt.py:189-211 | "unavailable" means the call's own fetch failed, or an attempt that ended within the cooldown is keeping the next one back |
| `JwksFirstSet.NothingMeansNoSet` | src/domain/access_jwt.py:189-241 | over every run "nothing fetched yet" is answered only before the first set is stamped: once a set is there, no call is told there is none, and an id missing from it is "unknown" |
| `JwksFirstSet.NothingIsTrue` | src/domain/access_jwt.py:189-241 | at the moment that answer is given no set is published |
| `JwksPromises.PublishedSetsAreKept` | src/domain/access_jwt.py:173-181 | over every run, a published key set stays until a later fetch replaces it; it is never lost or replaced by an older one |
| `JwksVerifier.AccessJwtVerifier.FetchKeys` | src/domain/access_jwt.py:173-181 | each of the four attributes changes in one statement of the fetch alone, a fetch is recorded exactly where it starts, no other thread moves, and the lock is kept exactly while the thread is still in it |
| `JwksVerifier.AccessJwtVerifier.BeginFetch` | src/domain/access_jwt.py:176 | the fetch is recorded with the time it starts at; every attribute, the lock and every answer stay |
| `JwksVerifier.AccessJwtVerifier.WriteKeys` | src/domain/access_jwt.py:179 | the one write that publishes a set; its stamp is still that of the set before, and both clocks, the lock and every answer stay |
| `JwksVerifier.AccessJwtVerifier.WriteAttempt` | src/domain/access_jwt.py:175-178 | on success and on failure the attempt time is that read after the fetch, keys, stamp and refresh time stay; a failed expiry fetch leaves the lock and answers with the failure, anything else keeps the lock and answers nothing |
| `JwksVerifier.AccessJwtVerifier.WriteStamp` | src/domain/access_jwt.py:179-181 | the stamp is the time read after publishing; keys and both clocks stay, and exactly an expiry refetch of `_current_keys` leaves the lock |
| `JwksVerifier.AccessJwtVerifier.WriteForcedRefresh` | src/domain/access_jwt.py:247-251 | on success and on failure the refresh time is that read at the end, keys, stamp and attempt time stay, the lock is left and one answer given |
| `JwksCache.Outcome` | src/domain/access_jwt.py:247-251 | that answer is the failure exactly where the fetch failed, "unknown" exactly where the set just fetched has no such id, and otherwise a key of that set with the id |
| `JwksVerifier.AccessJwtVerifier.LockedCurrentKeys` | src/domain/access_jwt.py:197-211 | under the lock of `_current_keys` no attribute is written; a fetch starts only where the last attempt is not cooling down and the set was found not fresh, keys are served only fresh or cooling, and the exception comes only without any set |
| `JwksVerifier.AccessJwtVerifier.LockedRefetch` | src/domain/access_jwt.py:233-241 | under the lock of `_key_for` the lock is kept throughout, and its own refetch has the same two conditions |
| `JwksVerifier.AccessJwtVerifier.LockedKeyFor` | src/domain/access_jwt.py:242-244 | the id is checked again in the current set: a key found there is the answer, and a published set without it leads to the second check of the refresh time |
| `JwksVerifier.AccessJwtVerifier.LockedRefresh` | src/domain/access_jwt.py:245-248 | then a refresh starts exactly where none is cooling down, and where one is, the answer is "unknown" for the published set |
| `JwksVerifier.AccessJwtVerifier.WriteField` | src/domain/access_jwt.py:175-181 | of the four attributes, each is written by one statement of its own |
| `JwksVerifier.AccessJwtVerifier.TakeLock` | src/domain/access_jwt.py:197-232 | the lock is taken exactly when it is free, and otherwise the thread waits and nothing changes |
| `JwksVerifier.AccessJwtVerifier.CheckFreshness` | src/domain/access_jwt.py:185-188 | before the lock the set is served exactly when it was within its lifetime at the time read |
| `JwksVerifier.AccessJwtVerifier.CheckAttempt` | src/domain/access_jwt.py:191-196 | a thread waits for the lock exactly where the attempt it read is not cooling down |
| `JwksVerifier.AccessJwtVerifier.ServeFromMemory` | src/domain/access_jwt.py:188-196 | otherwise the set as it is now is served without the lock, and the exception comes exactly where there is none |
| `JwksVerifier.AccessJwtVerifier.MatchServed` | src/domain/access_jwt.py:221-229 | a call comes to rest exactly where its key is found or it has already looked twice |
| `JwksVerifier.AccessJwtVerifier.CheckRefresh` | src/domain/access_jwt.py:226-231 | a missing key waits for the lock exactly where the refresh time it read is not cooling down, and otherwise takes a second look |
| `JwksVerifier.AccessJwtVerifier.Happen` | src/domain/access_jwt.py:169-251 | whatever happens next, the object goes where the model goes and stays within the invariant |
| `TenantSessions.PerformKeeps` | src/api/deps.py:118-166 | every operation of every session, with failing statements and a failing hook, keeps this: an open usable transaction carries its own session's stored context, idle connections carry none, no two sessions share a connection |
| `TenantSessions.EveryStatementRunsUnderItsOwnContext` | src/api/deps.py:76-166 | over any run of begins, commits, rollbacks, connection swaps, failing statements and failing hooks, each statement runs with exactly the flags, the company and the user its own session last set; with no flag, and neither or both of them '', if it set none |
| `TenantSessions.StatementRunsIff` | src/api/deps.py:118-132 | a statement runs exactly where its transaction has not failed, or where one can begin on a free connection and the hook's statement does not fail |
| `TenantSessions.OthersCannotSteer` | src/api/deps.py:89-132 | in two runs that agree on what a session last set, its statements run under the same context, whatever other sessions and connections did |
| `TenantSessions.SessionPool.Begin` | src/api/deps.py:118-132 | autobegin with the hook: the new transaction's connection gets exactly the stored context or none, and no statement can run in it exactly where the hook's statement fails; the pool stays sound |
| `TenantSessions.SessionPool.SetDatabaseContext` | src/api/deps.py:135-166 | the context is stored whatever fails, and where the transaction can still run statements they run with exactly its flags, company and user; it can wherever neither statement failed; the pool stays sound |
| `TenantSessions.SessionPool.ExecuteStatement` | src/api/deps.py:118-132 | runs exactly where the transaction has not failed or one can begin, under its session's stored context, or a blank one without any, and is recorded with it; the pool stays sound |
| `TenantSessions.SessionPool.CommitOrRollback` | src/api/deps.py:89-104 | both end the transaction alike and keep the stored context; the pool stays sound |
| `TenantSessions.SessionPool.CloseSession` | src/api/deps.py:76-86 | the transaction ends and the session is forgotten with its stored context; the pool stays sound |
| `TenantRequests.StatementsSeeTheirOwnRows` | src/api/deps.py:169-199 | with the newest policies, a statement of a session that set a context sees exactly the rows opened by those flags or owned by that company or user |
| `TenantRequests.CompanyRowsInColumns` | migrations/versions/20260807_28_connector_scope_rls.py:43 | in columns: a company's own row shows to a flag of its table, or where its company column is the context's company |
| `TenantRequests.ArticleRowsInColumns` | migrations/versions/20260806_24_article_scope_rls.py:27-62 | what hangs on an article shows, besides, exactly where the article it names is of the company |
| `TenantRequests.PersonRowsInColumns` | migrations/versions/20260807_26_identity_scope_rls.py:24-61 | what hangs on a person, exactly where that person is |
| `TenantRequests.ConnectorRowsInColumns` | migrations/versions/20260807_28_connector_scope_rls.py:43-60 | what hangs on a connector, exactly where that connector is |
| `TenantRequests.DocumentsInColumns` | migrations/versions/20260807_28_connector_scope_rls.py:38-56 | what hangs on a document, exactly where its document's connector is |
| `TenantRequests.PrincipalsInColumns` | migrations/versions/20260807_28_connector_scope_rls.py:39-60 | and what hangs on a snapshot of one |
| `TenantRequests.MembersInColumns` | migrations/versions/20260807_26_identity_scope_rls.py:24-61 | a membership, exactly where both its person and its group are |
| `TenantRequests.RolesInColumns` | migrations/versions/20260807_26_identity_scope_rls.py:24-61 | a role or its permission, exactly where the role has no company or the context's |
| `TenantRequests.BookmarksInColumns` | migrations/versions/20260806_24_article_scope_rls.py:27-62 | a bookmark, exactly to its own user, on an article of the company or under the article flag |
| `TenantRequests.MessagesInColumns` | migrations/versions/20260806_21_identity_and_ai_rls.py:29-60 | a message, exactly to the user of its conversation |
| `TenantRequests.OpenedIff` | migrations/versions/20260807_29_governance_scope_rls.py:24-39 | which flag opens which tables |
| `TenantRequests.OwnedRowsInColumns` | migrations/versions/20260806_21_identity_and_ai_rls.py:29-60 | a person's own row shows, besides, exactly where its user column is the context's user and not '' |
| `TenantRequests.BlankSessionsFailClosed` | src/api/deps.py:127-132 | a session that never set a context sees the roles without a company, and their permissions, and nothing else, as long as no row has '' for its company |
| `TenantRequests.BlankContextsDiffer` | src/api/deps.py:150-158 | that condition is exact for articles: on a connection used before, a row shows exactly when its company is ''; on a new one it never does |
| `RowPolicies.FlatIffSomeDisjunct` | migrations/versions/20260807_28_connector_scope_rls.py:29-40 | a predicate passes exactly when one of its disjuncts does |
| `RowPolicies.HoldsIffFlat` | migrations/versions/20260806_24_article_scope_rls.py:27-62 | for any catalog whose subqueries only ask what their tables' policies already admit, filtering the subqueries by those policies changes no result |
| `RowPolicies.VisibleIffFlat` | migrations/versions/20260807_28_connector_scope_rls.py:29-60 | so each table shows exactly the rows of the flat test, at any depth of nesting |
| `TenantIsolation.CatalogIs` | migrations/versions/20260807_26_identity_scope_rls.py:24-98 | after each modelled upgrade and downgrade, every table has the policy the last revision to touch it wrote, and forces row security exactly with it |
| `TenantIsolation.EveryRevisionIsFlat` | migrations/versions/20260806_21_identity_and_ai_rls.py:29-60 | at every modelled revision the nested evaluation of every policy equals its flat reading, for every database, context and row |
| `TenantIsolation.VisibleIffBelongs` | migrations/versions/20260807_28_connector_scope_rls.py:29-60 | at the newest revision a row is visible exactly when a flag opens its table or the row belongs to the context: through its chain of keys to the company, to the user who owns it, or as a role without a company |
| `TenantIsolation.TenantsShareNothing` | migrations/versions/20260807_29_governance_scope_rls.py:24-39 | two people of different companies without flags see no row in common, except shared roles and their permissions |
| `TenantIsolation.Bookmarks21AreCompanyWide` | migrations/versions/20260806_21_identity_and_ai_rls.py:60 | revision 21's bookmark policy, read with SQL precedence, shows a bookmark to its article's whole company; it means what was intended exactly for one's own rows, rows outside the company and administrators |
| `TenantIsolation.Bookmarks21Leak` | migrations/versions/20260806_21_identity_and_ai_rls.py:60 | a concrete colleague's bookmark that shows and should not |
| `TenantIsolation.Downgrade26Restores` | migrations/versions/20260807_26_identity_scope_rls.py:64-98 | undoing revision 26 restores the previous catalog exactly |
| `TenantIsolation.Downgrade27Widens` | migrations/versions/20260807_27_restrict_identity_sensitive_rls.py:41-52 | undoing revision 27 does not: sessions and audit rows become visible to global identity managers, and only this differs from revision 26 |
| `TenantIsolation.Downgrade27Leak` | migrations/versions/20260807_27_restrict_identity_sensitive_rls.py:41-52 | a concrete session row visible after that downgrade and not before |
| `TenantIsolation.Downgrades28And29Restore` | migrations/versions/20260807_28_connector_scope_rls.py:68-70 | undoing revision 28 or 29 shows every context what the revision before showed, for every table and row |
| `TenantIsolation.Downgrade24HidesEverything` | migrations/versions/20260806_24_article_scope_rls.py:65-79 | undoing revision 24 leaves its tables forced and without a policy: no context sees any row |
| `PolicyMigrations.PolicyStore.DropPolicyIfExists` | migrations/versions/20260807_28_connector_scope_rls.py:24-26 | removes the table's policy and nothing else |
| `PolicyMigrations.PolicyStore.CreatePolicy` | migrations/versions/20260807_28_connector_scope_rls.py:18-21 | forces row security and creates the policy; an existing one is an error and stays |
| `PolicyMigrations.PolicyStore.Rebuild` | migrations/versions/20260807_26_identity_scope_rls.py:39-61 | drop-then-create in one transaction: succeeds exactly when no table outside the dropped ones has its policy already, and otherwise changes nothing |
| `PolicyMigrations.PolicyStore.Upgrade24` | migrations/versions/20260806_24_article_scope_rls.py:27-62 | writes exactly revision 24's policies, or nothing where row security is disabled or a new table already has its policy |
| `PolicyMigrations.PolicyStore.Downgrade24` | migrations/versions/20260806_24_article_scope_rls.py:65-79 | drops exactly revision 24's policies and leaves row security forced |
| `PolicyMigrations.PolicyStore.Upgrade26` | migrations/versions/20260807_26_identity_scope_rls.py:24-61 | replaces exactly the identity policies |
| `PolicyMigrations.PolicyStore.Downgrade26` | migrations/versions/20260807_26_identity_scope_rls.py:64-98 | writes exactly the policies the downgrade names |
| `PolicyMigrations.PolicyStore.ReplaceEach` | migrations/versions/20260807_28_connector_scope_rls.py:43-60 | replacing table by table gives every listed table its new policy and touches no other |
| `PolicyMigrations.PolicyStore.Apply28` | migrations/versions/20260807_28_connector_scope_rls.py:43-60 | upgrade and downgrade of revision 28 both write its eleven tables and no other |
| `PolicyMigrations.PolicyStore.Apply29` | migrations/versions/20260807_29_governance_scope_rls.py:24-39 | upgrade and downgrade of revision 29 both write its three tables and no other |
| `ParentGrouping.ResolveParentContext` | src/domain/ai_service.py:416-443 | the loop over the insertion-ordered dictionary, merging the keys of stronger hits into their row, computes the stable score order of the group-by specification |
| `ParentGrouping.NoPairIsLost` | src/domain/ai_service.py:416-440 | a parent-child pair is in the grouped rows exactly when some hit has it |
| `ParentGrouping.RowsAreFaithful` | src/domain/ai_service.py:416-440 | rows have distinct parents and distinct children; a row shows the chunk and the keys of the last first sight that was stronger than it, and where all have scores that is the earliest of the strongest, whose score the row has |
| `ParentGrouping.KeysOfTheRow` | src/domain/ai_service.py:432-439 | every key of a row has the value of the last winning hit that carries it, and no other key is there |
| `ParentGrouping.RowIsStrongestIff` | src/domain/ai_service.py:431-438 | no hit is stronger than its row exactly when every hit but the first carries a score, or some score among these and the first hit's is not negative |
| `ParentGrouping.ScorelessHitIsStronger` | src/domain/ai_service.py:431-438 | such a row shows the second hit and sorts by the score of the first |
| `ParentGrouping.ByScoreIsPermutation` | src/domain/ai_service.py:441-443 | sorting loses and adds no row |
| `ParentGrouping.ByScoreIsDescending` | src/domain/ai_service.py:441-443 | scores never rise along the result |
| `ParentGrouping.ScoresNeverRise` | src/domain/ai_service.py:441-443 | in the rows' own scores, a missing one counting as zero |
| `ParentGrouping.ByScoreIsStable` | src/domain/ai_service.py:441-443 | rows of one score keep their order |
| `ContextSelection.SelectContext` | src/domain/ai_service.py:469-514 | the entries are those of the greedy choice over the sorted parents; no article gives more than the least number by which the distinct articles fill MAX_PARENTS, or the setting where that is more |
| `ContextSelection.EntriesFollowTheChoice` | src/domain/ai_service.py:506-510 | entry k is the k-th chosen parent, with its own compressed text |
| `ContextSelection.CandidateInKeys` | src/domain/ai_service.py:478-490 | what the limits look at: the article key, the compressed text of the parent or else of the chunk, the score against the minimum, and no empty text |
| `ContextSelection.TokensAreLeast` | src/domain/ai_service.py:498-500 | the token estimate is the least positive number of tokens of four characters that holds the text |
| `ContextSelection.Consider` | src/domain/ai_service.py:478-511 | one turn: refused without a trace by any guard, otherwise entry, totals and article count grow by this parent |
| `ContextSelection.GreedyIsFeasible` | src/domain/ai_service.py:479-513 | every choice of the loop is within the parent, per-article, character and token limits, one item alone excepted |
| `ContextSelection.GreedyIsFirst` | src/domain/ai_service.py:469-514 | among all feasible choices the loop's is lexicographically first in score order |
| `ContextSelection.NothingAfterTheLimit` | src/domain/ai_service.py:512-514 | leaving the loop at the parent limit changes nothing |
| `ContextSelection.ParentLimitIsKeptIff` | src/domain/ai_service.py:508-513 | MAX_PARENTS is kept exactly when it is at least one, or is zero and nothing could be chosen anyway |
| `ContextSelection.LimitZeroTakesOne` | src/domain/ai_service.py:508-513 | at a limit of zero a single eligible parent is taken |
| `ContextSelection.CharacterBudgetIsRedundant` | src/domain/ai_service.py:491-504 | where 4 * MAX_TOKENS <= MAX_CHARS, raising the character budget changes no choice |
| `ContextSelection.ChosenCount` | src/domain/ai_service.py:469-514 | where the character and token budgets exclude nothing, the number chosen is the smaller of the parent limit and the sum over articles of what each may give |
| `ContextSelection.CapFillsTheLimit` | src/domain/ai_service.py:462-466 | distinct articles times the scaled cap reach MAX_PARENTS |
| `ContextSelection.PerArticleCapIsLeast` | src/domain/ai_service.py:462-466 | and it is the least such cap: it is the setting, or one less would not reach MAX_PARENTS; without any parent it is the setting |
| `ContextSelection.LimitIsFilled` | src/domain/ai_service.py:446-466 | so when every article offers as many eligible parents as the cap, the parent limit is met exactly |
| `ContextSelection.LabelsAreGapless` | src/domain/ai_service.py:506-510 | labels are C1, C2, ... without gaps, and no two entries share one |
| `Conflicts.DetectExplicitConflicts` | src/domain/ai_service.py:542-572 | the escalated labels with their first entries per article, in the order labels are first read |
| `Conflicts.ReadingOrder` | src/domain/ai_service.py:550-563 | reading order: fact by fact within a source, source by source |
| `Conflicts.LabelsInOrder` | src/domain/ai_service.py:550-563 | labels come in the order they are first read |
| `Conflicts.ConflictInFull` | src/domain/ai_service.py:564-572 | a reported conflict names a contradicted label and holds exactly each article's first statement on it |
| `Conflicts.EscalatedIffContradicted` | src/domain/ai_service.py:564-571 | a label is escalated exactly when two articles first state different values for it |
| `Conflicts.KeptIffFirstWord` | src/domain/ai_service.py:566-568 | an entry is kept exactly when it is the first its article makes for the label |
| `Conflicts.OneArticleNeverDisagrees` | src/domain/ai_service.py:545-547 | one article's statements never contradict each other here |
| `Conflicts.PromiseIsKeptIff` | src/domain/ai_service.py:545-572 | a label is escalated just where two articles state different values for it, as documented, exactly when two first statements differ, or one article alone speaks of it, or every article keeps to one value |
| `Conflicts.LaterWordsAreIgnored` | src/domain/ai_service.py:545-570 | a family of sources where it is not: two articles state different values for one label and nothing is escalated |
| `CitationChecks.ReadCitations` | src/domain/ai_service.py:1226-1244 | the loop over a citation list succeeds exactly on well-formed lists, and then gives all ids and all declared markers |
| `CitationChecks.AuthorizedConversationHistory` | src/domain/ai_service.py:675-747 | exactly the reusable turns, in their order; asking permission for all turns at once decides each as asking alone would |
| `CitationChecks.KeptTurnsAreReadable` | src/domain/ai_service.py:678-687 | a turn is reused exactly when it is the user's, or an assistant turn with citations each of which leads to a chunk readable now, and whose markers together are those of its text |
| `CitationChecks.KeptTurnsInOrder` | src/domain/ai_service.py:735-747 | kept turns stay in their order |
| `CitationChecks.RevokingOnlyRemoves` | src/domain/ai_service.py:735-747 | losing permissions never lets a turn back in |
| `CitationChecks.CachedAnswerStands` | src/domain/ai_service.py:1217-1261 | a cached answer is valid exactly when it uses markers, declares all of them, and every cited chunk is readable now under the id text stored |
| `CitationChecks.StandsInFull` | src/domain/ai_service.py:1226-1261 | which is: it uses markers, the citations' markers include them, and every citation carries one marker and a chunk id readable now |
| `HistoryWindow.RecentLines` | src/domain/ai_service.py:1176-1187 | the history in the prompt is the longest run of newest turns that fits the character budget, the newest one always included |
| `HistoryWindow.TotalAdds` | src/domain/ai_service.py:1182 | the budget counts the characters of the lines kept |
| `CacheKeys.SourcesTextIsInjective` | src/domain/ai_service.py:821-845 | the sources epoch determines scope, count and newest timestamp |
| `CacheKeys.CacheInputText` | src/domain/ai_service.py:1192-1198 | the key text written out |
| `CacheKeys.CacheInputIsInjective` | src/domain/ai_service.py:1192-1198 | equal key texts have equal fields, whatever the questions contain, when no version or language contains the separator |
| `CacheKeys.VersionsAreDeterminedIff` | src/domain/ai_service.py:1192-1198 | no other pair of versions gives the same key text exactly when neither version contains the separator, whatever the other fields are |
| `CacheKeys.PromptBarHasTwin` | src/domain/ai_service.py:1192-1198 | every key with a separator in its prompt version has a twin with the same text, got by moving what follows it into the retrieval version |
| `CacheKeys.RetrievalBarHasTwin` | src/domain/ai_service.py:1192-1198 | and every key with one in its retrieval version, by moving what precedes it into the prompt version |
| `AnswerCache.StepKeeps` | src/domain/ai_service.py:1210-1270 | every step of interleaved requests, of both writers of the table, permission changes, clock ticks and deletions keeps: each row sits under its own key and was stored for its owner, each hit was stored for whoever found it |
| `AnswerCache.ServedAnswersAreOurs` | src/domain/ai_service.py:1192-1270 | every served answer was stored, with this text and these citations, as a cited answer that is no refusal, for the same profile (so owner and permissions snapshot) and the same key fields less than 21600 seconds before the lookup, with no history on either side and no visuals asked for; all its markers are declared, and every cited chunk was readable at serving time |
| `AnswerCache.LookupFinds` | src/domain/ai_service.py:1210-1216 | a request without history or a wish for visuals finds the row of its key text, snapshot and owner that has not expired |
| `AnswerCache.ServedIff` | src/domain/ai_service.py:1217-1270 | a hit is served exactly when it stands; otherwise the request goes on to generate |
| `AnswerCache.RememberedIff` | src/domain/ai_service.py:2195-2223 | an answer is kept exactly when it was given without history and is cited, no refusal and without artifacts, under the hash of its key text and snapshot, for its owner and six hours |
| `AnswerCache.ReusedSelectionsAreOurs` | src/domain/ai_service.py:2295-2325 | every document selection found was kept for the same profile and has not expired; it was kept for the same question up to case and spacing among the same documents, unless the prompt version is the text "corpus" |
| `AnswerCache.KeptSelectionIsFound` | src/domain/ai_service.py:2295-2325 | a selection kept is what the next request of that profile finds for the question, up to case and spacing, among the same documents, while it lives |
| `AnswerCache.SelectionTextIsInjective` | src/domain/agent/corpus.py:187-191 | the key text of a selection determines the normalised question and the fingerprinted documents |
| `AnswerCache.LookupIsUnambiguous` | src/repositories/ai.py:209-230 | a lookup never matches two rows, so it never raises |
| `AnswerCache.UpsertKeepsOthers` | src/repositories/ai.py:232-268 | storing an answer or a selection replaces only a row of the same owner, fingerprint and question |
| `AnswerCache.AnswerTable.GetCached` | src/repositories/ai.py:209-230 | nothing exactly when no row matches; otherwise a matching row, or the exception for several |
| `AnswerCache.AnswerTable.CacheAnswer` | src/repositories/ai.py:232-268 | the row is stored under its key and every other key is unchanged; where rows sit under their own keys they still do, and until it expires a lookup by its question, fingerprint and owner finds this row and no other |
| `SlidingWindow.InMemoryRateLimiter.Allow` | src/core/rate_limit.py:44-57 | the popping loop and the append leave the specified deque and verdict for this key, the exception on an empty full deque included, and touch no other key |
| `SlidingWindow.LimitHolds` | src/core/rate_limit.py:44-57 | clock readings that lag by at most L leave at most `limit` acceptances in any half-open span of the window less L; a monotone clock (L = 0) gives the full window |
| `SlidingWindow.SpanIsSafeIff` | src/core/rate_limit.py:44-57 | the clock is read before the lock: for every limit, window and lag L, a span holds at most `limit` acceptances on every run exactly when it is no longer than the window less L (at a limit of one: than the window), or empty, or nothing is accepted at all |
| `SlidingWindow.LongerSpanOverflows` | src/core/rate_limit.py:45-57 | for every longer span there are readings that lag by at most L and put one acceptance too many into it |
| `SlidingWindow.DequeIsTheWindow` | src/core/rate_limit.py:49-57 | on a monotone clock the deque after a call is exactly the accepted times in the window that ends with it |
| `SlidingWindow.RefusalMeansFull` | src/core/rate_limit.py:51-57 | a call is accepted exactly when fewer than `limit` acceptances lie in its window |
| `SlidingWindow.RaisesIff` | src/core/rate_limit.py:51-54 | a call raises exactly where the limit is below one, and then every call does |
| `SlidingWindow.RetryIff` | src/core/rate_limit.py:51-55 | after a refusal, with nothing else accepted, a retry is accepted exactly from the moment the oldest acceptance leaves the window |
| `SlidingWindow.RetryAfter` | src/core/rate_limit.py:52-55 | one second after the stated delay, which is at least a second and beyond that no longer than the time that remains, a retry is accepted; at the delay itself exactly when the remaining time was whole seconds or less than one |
| `FixedWindow.NeverExpiredAtIncr` | src/core/rate_limit.py:102-104 | an INCR that takes effect within the extra time of its clock read never meets an expired counter |
| `FixedWindow.RunKeeps` | src/core/rate_limit.py:92-125 | over every run of any number of processes with commands lost either way, tickets in a bucket are distinct, and no counter expires before its bucket's end plus the extra |
| `FixedWindow.BucketLimit` | src/core/rate_limit.py:92-108 | so no caller gets more than `limit` admissions from Redis in one bucket |
| `FixedWindow.BucketsHoldIff` | src/core/rate_limit.py:102-104 | for every limit: the bucket limit holds on every run exactly when no INCR lags by more than the extra time to live, or nothing is admitted anyway; without the extra second any lag breaks it |
| `FixedWindow.LateIncrExceedsTheLimit` | src/core/rate_limit.py:102-104 | for every longer lag there is a run that admits limit + 1 calls in one bucket |
| `FixedWindow.SmoothMeansRedis` | src/core/rate_limit.py:99-122 | failing open, the same holds while no command is lost |
| `FixedWindow.EveryAnswerHasItsCause` | src/core/rate_limit.py:92-122 | over every run, whatever is lost: a call is admitted by Redis only as a number within the limit in the bucket of its own clock read, the first of a bucket only once the time to live is set; refused only for a count above the limit, for a lost command where the limiter fails closed, or by a full fallback; a fallback is asked only after a lost command and failing open, and admits only below its limit |
| `FixedWindow.WindowsLimit` | src/core/rate_limit.py:92-122 | failing closed or with no command lost, any k windows hold at most (k + 1) * limit admissions of one caller |
| `FixedWindow.FallbackLimit` | src/core/rate_limit.py:117-122 | whatever is lost, the fallback of one process admits at most `limit` calls of a caller in any window |
| `FixedWindow.OpenLimit` | src/core/rate_limit.py:92-122 | failing open with any commands lost, k windows hold at most (k + 1) * limit + k * P * limit admissions of one caller across P processes: (P + 2) * limit in one window |
| `ApprovalRules.CapBoundsEveryMatch` | src/domain/approval_agent.py:144-184 | a similarity cap is met exactly when something was measured and every measured score is within it |
| `ApprovalRules.ExtensionFollowsTheLastDot` | src/domain/approval_agent.py:100-103 | the extension is what follows the last dot; there is none exactly where there is no dot |
| `ApprovalRules.ScopeFailsClosed` | src/domain/approval_agent.py:114-188 | a rule in scope is of the draft's company; a set filter that cannot be evaluated keeps it out; a rule for standard drafts never meets a restricted, confidential or high-risk one |
| `ApprovalRules.InScopeInFull` | src/domain/approval_agent.py:114-188 | a rule is in scope exactly when it is active, of the draft's company, and meets every filter that is set: connector, department and extension up to case and blanks, every measured score within the cap with at least one measured, risk tier |
| `ApprovalRules.RiskIsHighIff` | src/domain/approval_agent.py:114-141 | the tier is high exactly for a restricted or confidential draft or one of a listed department |
| `ApprovalRules.TextBeforeIff` | src/domain/approval_agent.py:191-198 | ids are compared as texts: at the first character where they part |
| `ApprovalRules.SelectedRuleGoverns` | src/domain/approval_agent.py:191-198 | the selected rule is in scope and no rule in scope has a lesser priority number, or an earlier id at the same one; none is selected exactly when none is in scope |
| `ApprovalRules.SelectionIsOrderIndependent` | src/domain/approval_agent.py:191-198 | rules with distinct ids give one selection in any order |
| `ApprovalRules.VerdictNeedsTheGoverningRule` | src/domain/approval_agent.py:256-314 | the agent approves exactly when the draft is prepared, the model said to approve and the governing rule may, and rejects exactly when it said to reject and that rule may; anything else abstains, whatever the reply |
| `ApprovalRules.FirstVerdictDecidesIff` | src/domain/approval_agent.py:256-314 | "the first rule that reaches a verdict decides" holds, whatever the model replies, exactly when no rule in scope but the selected one may approve or reject anything |
| `ApprovalRules.AbstainingRuleBlocksTheNext` | src/domain/approval_agent.py:266-271 | two rules where it does not: the first may not act and is final, the second is never asked |
| `ApprovalRun.Database.Apply` | src/domain/approval_agent.py:332-366 | no change without a pending prepared draft and an active account of the author of the verdict's rule; otherwise the decision commits, also where the service fails afterwards |
| `ApprovalRun.Database.Evaluate` | src/domain/approval_agent.py:444-505 | one draft: the decision, the rollback after an exception, the counters, the audit row and the result |
| `ApprovalRun.Database.Run` | src/domain/approval_agent.py:369-507 | the whole run over the company's active rules and the first pending prepared drafts, as the fold the lemmas speak about |
| `ApprovalRun.ChangesNeedAuthority` | src/domain/approval_agent.py:256-366 | a draft decided by the run was decided as the model replied, under its governing rule, which grants that action and whose own author has an active account, on a pending prepared draft, and never on a dry run |
| `ApprovalRun.AppliedIff` | src/domain/approval_agent.py:332-366 | conversely, a verdict is applied exactly when all of that holds and the service succeeds, commits exactly unless the service fails first, and is the reply |
| `ApprovalRun.DecisionsStand` | src/domain/approval_agent.py:437-507 | every draft ends with the decision of its last handling that committed |
| `ApprovalRun.RowsSayWhatHappened` | src/domain/approval_agent.py:476-495 | the audit row names the draft, the reply the rule granted, the rule and its version, and whether it was applied |
| `ApprovalRun.ActiveRulesIff` | src/domain/approval_agent.py:398-408 | the rules asked are the active ones of the company |
| `ApprovalRun.BatchIsOldestFirst` | src/domain/approval_agent.py:410-435 | the batch is the first waiting drafts of the queue, in its order |
| `ApprovalRun.SummaryAddsUp` | src/domain/approval_agent.py:437-505 | evaluated = approved + rejected + left_for_review = number of results, and each count is that of the results it names |
| `ApprovalRun.ResultsFollowTheQueue` | src/domain/approval_agent.py:496-505 | result i reports draft i's verdict and whether it was applied |
| `ApprovalRun.ReportAgreesUnlessLateFailure` | src/domain/approval_agent.py:455-474 | what is reported agrees with what was committed, except exactly when the service fails after its commit |
| `ApprovalRun.AuditTrail` | src/domain/approval_agent.py:457-507 | the audit rows that stand are those of every draft in order, except rows whose next transaction end is the rollback of a later draft |
| `ApprovalRun.RollbackLosesARow` | src/domain/approval_agent.py:455-495 | two drafts of which one has an audit row in the end |
| `ApprovalRun.OneRowPerDraft` | src/domain/approval_agent.py:476-495 | so where no apply rolls back, every evaluated draft has exactly one row |
| `PrincipalNames.EmailsOf` | src/domain/acl_auto.py:113-131 | every address found, best source first, each once |
| `PrincipalNames.SourcesInOrder` | src/domain/acl_auto.py:120-127 | read from the e-mail, the login, the id and the display name, in that order |
| `PrincipalNames.BehindTheLastBar` | src/domain/acl_auto.py:124-126 | the login only behind its last bar |
| `PrincipalNames.FirstFindsInOrder` | src/domain/acl_auto.py:128-131 | each address stands where it is first found |
| `PrincipalNames.NormalizeGroupName` | src/domain/acl_auto.py:98-104 | the loops over phrases and tokens compute the specified name: role phrases blanked, role tokens stripped from the end, department words removed |
| `PrincipalNames.FirstOccurrenceGoes` | src/domain/acl_auto.py:99-100 | replacing parts a text at the first occurrence of the phrase and goes on behind it |
| `PrincipalNames.BlankedIff` | src/domain/acl_auto.py:95-100 | the phrase step changes a name exactly when one of the four phrases occurs anywhere in it, inside words too, where the documentation only speaks of a suffix |
| `PrincipalNames.SuffixOnlyWithoutPhrases` | src/domain/acl_auto.py:95-104 | without a phrase, only the role suffix and department words go |
| `PrincipalNames.PhrasesGoAnywhere` | src/domain/acl_auto.py:95-104 | every name that begins with the first phrase and ends in one word of another kind loses the phrase |
| `GroupNames.OnlySuffixGoesIff` | src/domain/acl_auto.py:95-104 | for every text: no more than a role suffix at the end is removed, as documented, department words aside, exactly when none of the four phrases begins before the end of the last word which that suffix leaves |
| `GroupNames.EndSplits` | src/domain/acl_auto.py:101-103 | the text up to that end holds exactly the words the role suffix leaves |
| `GroupNames.ReplacingLightens` | src/domain/acl_auto.py:99-103 | replacing a phrase never adds to what the role suffix leaves, takes something from it wherever the phrase begins before its end, and leaves a text of role tokens one |
| `GroupNames.DocumentedNames` | src/domain/acl_auto.py:92-97 | the two names the documentation gives come out as it says |
| `PrincipalNames.OnlyTheSuffixGoes` | src/domain/acl_auto.py:101-103 | of the tokens that are left, exactly the longest suffix of role tokens is removed |
| `PrincipalNames.NoDepartmentWordStays` | src/domain/acl_auto.py:104 | a token stays exactly when it is no department word |
| `PrincipalNames.MatchIffOnlyOne` | src/domain/acl_auto.py:134-150 | a group matches a department exactly when that department alone carries its name and the name is not empty |
| `AclAuto.AutoResolve` | src/domain/acl_auto.py:227-315 | the three loops and the company grant compute the specified resolution |
| `AclAuto.PersonIsRecorded` | src/domain/acl_auto.py:269-293 | in the result, a person has the account of the first of its addresses that has one, with the record of how it was found; without any it is listed as without an account |
| `AclAuto.GroupIsRecorded` | src/domain/acl_auto.py:295-312 | a group has the one department that carries its name, and nothing where none or several do |
| `AclAuto.OthersAreRecorded` | src/domain/acl_auto.py:251-267 | the organisation and links open to it mean every active department; applications, devices and the rest are ignored |
| `AclAuto.ResolveCompany` | src/domain/acl_auto.py:251-267 | whole-company principals resolved, powerless ones ignored, and whether the company is wanted |
| `AclAuto.ResolvePeople` | src/domain/acl_auto.py:269-293 | people not known by identity resolved by their best address with an account, or recorded as without one |
| `AclAuto.ResolveGroups` | src/domain/acl_auto.py:295-312 | groups resolved by the one department of their name |
| `AclAuto.KeyIsInjective` | src/domain/acl_auto.py:173-174 | `type:id` determines type and id where types hold no colon |
| `AclAuto.EachLandsOnce` | src/domain/acl_auto.py:240-315 | each waiting principal lands in exactly the one place it alone deserves, except exactly a person or matched group named like a company link; an explicitly mapped one is not touched |
| `AclAuto.GrantedDepartments` | src/domain/acl_auto.py:295-314 | granted are exactly the departments waiting groups name alone, or all where the whole company is meant; always active ones of the company |
| `AclAuto.OutcomeIsOrderIndependent` | src/domain/acl_auto.py:227-315 | the whole outcome is the same for any order of principals and departments |
| `Startup.ExceptionChain` | src/api/main.py:456-467 | terminates on cycles and lists every reachable exception exactly once: each one leads to the next through the wrapped error, else its cause, else its context unless suppressed |
| `Startup.IsTransientDatabaseError` | src/api/main.py:419-453 | worth waiting exactly when something reachable is a connectivity failure and nothing reachable is permanent |
| `Startup.DelayIsCapped` | src/api/main.py:541 | delays start at two seconds, double, and are 30 exactly from the fifth attempt on |
| `Startup.StoppedIsFirst` | src/api/main.py:511-541 | the step that decides an attempt is the first of the four that fails |
| `Startup.ApiProcess.StartInlineLoops` | src/api/main.py:496-508 | all three loops are listed or none; where a creation raises, the loops created before it run unlisted |
| `Startup.ApiProcess.BootstrapDatabase` | src/api/main.py:511-567 | it retries exactly while every failure is worth waiting out; ready, with the loops, exactly when the deciding attempt passed all four steps and all loops were created; it exits exactly on any other failure or when one cannot be, so no loop runs unlisted in a process that goes on |
| `AdminRace.RunKeeps` | src/domain/admin_bootstrap.py:65-135 | every interleaving of check, insert and commit of any number of replicas keeps: at most one replica has inserted or created, and users differ from the start by that one administrator at most |
| `AdminRace.AtMostOneAdministrator` | src/domain/admin_bootstrap.py:65-135 | replicas on the same settings change the users at most once, by one administrator that one replica created; an existing administrator means no change |
| `AdminRace.AdministratorIff` | src/domain/admin_bootstrap.py:65-126 | once all replicas have ended and not all crashed, there is an administrator exactly when there was one, or the settings allow one and the address was free |
| `AdminRace.TwoPossibleIff` | src/domain/admin_bootstrap.py:28-30 | for replicas on any settings: two of them can both create an administrator exactly when two want one at different free addresses |
| `AdminRace.DifferentAddressesMakeTwo` | src/domain/admin_bootstrap.py:65-126 | a run of any such pair, among any other replicas, that leaves both administrators |
| `SecretKeys.BuildKeyMaterials` | src/core/secrets.py:23-39 | the list built in place is primary, previous and signing key, each once |
| `SecretKeys.PrimaryComesFirst` | src/core/secrets.py:23-39 | the first is the data key, or the signing key where none is set |
| `SecretKeys.StoredIff` | src/core/secrets.py:42-61 | a text is stored exactly where there is one and the data key is set, and then under that key |
| `SecretKeys.DecryptSecret` | src/core/secrets.py:64-72 | the original exactly when the sealing key is among the materials, and nothing otherwise |
| `SecretKeys.OnlyListableKeysAreRead` | src/core/secrets.py:32-36 | only keys without commas and surrounding blanks are ever read from the previous-keys setting |
| `SecretKeys.ListedKeyIsFoundIff` | src/core/secrets.py:32-36 | a key put into that list is found exactly when it is such a key, whatever else is listed |
| `SecretKeys.SecretsSurviveRotations` | src/core/secrets.py:23-72 | over any run of stores and rotations that keep every key still needed, every stored secret opens to the text last stored |
| `SecretKeys.StoredSecretsStay` | src/core/secrets.py:42-61 | and none once stored is lost |
| `SecretKeys.NewSecretsUseTheDataKey` | src/core/secrets.py:42-61 | over any run every secret is sealed under the data key, set and in force when its name was last stored, with the text stored then |
| `SecretKeys.RotationIff` | src/core/secrets.py:32-39 | moving the old data key to the list keeps its secrets exactly when it is listable |
| `PercentEncoding.DecodeEncode` | src/core/config.py:1048 | UTF-8 decoding undoes encoding for every text |
| `PercentEncoding.Utf8IsShortest` | src/core/config.py:1048 | each character takes the fewest bytes its number needs, with the lead and continuation bytes of RFC 3629 |
| `PercentEncoding.QuoteByteIs` | src/core/config.py:1048 | letters, digits and four marks stay, every other byte is a percent sign and two upper-case digits |
| `PercentEncoding.QuoteJoins` | src/core/config.py:1048 | text is encoded character by character |
| `PercentEncoding.UnquoteQuote` | src/core/config.py:1048 | percent-decoding undoes encoding for every text |
| `PercentEncoding.QuoteBytesIsSafe` | src/core/config.py:1042-1048 | encoded text holds nothing that delimits parts of a URL |
| `Dsn.ComposedText` | src/core/config.py:1039-1050 | the connection text written out |
| `Dsn.ParseCompose` | src/core/config.py:1039-1050 | for every user and password the composed URL parses back to its five parts exactly when the host has no ":" or "/" and the database no "?" |
| `Dsn.UndoubleDouble` | migrations/env.py:14-17 | interpolation undoes the doubling for every text |
| `Dsn.UndoubledIff` | migrations/env.py:14-17 | without the doubling a text survives interpolation exactly when it has no percent sign |
| `Dsn.ThroughIniOption` | migrations/env.py:14-17 | for every connection the option reads back, and composed, doubled, interpolated and parsed it gives the five parts back on exactly that condition |
| `Dsn.ThroughDriverMarker` | scripts/bootstrap_db_role.py:39-43 | composed, stripped of its driver marker and parsed it gives the five parts back exactly when, besides, the database name does not contain the other marker; on that condition alone user, password, host and port come back |
| `Dsn.StatementNamesRoleAndPassword` | scripts/bootstrap_db_role.py:29-64 | whatever quotes they hold, the statement names exactly that role and password and ends there |

## Left out

Weaker than one might wish, on purpose:

- FoundKeysAreCurrent: "current" is judged at a moment of the call; at its return it holds of the code exactly as far as `SafeLatenessIff` says.
- ServedAnswersAreOurs: readability is judged at the permission query, under the user as loaded when the request began.
- BucketLimit: assumes one clock for all processes and Redis, and one namespace.
- EveryStatementRunsUnderItsOwnContext: savepoints are not modelled, as the code opens none, nor a hook whose statement is given up before it reaches the server.
- ReadStatement: identifiers are not cut to 63 bytes, and NUL characters are not refused.
- ParseCompose: the reader knows the composed shape only and keeps `#` and percent escapes in the database name; one that takes `#` for a fragment or decodes that name need not agree. Bracketed IPv6 addresses are not modelled.

Not modelled:

- The Redis limiter, the answer cache's requests and the bootstrap race keep no object of their own and are state machines on values; their state is in Redis or the database.
- `verify` of the Access JWT (claims of section 4.1 of RFC 7519, signature) and everything after the key is found.
- SQL three-valued logic beyond TRUE against not TRUE (no modelled policy negates), `WITH CHECK`, the per-command policies of revision 22 on `notification_queue` (its SELECT reading is that of revision 21), and revisions from 30 on. Policies are identified by their table: each table has one.
- Deployments with row security switched off, and downgrades that disable it altogether (revisions 05 to 23).
- Values of a hit's other keys that are no text, and hits without a chunk id.
- Scores and clocks as floating point; they are reals, or whole microseconds where the code rounds.
- The patterns for facts, citation markers and e-mail addresses, `compress_context`, `split_answer_sections`, folding of names, hashing and Fernet: parameters or free constructors.
- Cutting the history to twelve turns and each turn to 3000 characters; `strip_source_metadata`, evidence attachment and usage logging after a cache hit.
- `suggest_department` and the queries behind `users_by_email` and `company_departments`; their results are the directory passed in.
- SQLAlchemy's expiry of objects after a rollback, and lookups that raise outside the guarded call of the approval run.
- The retry delay the Redis limiter reports.
- Accounts created or deleted by others while replicas race for the first administrator.
- Stored texts that are no ciphertext at all, which decrypt to nothing.
- The choice between an explicit database URL and its parts in `model_post_init`; invalid UTF-8 in a password.
- HTTP routes, prompts, retrieval, embeddings, telemetry, settings validation, retention and schema DDL.
