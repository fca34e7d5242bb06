# Citadel: verified models of budget, quota, audit and trust logic

Citadel is a governance runtime for AI agents. It limits what agents may spend, keeps an audit
trail meant to show tampering, and rates agents by trust. This project models that logic in Dafny
and proves what it promises. `dafny verify dfyconfig.toml` checks all of it.

- **Money.** `Calendar` holds UTC dates and the daily, weekly and monthly windows over them;
  `Budgets` decides a request against a set of budgets; `CostLedger` is the cost service over its
  tables; `TopUps` holds concurrent top-ups under a row lock; `CostProtocol`, `CostOvershoot` and
  `CostBounds` hold check and record as separate steps of any number of requests; `Quota` and
  `QuotaBounds` do the same for the monthly call counter; `Estimator` turns tokens into cents. `Tally` sums what
  requests in progress may still add.
- **Audit.** `AuditChain` is the hash-linked log and its concurrent appenders; `Anchoring` and
  `AnchorProperties` are the signed rolling roots; `Evidence` is the hash of JSON texts written back
  to back, over `Json`, the writer, `JsonReader`, a reader written from the grammar of RFC 8259 that
  knows nothing of the writer, and `JsonDecodability` and `JsonAscii`, which relate the two;
  `Explorer` is the link walk; `Lineage` is the pair of recursive queries.
- **Trust and keys.** `Trust`, `TrustLedger` and `TrustEngine` are scores, bands and the
  append-only snapshot ledger; `ApiKeys` and `KeyManager` are the key settings, their two parsers
  and the manager, over `PyText`. `Hashing` and `Common` are shared vocabulary.

Where the source updates state the model does too: classes with fields and methods whose contracts
state the whole new state, and loops with invariants. Concurrent behaviour is a state machine whose
steps interleave in any order. Every lemma carries `{:induction false}`, so no proof rests on
automatic induction.

Assumptions that matter for reading the results:

- A hash is any function to 32-byte digests. It is never assumed injective, which would be false;
  a lemma asks for freedom from collisions on the messages that are really hashed. A signature is a
  function of the message, as with HMAC.
- Money is in whole cents, scores, prices and ratios are exact rationals. Tables are sequences or
  maps, a transaction's statement is one atomic step, and a clock reading is a parameter.

Four promises hold under a condition only. Each condition is proved to be exact:

- An anchor that `sign_batch` returns passes verification under every continuation if and only if,
  when it is stored, its root is not stored yet, its range ends within the log and no event has come
  into it since it was read, or the root is stored over a range that ends within the log and still
  matches (`AnchorLastsWhen`). That the range of the call itself ends within the log is not enough
  (`RangeWithinTheLogIsNotEnough`). Runs all of whose signings end within the log they read meet the
  condition always (`EveryAnchorLasts`), and so does `sign_all_unanchored` within them
  (`EveryBatchLasts`).
- An immediate second call of `sign_all_unanchored` finds nothing if and only if the first had nothing
  to sign or no row had the root of its last batch before (`SecondCallFindsNothing`). With one tenant
  id that is always so, whatever was signed before (`OneTenantCatchesUp`); a second tenant can meet the
  other case (`StoredRootHoldsBack`).
- The overshoot bounds on quotas and budgets hold over every run within a load if and only if a request
  counts as in flight from working out the period, or, for budgets, requests project nothing
  (`QuotaBounds.BoundedWhen`, `CostBounds.BoundedWhen`). Counted from the read of the counter or spend
  there is no bound at all: the period is worked out before the read, and one request at a time takes
  the counter or spend to any number (`CountingFromTheReadBoundsNothing`). Runs that read no period
  after its end keep the bounds under that counting too.
- The two parsers of the key settings agree if and only if no segment has white space right before its
  colon (`ParsersAgreeWhen`). With it, a key that `valid_api_keys` lists may be refused
  (`ListedKeyRefused`); a key is accepted if and only if it is not empty and the settings hold it to
  the character (`LoadedAccepts`).

## Model

| member | source | states |
|---|---|---|
| Calendar.LeapDaysCount | apps/runtime/citadel/commercial/cost_controls.py:137-161 | Counting year by year, the days before a year are 365 each plus a leap day every 4th, not every 100th, but every 400th year |
| Calendar.MonthDaysCount | apps/runtime/citadel/commercial/cost_controls.py:145-161 | The days before a month follow one closed form, thirty and four sevenths a month rounded less what February lacks, which fixes the length of each month |
| Calendar.BillionthSecond | apps/runtime/citadel/commercial/cost_controls.py:145-154 | Day numbers, weekdays and microseconds agree with known dates: the billionth second after the start of Thursday 1 January 1970 falls on Sunday 9 September 2001 at 01:46:40 |
| Calendar.OrdinalFollowsOrder | apps/runtime/citadel/commercial/cost_controls.py:145-161 | Day numbers follow the calendar order of dates across month, leap-day and year ends, one to one; `MonthDaysCount` and `LeapDaysCount` say which they are |
| Calendar.FromOrdinalInverts | apps/runtime/citadel/commercial/cost_controls.py:149-154 | Adding days to a date lands on the one date with that day number, whose closed form `MonthDaysCount` and `LeapDaysCount` give |
| Calendar.WindowIsThePeriod | apps/runtime/citadel/commercial/cost_controls.py:137-161 | A moment lies in the window of another if and only if both fall into the same day, Monday-based week or month |
| Calendar.WindowsTile | apps/runtime/citadel/commercial/cost_controls.py:137-161 | Every moment lies in its window; the windows of two moments are equal or have no moment in common |
| Calendar.WindowsAreAdjacent | apps/runtime/citadel/commercial/cost_controls.py:147-161 | A window ends where the next period's begins, and windowing is idempotent at its start |
| Calendar.WindowExistsUnlessLast | apps/runtime/citadel/commercial/cost_controls.py:149-161 | A window fails to exist exactly in the period of 31 December 9999, where date arithmetic raises |
| Calendar.DaysNestInWeeksAndMonths | apps/runtime/citadel/commercial/cost_controls.py:147-161 | The daily window lies inside the weekly and the monthly one |
| Budgets.EvaluateBudgetSet | apps/runtime/citadel/commercial/cost_controls.py:220-270 | The loop over the budgets sorted by scope, whose order FirstStopDecides and AllowanceComesFromTheNarrowest state, stops at the first that raises or denies, and otherwise answers as the first of all |
| Budgets.FirstStopDecides | apps/runtime/citadel/commercial/cost_controls.py:246-263 | What stops the walk has the narrowest scope of all budgets that would stop it, API key before agent before project before tenant, ties in list order |
| Budgets.DenialNamesTheFirstExceeded | apps/runtime/citadel/commercial/cost_controls.py:176-263 | Valid budgets deny if and only if some spend plus projection passes its amount, and no other budget that would be passed has a narrower scope than the one named (API key, agent, project, tenant), nor the same and an earlier place |
| Budgets.AllowanceComesFromTheNarrowest | apps/runtime/citadel/commercial/cost_controls.py:187-269 | An allowed request gets the decision of the budget of narrowest scope, first of its scope, with a warning exactly if spend and projection come within a cent of the warning percentage; with no budget it passes without one |
| Budgets.RaisesWhen | apps/runtime/citadel/commercial/cost_controls.py:104-119 | The set raises if and only if the first budget to stop it has an amount below 1, a percentage outside 1 to 100, no scope value or, for a tenant budget, another one than the tenant; behind a denial a bad field goes unnoticed |
| Budgets.ScopeKeysInjective | apps/runtime/citadel/commercial/cost_controls.py:253 | Budgets without id that share a key share scope type and value |
| Budgets.OrderedContents | apps/runtime/citadel/commercial/cost_controls.py:246-250 | Sorting by specificity neither drops nor repeats a budget |
| Budgets.VerdictIsMonotone | apps/runtime/citadel/commercial/cost_controls.py:220-270 | The verdict does not depend on list order; a higher projection or more budgets can only turn it into a denial |
| Budgets.RaisingAnAmountLoosens | apps/runtime/citadel/commercial/cost_controls.py:189-217 | Raising an amount can only turn a denial into a pass |
| CostLedger.CheckedWhereCounted | apps/runtime/citadel/commercial/cost_controls.py:164-173 | A request is checked against exactly the budgets its spend will count towards, missing and empty labels included: those of its tenant whose value is its API key, actor, project or tenant |
| CostLedger.MatchesWhen | apps/runtime/citadel/commercial/cost_controls.py:603-630 | A budget, valid or not, is looked up by the one label its scope names, within its tenant; an empty label finds none but the tenant's |
| CostLedger.SpendIsConserved | apps/runtime/citadel/commercial/cost_controls.py:632-662 | In any window a tenant's spend is the sum over its projects (agents, API keys) plus what carries no such label |
| CostLedger.NarrowerSpendsNoMore | apps/runtime/citadel/commercial/cost_controls.py:639-662 | No narrower scope spends more than its tenant |
| CostLedger.DailySpendIsTheLeast | apps/runtime/citadel/commercial/cost_controls.py:632-662 | At any moment a scope's spend of the day is at most that of the week and of the month |
| CostLedger.CostControlService.CheckBudget | apps/runtime/citadel/commercial/cost_controls.py:393-425 | The service reads each matching budget's own window, decides as the ordered walk does and records the decision; nothing is recorded when no budget matches or the check raises |
| CostLedger.CostControlService.RecordEnforcement | apps/runtime/citadel/commercial/cost_controls.py:458-500 | Adds the decision to the enforcement rows, or raises and adds nothing when the projection is negative |
| CostLedger.EachItsOwnSpend | apps/runtime/citadel/commercial/cost_controls.py:410-417 | With distinct keys each budget is held against the spend of its own scope in its own window |
| CostLedger.CheckDeniesWhen | apps/runtime/citadel/commercial/cost_controls.py:393-425 | A check denies if and only if the projection is not negative and some budget that matches has recorded window spend plus projection above its amount |
| CostLedger.CostControlService.RecordSpend | apps/runtime/citadel/commercial/cost_controls.py:427-456 | A negative cost is refused without a trace; any other adds exactly its cost to every scope and window it falls into and to no other |
| CostLedger.CostControlService.TopUpTenantBudget | apps/runtime/citadel/commercial/cost_controls.py:321-391 | Every refusal leaves no trace, and a budget counts as missing if and only if none of the tenant has the id; otherwise one tenant-scope budget grows by the top-up and a row with old amount, new amount and stripped reason is recorded |
| TopUps.RefusedWhen | apps/runtime/citadel/commercial/cost_controls.py:122-134 | Each refusal and its exact condition: amount below 1, reason blank, reason over 1000 characters without the white space around it, role other than "executive" in any case |
| TopUps.HistoryAddsUp | apps/runtime/citadel/commercial/cost_controls.py:344-378 | If each adjustment takes over the amount the one before left, the last amount is the first plus all adjustments |
| TopUps.NoTopUpIsLost | apps/runtime/citadel/commercial/cost_controls.py:321-386 | Over every interleaving of select-for-update, update, commit and abort the adjustments of a budget form such a history from its first to its last amount, so no update is lost and no amount falls |
| TopUps.UndisturbedTopUp | apps/runtime/citadel/commercial/cost_controls.py:321-391 | A top-up that meets no other raises the amount and records the row if it is in order and names a tenant-scope budget of its own tenant, and else leaves the tables alone |
| TopUps.LockPassesOn | apps/runtime/citadel/commercial/cost_controls.py:325-338 | A transaction that gives up leaves the tables alone and the row, as it was, to whoever waits for it |
| CostProtocol.SpendInIsCurrentSpend | apps/runtime/citadel/commercial/cost_controls.py:632-662 | The spend the query returns for a moment's window is the spend of that moment's period |
| CostProtocol.NoSpendAhead | apps/runtime/citadel/commercial/cost_controls.py:427-456 | Nothing is recorded in a period that has not begun |
| CostProtocol.UndisturbedCheck | apps/runtime/citadel/commercial/cost_controls.py:393-425 | A request whose steps nobody interrupts is let through if and only if the service's own check lets it through, and writes no spend up to then |
| CostProtocol.AmountsFollowTopUps | apps/runtime/citadel/commercial/cost_controls.py:321-386 | Over every run a budget stays as it is but for its amount, which grows by exactly the top-ups, and only if it is of tenant scope |
| CostProtocol.CreatedBudgetIsThere | apps/runtime/citadel/commercial/cost_controls.py:279-318 | A budget that is valid and new is there from its creation on |
| CostProtocol.AbandonedIsOver | apps/runtime/citadel/commercial/cost_controls.py:393-456 | A request that goes away decides and records nothing any more |
| CostOvershoot.DecideWeight | apps/runtime/citadel/commercial/cost_controls.py:419-425 | A request that is allowed exceeds none of the budgets it was checked against |
| CostOvershoot.ReadKeeps | apps/runtime/citadel/commercial/cost_controls.py:411-417 | Reading the spend of a budget keeps spend plus what requests in flight may add within the bound |
| CostOvershoot.StepKeeps | apps/runtime/citadel/commercial/cost_controls.py:321-456 | Every step of every request, every top-up, new budget and tick of the clock keeps it |
| CostOvershoot.OvershootIsBounded | apps/runtime/citadel/commercial/cost_controls.py:393-456 | Over every interleaving with at most k requests in flight for a budget, each projecting at most m, spend recorded in any of its windows stays within the amount plus (k - 1) times the lesser of m and the amount, period rollovers included; with k = 1 it never passes the amount. In flight from working out the window; from the read if m is 0 or no window is over when read |
| CostBounds.BoundIsMet | apps/runtime/citadel/commercial/cost_controls.py:393-456 | For every valid budget and every load some run reaches the bound exactly |
| CostBounds.CountingFromTheReadBoundsNothing | apps/runtime/citadel/commercial/cost_controls.py:411-417 | With requests counted from the read only, one at a time of a single cent takes the spend of any valid budget to any number across the turn of its period |
| CostBounds.BoundedWhen | apps/runtime/citadel/commercial/cost_controls.py:393-456 | For every valid budget and load the bound holds over every run if and only if requests count from working out the window or project nothing |
| Quota.CommercialMiddleware.Dispatch | apps/runtime/citadel/commercial/middleware.py:59-98 | One request at a time: refused without counting when payment or quota forbid it, else counted once in the current month and in no other, never past the limit |
| Quota.MonthsAreCalendarMonths | apps/runtime/citadel/commercial/usage_service.py:40-43 | Two moments count towards one billing period if and only if they share year and month, that is, if one lies in the monthly window of the other; periods follow time |
| Quota.UndisturbedRequest | apps/runtime/citadel/commercial/middleware.py:59-98 | A request whose steps nobody interrupts adds one to the current month and nothing to any other if the counter is below the limit, and nothing at all if not |
| Quota.AbandonedIsOver | apps/runtime/citadel/commercial/middleware.py:59-98 | A request that goes away counts nothing any more |
| Quota.QuotaOvershootIsBounded | apps/runtime/citadel/commercial/usage_service.py:19-43 | From any counters within the limit and over every interleaving of read, check and increment with at most k requests in flight no month's counter passes limit + k - 1, also for requests that read in one month and count in the next. In flight from working out the month; from the read if no month is over when read |
| QuotaBounds.BoundIsMet | apps/runtime/citadel/commercial/middleware.py:59-98 | For every limit and load some run reaches limit + k - 1 exactly |
| QuotaBounds.CountingFromTheReadBoundsNothing | apps/runtime/citadel/commercial/usage_service.py:26-29 | With requests counted from the read only, one at a time takes the counter to any number under every limit across a turn of the month |
| QuotaBounds.BoundedWhen | apps/runtime/citadel/commercial/usage_service.py:19-43 | For every limit and load the bound holds over every run if and only if requests count from working out the month |
| Estimator.RoundIsNearest | apps/runtime/citadel/commercial/cost_estimator.py:18-21 | Rounding gives the nearest cent, ties to even, and nothing else is that |
| Estimator.PriceList | apps/runtime/citadel/commercial/cost_estimator.py:18-60 | A million tokens in and out cost 300 and 1,500 cents for the opus and sonnet models by name and 80 and 400 for haiku; any other provider or model has no estimate |
| Estimator.EstimateIsMonotone | apps/runtime/citadel/commercial/cost_estimator.py:18-21 | More tokens of either kind never lower the estimate |
| Estimator.NamedEstimateIsMonotone | apps/runtime/citadel/commercial/cost_estimator.py:36-60 | For a provider and model by name: known or not whatever the tokens, and more tokens never lower the estimate |
| Estimator.NamedSplittingCostsLittle | apps/runtime/citadel/commercial/cost_estimator.py:36-60 | The splitting bound for a model by name; for an unknown one neither the sum nor the whole is estimated |
| Estimator.SplittingCostsLittle | apps/runtime/citadel/commercial/cost_estimator.py:18-21 | However a workload is split into n calls, their estimates add up to within (n + 1) / 2 cents of the single estimate |
| Estimator.HalfCentCallsLookFree | apps/runtime/citadel/commercial/cost_estimator.py:18-28 | Half a cent rounds to nothing, so that bound is all but met by any number of calls of 1,250 haiku output tokens, each estimated as free |
| AuditChain.Repository.SaveAuditEvent | apps/runtime/citadel/core/repository.py:382-407 | Appends one event with a larger id that names the newest event's hash, or 64 zeros in an empty log; a repeated hash is refused and the log unchanged |
| AuditChain.EveryRunIsOneChain | apps/runtime/citadel/core/repository.py:382-407 | In every interleaving of lock, read, insert, commit and abort the committed log is one chain with increasing ids whose first event carries the text of 64 zeros |
| AuditChain.GenesisText | apps/runtime/citadel/core/repository.py:389-394 | A digest is the marker of a first event if and only if its text is 64 zeros |
| AuditChain.UndisturbedTransaction | apps/runtime/citadel/core/repository.py:382-407 | A transaction that nobody interrupts appends the one row `SaveAuditEvent` appends, or none for a repeated hash, uses up one id and frees the lock |
| AuditChain.LockPassesOn | apps/runtime/citadel/core/repository.py:379-386 | A transaction that gives up leaves the log alone and the lock to whoever waits |
| AuditChain.LaterEventsHaveLargerIds | apps/runtime/citadel/core/repository.py:382-407 | Whatever runs on from a reachable log only appends, with larger ids |
| AuditChain.ForkedOnlyThroughGenesis | apps/runtime/citadel/core/repository.py:389-400 | Two events share a predecessor if and only if an event with a successor hashed to 64 zeros itself |
| Anchoring.FoldInjective | apps/runtime/citadel/audit_anchoring.py:100-105 | The rolling fold tells any two lists of hashes apart, of whatever lengths, unless two messages hashed on the way collide |
| Anchoring.AuditAnchorService.ComputeMerkleRoot | apps/runtime/citadel/audit_anchoring.py:82-105 | The loop computes the fold over exactly the hashes in the id range, in order |
| Anchoring.AuditAnchorService.SignBatch | apps/runtime/citadel/audit_anchoring.py:155-222 | Returns root, range, count and signature of the range and changes one row: a new root is stored with them, a root already stored keeps range, count and tenant and takes the signature |
| Anchoring.AuditAnchorService.VerifyRoot | apps/runtime/citadel/audit_anchoring.py:309-338 | True if and only if the root is stored, its stored range still folds to it and the signature is that of the root |
| Anchoring.AuditAnchorService.SignAllUnanchored | apps/runtime/citadel/audit_anchoring.py:224-267 | Ends, with consecutive ranges from the tenant's last anchored id + 1 to the newest event, each of the batch size or up to the end; a batch size below one is refused with nothing stored, unless there is no backlog |
| Anchoring.TilesAreBatches | apps/runtime/citadel/audit_anchoring.py:255-267 | Batches of that shape, signed as `sign_batch` does, are determined by log, start and batch size |
| AnchorProperties.AnchorLastsWhen | apps/runtime/citadel/audit_anchoring.py:155-338 | An anchor returned passes verification after every later appends and signings if and only if, when stored, its root was new, the range ended within the log and nothing had come into it since it was read, or the root was stored over a range of which that holds; events may be appended between computing and storing the root |
| AnchorProperties.EveryAnchorLasts | apps/runtime/citadel/audit_anchoring.py:309-338 | In a run all of whose single signings end within the log as they read it, every anchor returned keeps passing verification whatever comes later |
| AnchorProperties.AppendsDoNotDisturb | apps/runtime/citadel/audit_anchoring.py:171-222 | For a range within the log root, count and signature do not depend on what is appended before they are computed |
| AnchorProperties.EveryBatchLasts | apps/runtime/citadel/audit_anchoring.py:224-338 | In such a run so does every anchor that signing the backlog returns |
| AnchorProperties.LandingBreaks | apps/runtime/citadel/audit_anchoring.py:309-338 | A stored root that matches stops verifying once an event lands in its stored range |
| AnchorProperties.RangeWithinTheLogIsNotEnough | apps/runtime/citadel/audit_anchoring.py:197-201 | A range within the log can break: its root was stored before over a range that is not |
| AnchorProperties.TamperingShows | apps/runtime/citadel/audit_anchoring.py:309-338 | Against any other log an anchor verifies if and only if its range holds the same hashes in the same order |
| AnchorProperties.TilesAreConsecutive | apps/runtime/citadel/audit_anchoring.py:255-267 | Each batch starts right after the one before, none is longer than the batch size, all but the last are exactly that long |
| AnchorProperties.BatchesCoverTheBacklogOnce | apps/runtime/citadel/audit_anchoring.py:236-267 | The batches hold every event of the backlog once, in log order, and their counts add up to it |
| AnchorProperties.BacklogAnchoredWhen | apps/runtime/citadel/audit_anchoring.py:191-267 | Signing the backlog anchors the newest event for the tenant if and only if there was no backlog or no row had the root of its last batch |
| AnchorProperties.SecondCallFindsNothing | apps/runtime/citadel/audit_anchoring.py:236-267 | An immediate second call returns no batch in exactly these cases, whatever rows of other tenants there are and whichever ids are missing |
| AnchorProperties.OneTenantCatchesUp | apps/runtime/citadel/audit_anchoring.py:224-267 | After any run of appends and signings under one tenant id, of whatever ranges, signing the backlog leaves a second call nothing |
| AnchorProperties.StoredRootHoldsBack | apps/runtime/citadel/audit_anchoring.py:191-211 | A witness with two tenants: a root stored by the first keeps its tenant, and the second's call stays where it was |
| JsonDecodability.TextPrefixFree | apps/runtime/citadel/audit_evidence.py:77-78 | No compact sorted-key JSON text is the start of another value's, numbers only up to a delimiter, so what follows is determined |
| JsonDecodability.TextReadsBack | apps/runtime/citadel/audit_evidence.py:77 | Reading the text of any value by the grammar of RFC 8259, whatever follows it, gives back the value and leaves what follows: literal names, numbers, short and `\u` escapes, surrogate pairs, arrays, and objects with members in rising key order |
| Evidence.EventTextReadsBack | apps/runtime/citadel/audit_evidence.py:26-33 | The text of an event reads back as an object of exactly five fields, each holding the event's own value, `null` for a missing actor or time |
| Hashing.HexReadsBack | apps/runtime/citadel/audit_evidence.py:79 | Each byte of a digest is what its two lower-case hexadecimal digits stand for, high digit first |
| Evidence.ComputeRootHash | apps/runtime/citadel/audit_evidence.py:73-79 | Feeding the events one by one hashes the concatenation of their compact JSON texts, which `TextReadsBack` and `EventTextReadsBack` determine, and prints the digest in hexadecimal |
| Evidence.StreamInjective | apps/runtime/citadel/audit_evidence.py:26-33 | Although nothing separates one event's text from the next, the bytes hashed determine the events, their number and every field |
| Evidence.VerifyAcceptsOnlyTheOriginal | apps/runtime/citadel/audit_evidence.py:67-79 | A bundle with the root hash of given events verifies if and only if it carries exactly those events in that order |
| Explorer.VerifyChain | apps/runtime/citadel/dashboard/audit_explorer.py:328-356 | The walk reports valid exactly when the first entry has no predecessor or the marker "genesis" and every later one names the hash before it, and lists exactly the positions where that fails |
| Explorer.OneErrorPerBrokenLink | apps/runtime/citadel/dashboard/audit_explorer.py:329-343 | There is one error for each broken link, in order, and no other |
| Explorer.OnlyPrefixesPass | apps/runtime/citadel/dashboard/audit_explorer.py:328-356 | Of the entries of a sound chain only its prefixes pass: an interior deletion, repetition or reordering is always caught |
| Lineage.AncestorsAre | apps/runtime/citadel/core/repository.py:533-591 | The ancestors query returns at level j exactly the decision j parent links up, to the depth bound, cycles included |
| Lineage.DescendantsAre | apps/runtime/citadel/core/repository.py:593-651 | The descendants query returns at level j exactly the decisions j links down; `RowsOnceInLevelOrder` gives their order |
| Lineage.QueriesAreInverse | apps/runtime/citadel/core/repository.py:533-651 | Without tenant filter the two are exact inverses at every level and depth; with one, each side must also pass the filter itself |
| Lineage.RowsOnceInLevelOrder | apps/runtime/citadel/core/repository.py:533-651 | Both queries list rows by rising level, the decision asked for first at level 0 or nothing at all if it is filtered out, and no row twice, on cyclic links too |
| Lineage.AncestorsAreOneALevel | apps/runtime/citadel/core/repository.py:545-589 | Ancestors come one a level without gaps, at most depth + 1 of them |
| Lineage.AcyclicMeansNoRepeats | apps/runtime/citadel/core/repository.py:533-651 | On acyclic links neither query lists a decision twice |
| Trust.BandsDivideTheScores | apps/runtime/citadel/agent_identity/trust_bands.py:40-88 | The bands divide the scores from 0 to 1 by their least and greatest scores and rank in the order of their least scores, and an override's score lies in its band |
| Trust.ScoreIsTheSum | apps/runtime/citadel/agent_identity/trust_score.py:369-409 | The score is the sum of the factors, or 0 if that is negative; the upper clamp never binds and every score has a band |
| Trust.ScoreInPoints | apps/runtime/citadel/agent_identity/trust_score.py:369-409 | Over whole numbers the score is 3,000 points for identity, up to 3,500 for health and 3,500 for the record, less 3,500 for quarantine, 1,500 for over a thousand actions, 1,200 a violation and 1,000 for spending over nine tenths of the token budget |
| Trust.ScoreIsMonotone | apps/runtime/citadel/agent_identity/trust_score.py:369-409 | Violations, spend, actions and quarantine never raise score or band, health and verification never lower them |
| Trust.TopBandNeeds | apps/runtime/citadel/agent_identity/trust_score.py:381-407 | Nobody scores into the top band unverified, quarantined or with two violations, nor with one and over nine tenths of the token budget |
| TrustLedger.SupersededKeepsLedger | apps/runtime/citadel/agent_identity/trust_score.py:431-497 | Expiring the active snapshot and inserting one that names it keeps each actor's snapshots one list with one active end |
| TrustLedger.IntervalsDoNotOverlap | apps/runtime/citadel/agent_identity/trust_score.py:453-497 | An actor's validity intervals do not overlap |
| TrustLedger.OneActive | apps/runtime/citadel/agent_identity/trust_score.py:413-429 | No actor has two active snapshots |
| TrustLedger.PointersVisitEverySnapshot | apps/runtime/citadel/agent_identity/trust_score.py:466-497 | Following the supersedes pointers from a snapshot visits exactly its actor's snapshots up to then, newest first and never in a circle |
| TrustEngine.TrustSnapshotEngine.ComputeAndStore | apps/runtime/citadel/agent_identity/trust_score.py:83-196 | Adds one active row with the computed score and its band, or probation as long as its end is still to come, and caches that band; an unknown agent leaves no trace |
| TrustEngine.TrustSnapshotEngine.OperatorOverride | apps/runtime/citadel/agent_identity/trust_score.py:238-290 | Stores the target band with a score inside it, caches it and ends probation |
| TrustEngine.TrustSnapshotEngine.CreateSnapshot | apps/runtime/citadel/agent_identity/trust_score.py:452-497 | Ends the superseded row and inserts the new one, in place |
| TrustEngine.EveryRunKeepsTheLedger | apps/runtime/citadel/agent_identity/trust_score.py:114-156 | Over every sequential run the ledger stays well formed, cached bands agree with active snapshots, and every band is that of its score or probation |
| TrustEngine.RunsOnlyAppend | apps/runtime/citadel/agent_identity/trust_score.py:431-497 | A run never drops or rewrites a snapshot but for giving an active one its end |
| PyText.SplitUndoesJoin | apps/runtime/citadel/auth/api_key.py:91-99 | Splitting at a separator undoes joining pieces that do not hold it |
| PyText.JoinUndoesSplit | apps/runtime/citadel/auth/api_key.py:91-99 | Joining the pieces of any text undoes splitting it, and no piece holds the separator |
| PyText.PaddingIsStripped | apps/runtime/citadel/auth/api_key.py:92-99 | White space around a text makes no difference to what stripping leaves |
| PyText.LowerIs | apps/runtime/citadel/commercial/cost_controls.py:133-134 | Lower-casing maps the ASCII capitals to their small letters in order and leaves every character but these and the Kelvin sign alone |
| ApiKeys.ParseSettings | apps/runtime/citadel/auth/api_key.py:87-111 | The loop, early return included, collects key and scopes of every non-blank segment in order |
| ApiKeys.ValidApiKeys | apps/runtime/citadel/config.py:113-127 | The loop collects the stripped key of every non-blank segment in order |
| ApiKeys.ListedAreStripped | apps/runtime/citadel/config.py:118-127 | On any text the two parsers find the same keys in the same order but that the second strips each |
| ApiKeys.ParsersAgreeWhen | apps/runtime/citadel/auth/api_key.py:91-109 | They agree if and only if no segment has white space right before its colon |
| ApiKeys.SegmentPaddingIsIgnored | apps/runtime/citadel/auth/api_key.py:91-94 | White space around segments makes no difference to either parser |
| ApiKeys.BlankSegmentIsSkipped | apps/runtime/citadel/auth/api_key.py:92-94 | Nor do blank segments, wherever they stand |
| ApiKeys.ScopesAre | apps/runtime/citadel/auth/api_key.py:97-99 | The scopes granted are exactly the pieces that are not blank, without the white space around them |
| ApiKeys.PrintedSettingsReadBack | apps/runtime/citadel/auth/api_key.py:78-111 | Printing well-formed keys with their scopes, or bare, and parsing the text gives them back with both parsers; a bare key is granted "admin" |
| KeyManager.SettingsRoundTrip | apps/runtime/citadel/auth/api_key.py:78-111 | The manager loaded from printed settings of distinct keys holds each with exactly its scopes, accepts it, and holds nothing else |
| KeyManager.LoadedAccepts | apps/runtime/citadel/auth/api_key.py:130-160 | After loading a key is accepted if and only if it is not empty and the settings hold it to the character |
| KeyManager.ListedKeysAreAccepted | apps/runtime/citadel/config.py:113-127 | Without white space before a colon every non-empty key that the second parser lists is accepted |
| KeyManager.ListedKeyRefused | apps/runtime/citadel/auth/api_key.py:97-104 | With it one need not be: "k :read" lists `k` but stores `k` and a space |
| KeyManager.ApiKeyManager.Validate | apps/runtime/citadel/auth/api_key.py:130-160 | Answers with the stored key unless it is empty, unknown or expired, and changes its time of last use only |
| KeyManager.ApiKeyManager.AddKey | apps/runtime/citadel/auth/api_key.py:173-195 | Refuses an existing key; otherwise stores it under its fingerprint |
| KeyManager.AddedKeyIsAcceptedUntil | apps/runtime/citadel/auth/api_key.py:35-195 | Whatever is done in between, an added key that is not revoked is accepted up to and including the moment it expires, or always, with the scopes it was given or else "read" |
| KeyManager.ApiKeyManager.RevokeKey | apps/runtime/citadel/auth/api_key.py:197-202 | Removes exactly the key with that fingerprint and says whether there was one |
| KeyManager.StoredKeyStaysAsItIs | apps/runtime/citadel/auth/api_key.py:130-202 | Over every run a stored key keeps scopes, expiry and all but its time of last use until it is revoked |
| KeyManager.RevokedKeyStaysRefused | apps/runtime/citadel/auth/api_key.py:197-202 | A revoked key is refused until it is added again, whatever else is done |
| KeyManager.ExpiredKeyStaysRefused | apps/runtime/citadel/auth/api_key.py:35-195 | Once the moment a key expires has passed it is refused from then on and cannot be added over, only revoked |

## Left out

- Hash functions, HMAC and Ed25519 themselves: parameters, with freedom from collisions on the messages hashed where a lemma needs it. Key identifiers, external anchors and signing times of roots carry no property.
- `save_audit_event` is taken as the only writer of the chain; a database trigger that recomputes hash columns is not modelled, and an event's hash is an input because it covers a random nonce.
- Anchoring.AuditAnchorService.SignBatch: nothing is appended during the call, though the source reads, counts and stores in separate statements; the steps of AnchorProperties compute a root from any earlier log, and the event count is taken with it.
- Anchoring.AuditAnchorService.SignAllUnanchored: the log stands still during the call; AppendsDoNotDisturb shows that its batches are the same whatever is appended meanwhile.
- AnchorProperties.SecondCallFindsNothing: for a log with at least one event; an empty one has nothing to sign.
- `verify_chain` of the anchoring service and `verify_audit_chain` of the repository run database functions that are not part of this model. Inserting foreign entries into the explorer's walk is not caught by links alone and not claimed.
- Reading JSON: `JsonReader` reads one spelling of each value only, the compact one with rising keys; it is a yardstick for the writer, not a model of `json.loads`.
- JSON numbers with a fraction, lone surrogates and keys that are not strings do not occur in the payloads modelled. An event's timestamp is its ISO text.
- `export_decision` looks a decision up by the id of an action; the evidence results rest on the root hash and `verify` only.
- Lineage reads the alias `desc` as an ordinary name. The tenant filter is applied to the decision asked for only, as in the queries.
- Calendar: time zones other than UTC and naive times are converted before the model begins.
- CostLedger.CostControlService.CheckBudget: all its reads happen at one moment; CostProtocol has them one by one. The query orders no rows, so among matching budgets of one scope the model takes them as the table lists them. Currency, names, free-text reasons, metadata and the audit row of a top-up carry no property here.
- CostLedger.CheckDeniesWhen: for moments whose windows end by year 9999; beyond it the check raises, as CheckBudget states.
- The bounds of the decision's period are those of Calendar and not repeated in the decision. The warning threshold is computed over exact rationals instead of floats.
- CostProtocol: an event carries the time of its insert; its transaction's earlier start is not told apart. Budgets are not deactivated or deleted while a run lasts, since no code does so. A caller that records more than it projected, or without being allowed, is outside the bound.
- Quota: one tenant with a fixed limit of at least one, and nothing counted ahead for months to come. Exempt paths and requests whose entitlements cannot be resolved pass uncounted and are not part of this model.
- Estimator: prices and products over exact rationals instead of floats.
- TrustEngine: sequential runs only, since snapshots are read and written without a lock. The set of agents is fixed during a run, audit records are not stored, and the database's check on upper-case band names and its reference from snapshots to actors are not modelled; the code writes lower-case names.
- `is_band_transition_allowed` and `get_transition_reason_code` are not used to guard anything and carry no property here; TrustLevel, evaluate_all and the deprecated scorer only forward.
- KeyManager: `has_scope` is a membership test and left out. Keys loaded from one settings text share one creation time. The persistent key service and its cache are not part of this model.
- Dashboards, routes, SDK clients, the policy kernel, approvals, kill switches and billing adapters are not part of this model.
