# Orgmetra: bitemporal HR kernel, People transactions and job-analysis documents

Orgmetra keeps HR facts with two half-open intervals each: when a fact is effective (days) and when it was recorded
(instants). This project models three parts of it in Dafny and proves what they are for.

**The bitemporal kernel** (`Intervals`, `Facts`, `Resolution`, `Coverage`, `Employment`, `Allocation`, `Assignment`,
`History`, `Organization`, `KernelMeaning`, `Workforce`, `WorkforceMeaning`, `WorkforceBounds`). The checks are fast
forms of statements over infinitely many days: the greedy cursor of interval coverage, the few probe days of the
capacity check, pairwise tests for contradictions, a walk with a seen-set for cycles. Each is proved equivalent to the
statement it stands for, and the workforce snapshot built from all of them is proved to count different people and
employments, to be bounded and to be independent of the order of its inputs.

**The People mutation transactions** (`People`, `PeopleSteps`, `PeopleInvariant`, `PeopleCommit`, `PeopleSafety`,
`PeopleSystem`, `PeopleKnowledge`, `PeopleMeaning`, `PeopleRuns`, `PeoplePort`). Employment, position and assignment
creates and confirmed hires run as interleaved statements over shared committed tables, as READ COMMITTED transactions
do: each statement reads the tables committed at that moment. A transaction takes the idempotency-key lock, reads the
replay row, locks the person's conversion row, for an assignment locks the position row, reads the clock after its
locks, reads the conflicting facts, runs the kernel check, and inserts its fact, audit event and key row. Any
transaction may roll back at any time. Proved: the interleaving refines a system of atomic creates, the kernel's
capacity and exclusivity rules hold at every coordinate of every reachable state, keys are answered once and alike and
only with stored rows that carry the request, rows are conserved, there is no deadlock on the explicit locks, and
exactly which commits change what was known at a past cutoff. `PeoplePort` is the same adapter as a class that changes
the tables statement by statement when it runs alone.

**Job-analysis documents** (`Text`, `Sorting`, `JobAnalysis`, `JobDocument`, `JobRoundTrip`, `JobStore`, `JobPort`,
`JobPortSafety`, `JobDatabase`, `JobMeaning`, `JobTablesMeaning`). The parser, the printer and the row store undo each
other whatever the order of tasks, requirements, links and rows, and a stored snapshot stays readable with the document
that was accepted.

The lemmas named `...InFull` say what an operation answers on the columns of the rows, the fields of the commands and
the members of the documents alone, without the functions that compute it.

Two small cores stand beside them: the canonical allocation spelling (`AllocationSpelling`) and the explicit-stack JSON
depth check (`JsonNesting`).

## Conventions

- Days and instants are integers; an open end is `None`. Instants are already UTC.
- UUIDs are their integer values, so `sorted(key=str)` is integer order (the text form is fixed-width lower-case
  hexadecimal).
- Allocation ratios in the kernel are exact reals, which include every four-decimal value; sums are exact.
- A digest is the payload it covers. Equal digests then mean equal payloads.
- `ValueError` of a constructor or parser is `None`; kernel errors are named one by one.
- Library code on strings (URI splitting, regular expressions, UUID and ISO spellings) is a parameter. The round trips
  assume only that reading undoes writing for it (`JobDocument.Lawful`); `JobRoundTrip.AssumptionsCanBeMet` shows that
  such spellings and valid snapshots exist.
- The database assumptions are part of the step system: the clock never goes back, a commit is visible before its locks
  are released, unique keys reject duplicates, and a rollback restores the tables. The primary keys, the default
  concurrency code and the positive-ratio constraint are those of `database/migrations/0001_foundation_schema.sql`, the
  key uniqueness that of `database/migrations/0012_people_mutation_idempotency.sql`.

## Findings

- The probe days of the capacity check decide every target and every cap exactly when, on each day on which nothing
  starts, the allocations that end do not total below zero (`Allocation.ProbeDaysDecideEveryDay`); ratios that are never
  negative are enough (`Allocation.NonNegativeIsDecided`). When a negative allocation ends, the write check accepts an
  assignment to a seat that is overloaded afterwards (`Assignment.NegativeRatioHidesOverload`). The kernel's seat check
  does not test the sign; the command boundary and the database constraint keep negative ratios out.
- `parse_allocation_ratio` reads the token `0.0000`, which its own message excludes; the assignment command then refuses
  it (`AllocationSpelling.ZeroTokenIsRefused`, `AllocationSpelling.TokensAreCanonical`).
- What was known at a past cutoff can still change, because a fact is recorded at an instant before its commit:
  `PeopleKnowledge.LateCommitChangesThePast` is a run in which it does. It changes exactly when a transaction commits
  with a recorded instant not later than the cutoff (`PeopleKnowledge.RunChangesKnowledge`), and it is settled for good
  once no open transaction may still record by the cutoff (`PeopleKnowledge.SettledKnowledgeStays`).

## Model

| member | source | states |
|---|---|---|
| Intervals.Create | packages/hris-kernel/src/orgmetra_hris_kernel/intervals.py:11-29 | Accepts exactly the non-empty intervals: an open end, or an end strictly after the start; anything else is an interval error |
| Intervals.OverlapIsCommonPoint | packages/hris-kernel/src/orgmetra_hris_kernel/intervals.py:37-46 | The comparison of bounds decides exactly whether two half-open intervals share a day (or an instant) |
| Intervals.PairwiseMeetingHasCommonPoint | packages/hris-kernel/src/orgmetra_hris_kernel/assignment.py:116-127 | Helly in one dimension: three intervals that meet pairwise share a day, so a pairwise overlap test also decides days inside the target |
| Resolution.ResolveBitemporalFacts | packages/hris-kernel/src/orgmetra_hris_kernel/resolution.py:44-57 | The loop returns the facts of the tenant and identity visible at (day, cutoff), all of them, in input order |
| Resolution.ResolveSingleValuedFact | packages/hris-kernel/src/orgmetra_hris_kernel/resolution.py:78-93 | None, the only visible version, or the single-valued error exactly when two or more are visible |
| Resolution.SingleValuedIffConflictFree | packages/hris-kernel/src/orgmetra_hris_kernel/resolution.py:78-93 | Resolution fails at no coordinate at all if and only if no two versions of the identity overlap in both effective and recorded time |
| Coverage.UnionCovers | packages/hris-kernel/src/orgmetra_hris_kernel/assignment.py:30-40 | The greedy cursor walk terminates, and answers true if and only if every day of the target (open-ended targets included) lies in some interval, for any order and any overlaps |
| Coverage.EndingAfterShrinks | packages/hris-kernel/src/orgmetra_hris_kernel/assignment.py:30-40 | Its measure: the number of intervals that end after the cursor strictly drops when the cursor moves to the end of an interval |
| Employment.ExclusivityMeaning | packages/hris-kernel/src/orgmetra_hris_kernel/employment.py:38-64 | The pairwise check passes if and only if every version of the person carries a known concurrency code and, on every day, no two exclusive versions of different employments are visible at the cutoff |
| KernelMeaning.ExclusivityInFull | packages/hris-kernel/src/orgmetra_hris_kernel/employment.py:38-64 | On the columns: the code error when some version of the person has another code, else the overlap error when two different exclusive employments are known on one day, else pass |
| Allocation.AllocationProbeDays | packages/hris-kernel/src/orgmetra_hris_kernel/assignment.py:231-240 | Returns, ascending and each once, the target's first day and the start of every overlapping fact that starts inside the target |
| Allocation.ProbeDaysDecideEveryDay | packages/hris-kernel/src/orgmetra_hris_kernel/assignment.py:231-240 | Exactly when the sweep is right, for any ratios: a scope's visible total within a cap on the probe days is within it on every day, for every target (bounded or open) and every cap, if and only if no day on which nothing starts has endings that total below zero |
| Allocation.UnbalancedEndingMisleads | packages/hris-kernel/src/orgmetra_hris_kernel/assignment.py:231-240 | Where the endings of such a day do total below zero, the probe days of the two-day target around it miss an overload |
| Allocation.LatestProbe | packages/hris-kernel/src/orgmetra_hris_kernel/assignment.py:231-240 | For every day of the target there is a probe day, not later, on which every fact visible on that day is visible too |
| Allocation.LoadPermutation | packages/hris-kernel/src/orgmetra_hris_kernel/assignment.py:73-86 | A visible total does not depend on the order of the rows |
| Allocation.LoadKnownLater | services/people-api/src/orgmetra_people_api/postgres_mutations.py:764-783 | At a later cutoff a scope shows no more load when all its facts were already recorded at the earlier one: what makes the post-lock clock read safe for every later cutoff |
| Assignment.ValidateAssignmentEmploymentCoverage | packages/hris-kernel/src/orgmetra_hris_kernel/assignment.py:94-149 | Person match, pairwise contradiction, then coverage by eligible versions, with the error each stage raises |
| Assignment.EmploymentCoverageMeaning | packages/hris-kernel/src/orgmetra_hris_kernel/assignment.py:111-149 | Accepts if and only if every version of the named employment names the assignment's person and every day of the assignment has exactly one version visible at the cutoff, with an eligible status; and says which days each error stands for |
| Assignment.ContradictionIsADay | packages/hris-kernel/src/orgmetra_hris_kernel/assignment.py:116-127 | Two known versions overlap within the period if and only if some day of the assignment has two visible versions |
| Assignment.ValidateAssignmentPositionCoverage | packages/hris-kernel/src/orgmetra_hris_kernel/assignment.py:152-186 | Accepts if and only if every day of the assignment is covered by some staffable version of the position known at the cutoff |
| Assignment.ValidateAssignmentPortfolio | packages/hris-kernel/src/orgmetra_hris_kernel/assignment.py:43-91 | Ratio-range error if any ratio of the portfolio is out of range, over-allocation if the visible total exceeds one, otherwise pass |
| Assignment.ValidatePositionSeatCapacity | packages/hris-kernel/src/orgmetra_hris_kernel/assignment.py:189-228 | Over-allocation exactly when the seat's visible total exceeds one |
| Assignment.ValidateAssignmentWrite | packages/hris-kernel/src/orgmetra_hris_kernel/assignment.py:243-280 | Employment coverage, then position coverage, then the capacity checks; the capacity error reported is the one of the earliest failing probe day |
| Assignment.WriteAcceptanceMeaning | packages/hris-kernel/src/orgmetra_hris_kernel/assignment.py:243-280 | For any ratios, a write that meets the coverages, ratio range and both caps on every day of the assignment is accepted; and the check accepts if and only if they hold on every day (not only the probed ones) when the seat's endings inside the period are balanced |
| Assignment.WriteRulesPermuted | packages/hris-kernel/src/orgmetra_hris_kernel/assignment.py:243-280 | The rules a write must meet do not depend on the order of any of the three row lists |
| Assignment.NegativeRatioHidesOverload | packages/hris-kernel/src/orgmetra_hris_kernel/assignment.py:243-280 | An unbalanced ending: the write check accepts an assignment, coverages included, to a seat that is overloaded on one of its days |
| KernelMeaning.EmploymentCoverageInFull | packages/hris-kernel/src/orgmetra_hris_kernel/assignment.py:94-149 | On the columns, error by error: a version of the employment names another person; else two places of the list show it on one day; else some day lacks exactly one place showing it active or on leave; else pass |
| KernelMeaning.PositionCoverageInFull | packages/hris-kernel/src/orgmetra_hris_kernel/assignment.py:152-186 | On the columns: every day of the assignment has a version of its position, known at the cutoff, that is active or open |
| KernelMeaning.PortfolioInFull | packages/hris-kernel/src/orgmetra_hris_kernel/assignment.py:43-91 | Which error stands for which portfolio: a ratio on any day outside zero to one gives the range error; otherwise a sum above one over the facts visible at the coordinate gives the over-allocation error |
| KernelMeaning.SeatInFull | packages/hris-kernel/src/orgmetra_hris_kernel/assignment.py:189-228 | The seat error exactly when the ratios of the facts visible at the coordinate add up to more than one |
| KernelMeaning.WriteInFull | packages/hris-kernel/src/orgmetra_hris_kernel/assignment.py:243-280 | The answer of the write check on the columns, stage by stage and error by error; the capacity error is that of the earliest day, among the start and the starts inside, whose sums exceed one |
| KernelMeaning.WriteRulesInFull | packages/hris-kernel/src/orgmetra_hris_kernel/assignment.py:243-280 | What a write must meet on every one of its days, on the columns: covered by exactly one eligible version, staffable, ratios in range, both sums within one |
| History.CloseRecordedInterval | packages/hris-kernel/src/orgmetra_hris_kernel/correction.py:29-45 | Closes exactly an open version strictly after its start; the closed version is known exactly at the earlier instants it was known at before, and no other column changes |
| History.ThePastIsSettled | packages/hris-kernel/src/orgmetra_hris_kernel/correction.py:29-45 | After any run of inserts and closes, each at the current instant, reconstruction at every earlier cutoff returns the same facts in the same order, up to the recorded end |
| History.CorrectionKeepsSingleValues | packages/hris-kernel/src/orgmetra_hris_kernel/correction.py:35-45 | Closing a version at an instant and inserting disjoint replacements inside its effective period, recorded from that instant, keeps every coordinate single-valued |
| History.SeenInFull | packages/hris-kernel/src/orgmetra_hris_kernel/resolution.py:44-57 | What reconstruction returns of any kind of fact, on its columns: tenant, the named identity field, the day in the effective period and the cutoff in the recorded one |
| Organization.WalkUp | packages/hris-kernel/src/orgmetra_hris_kernel/organization.py:57-69 | One walk with its seen-set takes at most one step more than there are visible units, whatever it reports, and reports a cycle if and only if the chain from the unit never ends; then its path of parents leads back to one of its own units, and no rank falls along the links |
| Organization.HasCycle | packages/hris-kernel/src/orgmetra_hris_kernel/organization.py:55-69 | Walking from every unit finds a cycle if and only if no rank strictly falls along the parent links |
| Organization.EndingWalksRank | packages/hris-kernel/src/orgmetra_hris_kernel/organization.py:57-69 | If every chain of parents ends, a strictly falling rank exists |
| Organization.ResolveLinks | packages/hris-kernel/src/orgmetra_hris_kernel/organization.py:43-54 | The parent map holds exactly the units visible at the coordinate with their visible parents, or the single-valued error when a unit has two visible versions |
| Organization.ValidateOrganizationHierarchy | packages/hris-kernel/src/orgmetra_hris_kernel/organization.py:13-69 | Passes if and only if every unit is single-valued at the coordinate and the visible links are acyclic; a dangling or invisible parent ends its chain; otherwise the matching error; `KernelMeaning.HierarchyInFull` says the same on the columns |
| KernelMeaning.SingleValuedInFull | packages/hris-kernel/src/orgmetra_hris_kernel/organization.py:43-54 | The links resolve exactly when no two places of the list hold one unit of the tenant with the day in the effective and the cutoff in the recorded period |
| KernelMeaning.LinksInFull | packages/hris-kernel/src/orgmetra_hris_kernel/organization.py:43-54 | Then the parent map holds exactly the units with such a version, each with the parent that its version names |
| KernelMeaning.HierarchyInFull | packages/hris-kernel/src/orgmetra_hris_kernel/organization.py:13-69 | The outcome on the columns: the single-valued error for a unit shown twice, else pass exactly when some rank falls from every visible unit to its visible parent, else the cycle error |
| Workforce.ValidateVisibleEmploymentPortfolios | packages/hris-kernel/src/orgmetra_hris_kernel/workforce.py:162-185 | Passes if and only if every person visible at the coordinate passes the exclusivity rule there |
| Workforce.VisibleEmployments | packages/hris-kernel/src/orgmetra_hris_kernel/workforce.py:100-131 | One reportable version per employment, or the single-valued error exactly when some employment has two visible versions |
| Workforce.VisibleAssignments | packages/hris-kernel/src/orgmetra_hris_kernel/workforce.py:134-159 | The tenant's visible assignments in input order, or the single-valued error exactly when an assignment identity is visible twice |
| Workforce.CountStatuses | packages/hris-kernel/src/orgmetra_hris_kernel/workforce.py:290-302 | The status counter as ascending items: only statuses that occur, each with its number of employments |
| Workforce.TallyStaffing | packages/hris-kernel/src/orgmetra_hris_kernel/workforce.py:255-271 | The accumulation loop: coverage of each visible assignment, and the exact sets, FTE sum and count gathered |
| Workforce.BuildWorkforceCompositionSnapshot | packages/hris-kernel/src/orgmetra_hris_kernel/workforce.py:188-302 | Succeeds if and only if all six families of rules hold at the coordinate. The snapshot then states, of the two input lists: its headcount is of different people with a visible active or leave version, its unassigned count is of those without a visible assignment, its employment count is of different employments, its FTE and assignment count are summed over the visible assignments, each status that occurs has its own count, and tenant, day and cutoff are the arguments. Otherwise the error is one that a check of the first failing stage gives |
| Workforce.SnapshotPublishes | packages/hris-kernel/src/orgmetra_hris_kernel/workforce.py:290-302 | When employments are single-valued, the snapshot computed from lists and sets says exactly that of the inputs, so concurrent employments never count a person twice |
| WorkforceMeaning.BuildableInFull | packages/hris-kernel/src/orgmetra_hris_kernel/workforce.py:188-302 | The six rules on the columns: known codes and no two exclusive employments of a person, no employment and no assignment shown twice, every visible assignment covered on all its days, ratios in range, portfolio and seat sums within one |
| WorkforceMeaning.FailsInFull | packages/hris-kernel/src/orgmetra_hris_kernel/workforce.py:188-302 | The error of each broken rule on the columns, in the order of the stages |
| WorkforceBounds.SnapshotBounds | packages/hris-kernel/src/orgmetra_hris_kernel/workforce.py:255-302 | Of every snapshot built: staffed FTE is at most the employment count and at most the number of staffed positions; staffed plus unassigned people are the headcount; the published status counts sum to the employment count; exclusive employments are at most the headcount, which is at most the employment count |
| WorkforceBounds.FteByEmployment | packages/hris-kernel/src/orgmetra_hris_kernel/workforce.py:273-281 | The portfolio rule of each staffed employment bounds total FTE by the number of employments reported |
| WorkforceBounds.ExclusivesAreDistinctPeople | packages/hris-kernel/src/orgmetra_hris_kernel/workforce.py:235-240 | Reported exclusive employments belong to different people, so there are at most as many as people |
| WorkforceBounds.StaffedAreCounted | packages/hris-kernel/src/orgmetra_hris_kernel/workforce.py:255-264 | Every staffed person is in the reported population |
| WorkforceBounds.OrderDoesNotMatter | packages/hris-kernel/src/orgmetra_hris_kernel/workforce.py:188-302 | Permuting the employment list or the assignment list never changes whether the snapshot is built, nor any field of it |
| People.EqualPayloadsAnswerAlike | services/people-api/src/orgmetra_people_api/mutations.py:108-162 | Equal digested payloads name the same command up to generated identifiers, so one stored identity answers both alike; for a hire the identities are equal too. What makes payloads equal is `PeopleMeaning.DigestInFull` |
| PeopleMeaning.DigestInFull | services/people-api/src/orgmetra_people_api/mutations.py:108-162 | Two digests are equal if and only if actor, purpose, tenant and kind agree and so does every field the caller chose, named one by one for each kind; generated identifiers are free, and a hire has none |
| PeopleMeaning.ReplayIsBacked | services/people-api/src/orgmetra_people_api/postgres_hire.py:225-247 | A replay names stored rows that carry the fields of the replaying command: for a hire a conversion of that identity, candidate, person and employment, and that person's exclusive employment |
| PeopleMeaning.DecisionInFull | services/people-api/src/orgmetra_people_api/postgres_hire.py:335-365 | A hire is confirmed if and only if exactly one row holds the decision of the candidate in the tenant, and it is a confirmed hire by the acting actor for the purpose, taken no later than the transaction and than the first day |
| PeopleMeaning.InsertInFull | services/people-api/src/orgmetra_people_api/postgres_mutations.py:577-631 | The rows an accepted command appends, column by column, for all four kinds; every other row of every table is as it was |
| PeopleMeaning.RefusedInFull | services/people-api/src/orgmetra_people_api/postgres_mutations.py:577-631 | The inserts go through if and only if the key is new, a hired person is new, and no identifier or version occurs twice in its table afterwards |
| PeopleMeaning.EmploymentAcceptedInFull | services/people-api/src/orgmetra_people_api/postgres_mutations.py:553-603 | Accepted if and only if one conversion of the person is open, everything recorded of the person is known by the instant, and with the new version all codes are known and no day shows two exclusive employments |
| PeopleMeaning.AssignmentAcceptedInFull | services/people-api/src/orgmetra_people_api/postgres_mutations.py:743-797 | Accepted if and only if one conversion of the person is open, the rows of its employment and of its position are known by the instant, and on every one of its days the whole tables with the new row cover it and stay within one; so reading only the rows in question loses nothing |
| PeopleInvariant.StatementKeepsInv | services/people-api/src/orgmetra_people_api/postgres_mutations.py:546-631 | Every statement of every transaction before its insert keeps the transaction's invariant: what it read is still what the committed tables hold |
| PeopleInvariant.KernelNeedsPromise | services/people-api/src/orgmetra_people_api/postgres_mutations.py:784-793 | A passed kernel check on the rows in hand implies that the named employment belongs to the locked person and the named position exists |
| PeopleCommit.OneHolderPerPerson | services/people-api/src/orgmetra_people_api/postgres_mutations.py:56-66 | Two transactions that hold conversion locks of one person are the same: the conversion row lock excludes them |
| PeopleCommit.CommitKeepsOthers | services/people-api/src/orgmetra_people_api/postgres_mutations.py:546-837 | A commit keeps the invariant of every other open transaction: the locks keep everything it read stable |
| PeopleCommit.ConflictsKept | services/people-api/src/orgmetra_people_api/postgres_mutations.py:764-783 | A commit by another transaction adds no assignment that a loaded, unfinished assignment write should have read |
| PeopleSafety.CapacityKept | services/people-api/src/orgmetra_people_api/postgres_mutations.py:764-809 | Adding an open-ended assignment whose scope is within one on each of its own days at its own instant keeps the scope within one on every day at every cutoff |
| PeopleSafety.ExclusiveAfterCommit | services/people-api/src/orgmetra_people_api/postgres_mutations.py:553-603 | A committed employment leaves every person with at most one exclusive employment on every day at every cutoff |
| PeopleSafety.CommitKeepsDb | services/people-api/src/orgmetra_people_api/postgres_mutations.py:546-837 | A commit keeps every rule of the committed tables: capacity, exclusivity, ownership, unique identities, recording order |
| PeopleSafety.CommitIsAtomicCreate | services/people-api/src/orgmetra_people_api/postgres_mutations.py:546-837 | A commit is an atomic create: the full validation, with the recorded instant of the command, also succeeds against the tables at the commit point |
| PeopleSystem.NextKeepsInv | services/people-api/src/orgmetra_people_api/postgres_mutations.py:516-523 | Every step of every transaction, clock tick, begin, statement, commit or rollback, keeps the system invariant |
| PeopleSystem.RulesHoldInEveryState | services/people-api/src/orgmetra_people_api/postgres_mutations.py:746-809 | In every state of every interleaving, for every tenant, day and cutoff: each position and each employment is allocated at most one, no person holds two exclusive employments, and every assignment names its employment's person |
| PeopleRuns.RulesInFull | services/people-api/src/orgmetra_people_api/postgres_mutations.py:746-809 | The same on the rows: sums of ratios per position and per employment, pairs of exclusive employments on one day, and the owner of every assignment's employment |
| PeopleSystem.RunRefinesAtomic | services/people-api/src/orgmetra_people_api/postgres_mutations.py:546-837 | In any run the committed tables move only by an atomic create of the acting transaction, at its own instant and answered with the identity it created: the interleaved system refines the one in which a command validates and inserts in one step |
| PeopleSystem.SameKeySameAnswer | services/people-api/src/orgmetra_people_api/postgres_mutations.py:264-313 | All successful transactions with one tenant, route and key carry the same payload and give the same answer, whatever identifiers the retries generated |
| PeopleRuns.SameKeySameRequest | services/people-api/src/orgmetra_people_api/postgres_mutations.py:264-313 | Two successes with one tenant, kind and key agree in actor, purpose and every field the caller chose, and got the same answer |
| PeopleRuns.AnswersNameStoredRows | services/people-api/src/orgmetra_people_api/postgres_mutations.py:546-631 | In any run, every committed or replayed answer names stored rows that carry its own command's fields: the record of that identity for a create; the conversion, the person and the employment for a hire |
| PeopleRuns.IdentifiersStayUnique | services/people-api/src/orgmetra_people_api/postgres_mutations.py:577-631 | In any run no record, version, conversion or audit identifier ever occurs twice |
| PeopleRuns.HiresAreDecided | services/people-api/src/orgmetra_people_api/postgres_hire.py:335-365 | A step that commits a hire finds exactly one row of its decision: a hire, confirmed, by the acting actor and for the purpose, decided no later than the transaction's start and the first day; and the hire is recorded at that start |
| PeopleSystem.OneCommitPerKey | services/people-api/src/orgmetra_people_api/postgres_mutations.py:264-313 | In every run at most one transaction commits for each tenant, route and key |
| PeopleSystem.KeyInsertNeverConflicts | services/people-api/src/orgmetra_people_api/postgres_mutations.py:290-313 | A transaction about to insert its key row finds the key free |
| PeopleSystem.DifferentPayloadChangesNothing | services/people-api/src/orgmetra_people_api/postgres_mutations.py:284-285 | A different payload on a stored key never succeeds and never changes a table |
| PeopleSystem.RetryIsAnswered | services/people-api/src/orgmetra_people_api/postgres_hire.py:233-247 | A retry with an equal payload is answered with the stored identity; the checks that could still refuse it, the hire's conversion comparison included, never fire |
| PeopleSystem.RunConserves | services/people-api/src/orgmetra_people_api/postgres_mutations.py:577-631 | Over any run, exactly one record, one audit event and one key row are added for each committed transaction |
| PeopleSystem.StepMakesProgress | services/people-api/src/orgmetra_people_api/postgres_mutations.py:546-837 | Every statement moves its transaction forward on a path of at most eleven, so none takes unboundedly many steps |
| PeopleSystem.SomeoneCanStep | services/people-api/src/orgmetra_people_api/postgres_mutations.py:550-555 | If a transaction is unfinished, some unfinished transaction can take its next statement now |
| PeopleSystem.NoDeadlock | services/people-api/src/orgmetra_people_api/postgres_mutations.py:743-764 | On the locks taken explicitly no run deadlocks: the order key, conversion, position leaves a transaction that can step in every reachable state |
| PeopleKnowledge.CommitChangesKnowledge | services/people-api/src/orgmetra_people_api/postgres_mutations.py:553-631 | Per commit, exactly: the employments, positions and assignments known at a cutoff change if and only if the commit's recorded instant is not later than the cutoff, whatever the command |
| PeopleKnowledge.RunChangesKnowledge | services/people-api/src/orgmetra_people_api/postgres_mutations.py:546-837 | Over a run, exactly: what was known at a cutoff differs between two states if and only if some step in between commits a fact recorded no later than the cutoff |
| PeopleKnowledge.SettledKnowledgeStays | services/people-api/src/orgmetra_people_api/postgres_mutations.py:504-513 | A past cutoff is settled for the rest of the run once no open transaction may still record by it: none past its clock read at an instant up to the cutoff, no position or hire begun by it |
| PeopleKnowledge.LateCommitChangesThePast | services/people-api/src/orgmetra_people_api/postgres_mutations.py:633-721 | A run from one position parent in which, at instant 5, a commit changes what was known at cutoff 3: a position is recorded at its transaction's start |
| PeoplePort.PostgresPeoplePort.ReadReplay | services/people-api/src/orgmetra_people_api/postgres_mutations.py:264-287 | No row, the stored answer, or an integrity error when the digest (or a hire's conversion) differs |
| PeoplePort.PostgresPeoplePort.CreateEmployment | services/people-api/src/orgmetra_people_api/postgres_mutations.py:530-631 | Run on its own: replay, one atomic create, or unchanged tables with an error, according to the stored key, the free identities and the full validation |
| PeoplePort.PostgresPeoplePort.CreatePosition | services/people-api/src/orgmetra_people_api/postgres_mutations.py:633-721 | The same for a position, recorded at the start of the transaction |
| PeoplePort.PostgresPeoplePort.CreateAssignment | services/people-api/src/orgmetra_people_api/postgres_mutations.py:723-837 | The same for an assignment |
| PeoplePort.PostgresPeoplePort.AcceptHire | services/people-api/src/orgmetra_people_api/postgres_hire.py:291-456 | The same for a confirmed hire, recorded at the start of the transaction; `PeoplePort.AtomicallyBacked` says which rows its answer names |
| PeoplePort.AtomicallyBacked | services/people-api/src/orgmetra_people_api/postgres_hire.py:225-247 | Whatever one of the four port methods answers, the tables it leaves hold the answered identities in rows that carry the command's own fields |
| Text.SplitOfJoin | packages/hris-kernel/src/orgmetra_hris_kernel/job_analysis.py:83-90 | Splitting a joined list of words gives the words back |
| Text.NormalizeTwice | packages/hris-kernel/src/orgmetra_hris_kernel/job_analysis.py:83-90 | Whitespace normalization is idempotent |
| Text.NormalizeKeepsWords | packages/hris-kernel/src/orgmetra_hris_kernel/job_analysis.py:83-90 | Normalization keeps the words, in order |
| Text.GapsSeparate | packages/hris-kernel/src/orgmetra_hris_kernel/job_analysis.py:83-90 | Any run of any whitespace between two words separates them, and at an end it means nothing |
| Text.NormalizeShape | packages/hris-kernel/src/orgmetra_hris_kernel/job_analysis.py:83-90 | Normal text holds no whitespace but single blanks between other characters |
| Sorting.SortSorts | packages/hris-kernel/src/orgmetra_hris_kernel/job_analysis.py:373-378 | Sorting permutes the list and orders it by identifier |
| Sorting.SortForgetsOrder | packages/hris-kernel/src/orgmetra_hris_kernel/job_analysis.py:373-378 | With distinct identifiers the sorted list is the same for every order of the input |
| JobAnalysis.MakeText | packages/hris-kernel/src/orgmetra_hris_kernel/job_analysis.py:83-90 | Accepts text whose normal form is long enough and returns that form; text already normalized is returned unchanged |
| JobAnalysis.MakeSource | packages/hris-kernel/src/orgmetra_hris_kernel/job_analysis.py:129-151 | Accepts exactly the provenance that is valid once its title is normalized, and returns valid provenance unchanged |
| JobAnalysis.MakeTask | packages/hris-kernel/src/orgmetra_hris_kernel/job_analysis.py:166-179 | The same for a task |
| JobAnalysis.MakeKsao | packages/hris-kernel/src/orgmetra_hris_kernel/job_analysis.py:195-211 | The same for a requirement |
| JobAnalysis.CheckLinks | packages/hris-kernel/src/orgmetra_hris_kernel/job_analysis.py:330-343 | The loop that collects link pairs accepts if and only if both ends of every link are listed and no pair repeats |
| JobAnalysis.CheckSnapshot | packages/hris-kernel/src/orgmetra_hris_kernel/job_analysis.py:288-369 | The snapshot constructor accepts if and only if the snapshot meets every evidence rule, written out on its fields; what it accepts as validated has no task, no requirement and no FJA profile whose source was drafted by a language model |
| JobAnalysis.ConsistentInFull | packages/hris-kernel/src/orgmetra_hris_kernel/job_analysis.py:288-369 | The checks are the rules on the fields: record identifiers, one tenant and job, retrieval before recording, nothing listed twice, ends listed, the review pair, and for validation a reviewer, complete linkage and no draft |
| JobAnalysis.ValidatingADraft | packages/hris-kernel/src/orgmetra_hris_kernel/job_analysis.py:358-369 | The same evidence is accepted as validated if and only if it is accepted as a draft, is reviewed, links everything, and holds nothing drafted by a language model |
| JobMeaning.ValidInFull | packages/hris-kernel/src/orgmetra_hris_kernel/job_analysis.py:129-369 | A snapshot is valid exactly when every part meets its rules, with the ranges, lengths and codes written out, and the whole meets the evidence rules |
| JobAnalysis.ValidityForgetsOrder | packages/hris-kernel/src/orgmetra_hris_kernel/job_analysis.py:309-369 | Reordering tasks, requirements or links never changes whether a snapshot is accepted |
| JobAnalysis.CanonicalForm | packages/hris-kernel/src/orgmetra_hris_kernel/job_analysis.py:371-378 | The sorted snapshot holds the same evidence, is valid, and sorting it again changes nothing |
| JobDocument.EvidenceFromDocument | services/job-analysis-api/src/orgmetra_job_analysis_api/snapshot.py:230-289 | The three loops over posted items build the evidence lists item by item, within the limits |
| JobDocument.SnapshotFromDocument | services/job-analysis-api/src/orgmetra_job_analysis_api/snapshot.py:208-315 | The imperative parser returns what the document means: within the limits, of the route's tenant, no unknown member, every constructor satisfied |
| JobMeaning.ReadInFull | services/job-analysis-api/src/orgmetra_job_analysis_api/snapshot.py:208-315 | A document is read as a snapshot if and only if it describes that snapshot member by named member, for the posting tenant, with no other member, at most 500 tasks, 500 requirements and 5000 links, and the snapshot is valid |
| JobMeaning.PrintInFull | packages/hris-kernel/src/orgmetra_hris_kernel/job_analysis.py:371-427 | The printed document describes, member by named member, the same evidence with ascending identifiers, links by task and then requirement |
| JobRoundTrip.SourceRoundTrip | services/job-analysis-api/src/orgmetra_job_analysis_api/snapshot.py:193-205 | A printed source parses back to itself |
| JobRoundTrip.PrintThenRead | services/job-analysis-api/src/orgmetra_job_analysis_api/snapshot.py:208-315 | Reading a printed valid snapshot succeeds exactly for its own tenant and within the limits, and gives the same evidence with its lists sorted |
| JobRoundTrip.DocumentForgetsOrder | packages/hris-kernel/src/orgmetra_hris_kernel/job_analysis.py:371-427 | Permuting tasks, requirements or links never changes the document |
| JobRoundTrip.DocumentIdentifiesEvidence | packages/hris-kernel/src/orgmetra_hris_kernel/job_analysis.py:371-441 | Two valid snapshots print the same document if and only if they hold the same evidence |
| JobRoundTrip.ReadThenPrintIsStable | services/job-analysis-api/src/orgmetra_job_analysis_api/snapshot.py:208-315 | Whatever document is accepted, the one printed from it is accepted and prints to itself |
| JobStore.BuildTask | services/job-analysis-api/src/orgmetra_job_analysis_api/postgres.py:507-517 | A task row goes through the constructors; a row of a valid task comes back as it was written |
| JobStore.AnyRowOrderRebuilds | services/job-analysis-api/src/orgmetra_job_analysis_api/postgres.py:437-492 | The rows of a valid snapshot, read in any order, rebuild the same evidence and document and pass the stored-digest comparison |
| JobPortSafety.StoredLoads | services/job-analysis-api/src/orgmetra_job_analysis_api/postgres.py:437-492 | A stored snapshot loads as the same evidence with the same document |
| JobPortSafety.OthersLoadAlike | services/job-analysis-api/src/orgmetra_job_analysis_api/postgres.py:303-384 | Storing one snapshot changes no other snapshot's load |
| JobTablesMeaning.StoredEvidence | services/job-analysis-api/src/orgmetra_job_analysis_api/postgres.py:346-384 | One row for each task, requirement and link in their order, column by column |
| JobTablesMeaning.RepeatedKey | services/job-analysis-api/src/orgmetra_job_analysis_api/postgres.py:251-277 | A key with a command row is answered from that row alone: a conflict when request, actor or purpose differs, otherwise the snapshot the row names; nothing is written |
| JobTablesMeaning.NewKey | services/job-analysis-api/src/orgmetra_job_analysis_api/postgres.py:278-416 | A new key: the first refusal decides, parents, header identity or version, command identity, audit identity; otherwise the rows are written |
| JobTablesMeaning.AbsentInFull | services/job-analysis-api/src/orgmetra_job_analysis_api/postgres.py:437-459 | There is nothing to read exactly when no header carries both the tenant and the identity |
| JobTablesMeaning.LoadedInFull | services/job-analysis-api/src/orgmetra_job_analysis_api/postgres.py:437-492 | What is read is valid, agrees with one header of that tenant and identity column by column, stored document included, and holds exactly the items of the rows of that tenant and identity, column by column with text normalized |
| JobPortSafety.PersistKeepsWellStored | services/job-analysis-api/src/orgmetra_job_analysis_api/postgres.py:240-416 | A call keeps the unique constraints, owned rows, loadable snapshots, command rows bound to the stored documents and parents, parents in scope, and one command and one audit row for each snapshot |
| JobPortSafety.AnswerIsThePostedDocument | services/job-analysis-api/src/orgmetra_job_analysis_api/snapshot.py:448-449 | The comparison of the answer with the posted document never fails, a replay never loses its snapshot, and an error leaves the tables unchanged |
| JobPortSafety.RetryAnswersAlike | services/job-analysis-api/src/orgmetra_job_analysis_api/postgres.py:251-277 | After an accepted call and any calls since, the same key answers with the accepted document for the same request, actor and purpose, refuses when any differs, and changes nothing either way |
| JobPortSafety.AcceptedStaysReadable | services/job-analysis-api/src/orgmetra_job_analysis_api/postgres.py:418-492 | In any run from empty tables, a snapshot once accepted can be read at the end as the same evidence with the same document |
| JobDatabase.PostgresJobAnalysisPort.LoadSnapshot | services/job-analysis-api/src/orgmetra_job_analysis_api/postgres.py:437-492 | The loading statements compute the specified read |
| JobDatabase.PostgresJobAnalysisPort.PersistSnapshot | services/job-analysis-api/src/orgmetra_job_analysis_api/postgres.py:219-416 | The statements, parent checks, row by row inserts, command row, audit row and the rollbacks, compute the specified answer and tables |
| JobDatabase.BuildSnapshot | services/job-analysis-api/src/orgmetra_job_analysis_api/postgres.py:460-489 | Rebuilding row by row gives the specified snapshot or the constructor's refusal |
| AllocationSpelling.CanonicalIs | services/people-api/src/orgmetra_people_api/mutations.py:76-79 | The spelling of an accepted ratio is `1.0000` for one, and otherwise `0.` with the four digits of its value in ten-thousandths |
| AllocationSpelling.SpellingIsValue | services/people-api/src/orgmetra_people_api/mutations.py:76-79 | Accepted ratios are spelled alike if and only if they are numerically equal, whatever precision they were given with |
| AllocationSpelling.AcceptedMeans | services/people-api/src/orgmetra_people_api/mutations.py:275-282 | The range and precision checks accept exactly a positive coefficient with at most four places and a value of at most one |
| AllocationSpelling.SpellingReadsBack | services/people-api/src/orgmetra_people_api/mutations.py:444-448 | The spelling matches the grammar and parses to an accepted ratio of the same value |
| AllocationSpelling.TokensAreCanonical | services/people-api/src/orgmetra_people_api/mutations.py:444-448 | Every token of the grammar except `0.0000` is accepted and is the canonical spelling of what it parses to |
| AllocationSpelling.ZeroTokenIsRefused | services/people-api/src/orgmetra_people_api/mutations.py:444-448 | The token `0.0000` is in the grammar and parses to zero, which the command refuses |
| JsonNesting.RequireBoundedNesting | services/people-api/src/orgmetra_people_api/hire_http.py:465-479 | The explicit-stack check terminates on every tree and accepts if and only if no container lies deeper than 128 below the root |
| JsonNesting.RefusedInFull | services/people-api/src/orgmetra_people_api/hire_http.py:465-479 | The check refuses exactly the bodies in which 130 containers are nested one in the other |
| JsonNesting.HeightIsLongestChain | services/people-api/src/orgmetra_people_api/hire_http.py:465-479 | The recursive height used to state it is the length of the longest chain of nested containers |
| JsonNesting.HeightForgetsOrder | services/people-api/src/orgmetra_people_api/hire_http.py:465-479 | Reordering items or members at any level of the tree does not change its depth, so the visiting order cannot matter |

## Left out

- PeopleSystem.NoDeadlock: covers the explicit locks only; waits on unique indexes and foreign keys are not modelled, and a commit inserts all its rows in one step.
- PeopleSystem.RunRefinesAtomic: person-name rows, outbox rows, triggers, row-level security and the candidate-worker trigger are not modelled; they can only refuse more.
- The idempotency lock is named by the key itself, so a hash collision, which only adds blocking, does not occur; FOR UPDATE re-evaluation does not arise because no modelled adapter updates rows.
- People.EqualPayloadsAnswerAlike: SHA-256 itself is not modelled; digests are payloads.
- The formats of confirmation, evidence and idempotency tokens are not checked, and authorization is a precondition of a step.
- Workforce.BuildWorkforceCompositionSnapshot: the error is one that a check of the first failing stage gives, not that of a particular person or position, because iteration over Python sets fixes no order; canonical JSON and the digest of the snapshot are not modelled.
- Assignment.ValidateAssignmentPositionCoverage: claims that some staffable version covers each day, not exactly one, because the source has no contradiction check for positions.
- PeopleKnowledge.SettledKnowledgeStays: is a sufficient condition; an open transaction that may still record by the cutoff may also fail its checks. What changes knowledge is stated exactly per commit and per run.
- History.CloseRecordedInterval: a value that is not a kernel fact, and an unknown identity field of resolution, are ruled out by types.
- Timezone checks, Decimal context rounding and NaN are not modelled.
- JobPortSafety.RetryAnswersAlike: is about calls one after another; a concurrent duplicate may surface as a conflict, because lock and lookup share one statement.
- JobDatabase.PostgresJobAnalysisPort.PersistSnapshot: foreign keys, check constraints, the database's validation of the audit envelope and the event's timestamp are not modelled; the audit function inserts its two rows in one step.
- PeopleRuns.AnswersNameStoredRows: starts from tables whose key rows name stored rows, as empty tables do; the unit and job profile of a position are not among the columns kept.
- PeopleMeaning.AssignmentAcceptedInFull: speaks of stored ratios above zero, as the table constraint and the command guarantee; `KernelMeaning.WriteInFull` has no such condition.
- JobStore.AnyRowOrderRebuilds: the comparison of the header's tenant and identity with the requested ones is implied by the selection.
- JobDocument.SnapshotFromDocument: values already of type UUID, date or datetime inside a document are not a case; a document is JSON.
- JsonNesting.RequireBoundedNesting: the accumulation of body frames, the size limits and the duplicate-member hook before it are not modelled.
- Transport, headers, tokens, error envelopes and logging are not modelled.
- The candidate, offer, requisition and selection packets, the policy evaluator, the migration and Naruon adapters and identity binding are flat field checks.
