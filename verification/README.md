# Verified models of the conference marketplace's hard cores

MUN Hub sells seats at Model UN conferences. Its domain logic runs as row-locked transactions over shared
tables; what goes wrong there goes wrong with two requests at once. These Dafny modules model the parts of it
whose correctness is an argument over many steps, and prove that argument:

| file | what it covers |
|---|---|
| `ReservationProtocol.dfy`, `ReservationSafety.dfy`, `ReservationKeys.dfy`, `ReservationExceptions.dfy`, `ReservationAlone.dfy` | Seat reservation with taking a lock, counting, inserting, committing and the order call as separate steps of any number of solo and team calls: no oversell, no deadlock, idempotent retries, and the simple transaction when nobody interrupts. |
| `SeatTables.dfy`, `SeatDatabase.dfy`, `SeatInvariants.dfy`, `SeatOwnership.dfy`, `SeatInvitations.dfy`, `SeatExceptions.dfy`, `SeatMoves.dfy` | The seat tables with each transaction as one step (reservation, order, webhook, sweep, invitations, release, cancellation, attendance), except that an acceptance writes later than it checks: the transactions as methods of a class, and what every run keeps. |
| `DeletionPlanner.dfy`, `DeletionProofs.dfy` | The foreign-key deletion planner, its report and its execution. |
| `Csv.dfy` | The CSV printer against the character-level parser. |
| `SecondFactor.dfy` | The wrong-code budget over challenges and markers. |
| `FormFields.dfy` | The bounded walk over conditional form fields, under create, update, delete, reorder and seeding. |
| `StaffAdmin.dfy` | One active super admin always remains. |
| `CheckInCode.dfy` | The check-in code's bit-buffer encoder and its normaliser. |
| `Attendance.dfy`, `Results.dfy`, `ResultsExceptions.dfy` | Attendance against awards, and awards against results publishing. |
| `UploadProtocol.dfy` | Rows and stored objects, with a failure at any step. |
| `Throttles.dfy` | Reset emails and delegate messages per hour; reset links that work once and while live. |
| `Trends.dfy` | Trend buckets. |
| `Tickets.dfy` | The support-ticket machine. |
| `Common.dfy`, `SetSizes.dfy` | Option and result types; sizes of finite sets. |

Check everything with `dafny verify dfyconfig.toml`.

Code that works by changing rows appears as a class or a method with a loop, proved equal to a specification
function; the properties are then lemmas about runs of that specification. Where the interleaving is the point
(locks, commits, crashes) the model is a state machine over the individual steps. The clock, generated ids and
tokens, hashes, provider events and the order call's success are parameters of the steps.

## Where the code and its claims differ

The code is modelled as it is. Where a claim fails, one lemma gives an input or a run in which it does and another
the exact condition under which it holds.

* **Second factor.** At any moment the last 15 minutes hold at most 10 wrong codes (`TrailingWindowBound`), but
  the rows created in some 15 minutes can carry 19 (`NineteenIsReached`). They carry at most 10 and whatever is
  guessed on them after those 15 minutes are over, and never more than 19 (`CreationWindowBound`).
* **Idempotency key after a failed order.** The error says "no seat was held, please try again", and the comment
  that the key can be reused. That holds exactly when the hold is still PENDING (`FailedOrderFreesKeyIffPending`);
  if a sweep cancelled it first the key stays bound to the cancelled registration, which the retry then gets
  (`SweptHoldKeepsItsKey`).
* **Releasing a claimed team seat.** No reachable state has a seat that `releaseGroupSeat` would release: a
  claimed seat is a paid one (`ReleaseNeverSucceeds`).
* **One pending invitation per slot.** Of invitations that can still be accepted it holds exactly as long as no
  resend is written after its invitation expired and the slot was offered again, and no slot is offered again in
  the very instant its invitation expires (`OneLiveStep`, `OneLiveInvitation`); both happen (`LateResend`,
  `ReofferAtExpiry`).
* **One active seat per delegate and pass.** Accepting an invitation checks without the pass lock and writes
  later. The write keeps the rule exactly when no seat for the pass that the delegate took in between, by a solo
  or team reservation or another acceptance, is still active (`SplitAcceptKeepsOwnershipIff`, over whole runs
  `OwnershipIff`); each of the three can come in between (`ReservationOvertakes`, `TeamReservationOvertakes`,
  `AcceptanceOvertakes`).
* **Conditional fields.** An empty-string parent skips the check and is stored (`CreateKeeps`, `UpdateKeeps`,
  `EmptyParentDangles`); a rename leaves dependents behind, and can hang the field under its own old key
  (`RenameKeeps`, `RenamesDangle`).
* **Results.** An award is checked and written in two steps. Results under review stay non-empty and approved ones
  verified exactly as long as no such write spoils them (`ResultsAreSoundIff`), which writes before the results are
  submitted never do (`TimelyWritesAreSound`); a late insert and a late delete do (`LateCreateEscapesReview`,
  `LateDeleteEmptiesReview`). Completing straight from CONFERENCE_ACTIVE leaves awards unverified for good
  (`CompletedIsVerifiedIffReviewed`, `UnreviewedCompletion`).
* **CSV.** An empty row, an empty file or a leading U+FEFF does not survive the trip (`RoundTrip`), and a first
  cell that hides a formula behind a leading U+FEFF reaches the reader as a formula
  (`NoFormulaReachesTheReader`, `FormulaBehindMark`).

## Model

| member | source | states |
|---|---|---|
| `ReservationSafety.NeverOversold` | lib/actions/registration.ts:361-604 | With fixed capacities, every state of every interleaving has at most `capacity` active seats in each pass, committee, portfolio and room at once, solo and team calls mixed. |
| `ReservationSafety.CommitLeavesRoom` | lib/actions/registration.ts:391-439 | The lock discipline: while a call holds a counted lock, another call's commit takes nothing from the seats it counted. |
| `ReservationSafety.CommitTakes` | lib/actions/registration.ts:886-926 | A commit takes at most its number of seats, and only of resources whose row lock it holds. |
| `ReservationSafety.SeatsOnlyFreed` | lib/actions/registration.ts:80-87 | No step other than a reservation's commit (sweep, webhook, claim, attendance, cancellation, failed order) ever takes a seat. |
| `SeatMoves.MovesAreForeseen` | lib/actions/registration.ts:80-89 | Every step of every run over the seat tables leaves a registration's status alone or moves it as the reservation protocol allows of its surroundings, the order step aside, so the protocol's bounds hold whatever the tables do. |
| `ReservationSafety.NeverDeadlocked` | lib/actions/registration.ts:417-604 | As long as any reservation is in its transaction, waiting for a row lock or the unique index or not at all, some reservation in its transaction can take a next step other than giving up. |
| `ReservationKeys.AtMostOneCreates` | lib/actions/registration.ts:320-335 | Of all calls of one user with one key, solo or team, at most one creates registrations, unless the other one's order failed and gave its hold and key up. |
| `ReservationKeys.ReplayIsTheOriginal` | lib/actions/registration.ts:246-256 | A replayed answer is a registration of the same user, created with that key, for the same MUN and pass (solo) or belonging to a team (team call). |
| `ReservationKeys.RetryGetsTheOriginal` | lib/actions/registration.ts:320-335 | Over every run: once a call created something and the key is still on it, every call of that user with that key that looks it up (before the transaction, in it, or after the unique index refused it) is done at once, with that very registration if it asks for the same MUN and pass (solo) or the first was a team call too (team), and with a refusal otherwise. |
| `ReservationKeys.FoundKeyIsAnswered` | lib/actions/registration.ts:246-256 | Whatever registration a lookup finds is the user's under that key, and the call is answered with it if and only if it has the request's MUN and pass (solo) or belongs to a team (team call), refused if not. |
| `ReservationKeys.KeyIsReusableOnlyAfterFailedOrder` | lib/actions/registration.ts:417-423 | A key that created something is found by every later lookup, except after its order failed and cancelled the hold. |
| `ReservationKeys.FailedOrderFreesKeyIffPending` | lib/actions/registration.ts:626-637 | A failed order frees the key if and only if the hold is still PENDING; otherwise the next lookup finds the cancelled registration. |
| `ReservationExceptions.SweptHoldKeepsItsKey` | lib/actions/registration.ts:626-637 | A run in which the sweep cancels the hold before the order fails, so that the retry finds the cancelled registration. |
| `ReservationKeys.KeysStayUnique` | lib/actions/registration.ts:258-271 | The unique index on user and key is never violated by a commit, whatever is in flight. |
| `ReservationAlone.AloneItIsTheSimpleTransaction` | lib/actions/registration.ts:361-604 | With its locks free and no rival insert under its key, a call whose steps nobody interrupts ends exactly like the simple transaction: a replay or its refusal; refused if the user has a seat for the pass or the pass, committee, portfolio or room has too few left; else its seats, confirmed if free, awaiting payment after the order, or cancelled and without the key when the order fails. |
| `SeatDatabase.Database.ReserveSeat` | lib/actions/registration.ts:425-599 | Refuses a second active seat for the pass and a full pass, in that order; otherwise adds exactly one seat, CONFIRMED without expiry if free, else PENDING for 15 minutes. |
| `SeatDatabase.Database.ReserveTeamSeats` | lib/actions/registration.ts:752-926 | Refuses a team size outside 2 to 20, a head with an active seat, and too few free seats; otherwise adds the team, the head's row and the placeholders, all with one status and expiry. |
| `SeatDatabase.Database.InsertTeam` | lib/actions/registration.ts:879-926 | The inserted rows are the head's and the placeholders', all equal, and the team's size is their number. |
| `SeatDatabase.Database.OrderFailed` | lib/actions/registration.ts:964-973 | Of the order's seats none is left PENDING: those that were are CANCELLED, a whole pending team together; every other row and everything else about these is as before. |
| `SeatDatabase.Database.OrderStarted` | lib/actions/registration.ts:975-1001 | Of the order's seats none is left PENDING: those that were await payment; the order has one due payment, and no other row or payment changes. |
| `SeatDatabase.Database.ApplyEvent` | lib/payments/webhook.ts:200-388 | A captured order stays as it is but for the flag of a second charge. Otherwise a failure cancels the order's waiting seats, a wrong amount only flags, and the right amount confirms all of them if the order's own seat still waits and its time is null or not before the capture; if it waits but ran out they are all cancelled, else none moves, and the payment is flagged. |
| `SeatDatabase.Database.SweepExpiredHolds` | lib/actions/registration.ts:106-143 | A row becomes CANCELLED if and only if it is in scope, PENDING or PAYMENT_PENDING, and expires strictly before now; every other row is as before; the result is the number of those moved, and none is left. |
| `SeatDatabase.Database.ReleaseWithStatus` | lib/jobs/release-expired-holds.ts:24-30 | The same for one status and every conference; returns exactly the rows moved. |
| `SeatDatabase.Database.ReleaseExpiredHoldRows` | lib/jobs/release-expired-holds.ts:47-51 | The two statements together: all expired holds and no other row, the ones that had reached payment returned, the others counted. |
| `SeatDatabase.Database.SetDelegateAttendance` | lib/actions/check-in.ts:308-350 | Refuses in the source's order a closed conference, a registration of another one, an unseated one, and a no-show with an award; otherwise moves exactly that row, and leaves an awarded no-show as it was. |
| `SeatDatabase.Database.CancelRegistrationAsAdmin` | lib/actions/admin-review.ts:719-755 | Cancels exactly one registration unless it already is cancelled or refunded. |
| `SeatDatabase.Database.CancelUnpaidHolds` | lib/actions/account-deletion.ts:198-202 | Cancels exactly the account's unpaid holds; none is left. |
| `SeatDatabase.Database.CancelHoldsOfMun` | lib/lifecycle/registration-lifecycle.ts:476-482 | Cancels exactly the conference's unpaid holds; none is left. |
| `SeatDatabase.Database.InviteGroupMember` | lib/actions/registration-group.ts:250-326 | Refuses as the source does; otherwise adds one pending invitation to a slot that is the head's, is not the head's own seat and has no live invitation. |
| `SeatDatabase.Database.ExpireStaleInvitations` | lib/actions/registration-group.ts:74-85 | No invitation of the team is left pending past its time, only such ones change and only in status, and no invitation becomes or stops being acceptable by it. |
| `SeatDatabase.Database.ResendGroupInvitation` | lib/actions/registration-group.ts:364-383 | Refuses on the status and cooldown it read; otherwise rotates the token and extends the expiry whatever the invitation's state has become. |
| `SeatDatabase.Database.CancelGroupInvitation` | lib/actions/registration-group.ts:397-414 | Withdraws the invitation only if it still is pending when written. |
| `SeatDatabase.Database.ReleaseGroupSeat` | lib/actions/registration-group.ts:438-469 | The five refusals in their order; otherwise the slot goes back to the head. |
| `SeatDatabase.Database.AcceptGroupInvitation` | lib/actions/registration-group.ts:537-620 | An unknown token changes nothing; a known one is refused with the first failing check, or claims its slot and is marked accepted, in one step. |
| `SeatDatabase.Database.ClaimSlot` | lib/actions/registration-group.ts:556-615 | The same, for the invitation found: all checks, then both writes. |
| `SeatInvariants.ReleaseNeverSucceeds` | lib/actions/registration-group.ts:448-468 | In every reachable state `releaseGroupSeat` is refused for every team and seat: claimed seats are paid ones. |
| `SeatInvariants.AcceptedMatchClaimed` | lib/actions/registration-group.ts:546-618 | A team's ACCEPTED invitations are as many as its slots no longer owned by the head, and match them one to one. |
| `SeatInvariants.TokenWorksOnce` | lib/actions/registration-group.ts:546-559 | A token that was accepted once is never accepted again in the run, re-sent invitations included. |
| `SeatOwnership.OneSeatPerPass` | lib/actions/registration.ts:425-441 | In every run whose acceptances are each one step, one user's active registrations for one pass are a single row or rows of one team that user heads. |
| `SeatOwnership.OwnershipStep` | lib/actions/registration-group.ts:591-608 | Any one step keeps that rule if and only if it is not an acceptance written although its delegate has an active seat for the pass by then. |
| `SeatOwnership.OwnershipIff` | lib/actions/registration-group.ts:591-608 | Over every run, acceptances written arbitrarily later than checked, the rule holds all along if and only if none was overtaken. |
| `SeatOwnership.SplitAcceptKeepsOwnershipIff` | lib/actions/registration-group.ts:546-608 | For checks and write of one acceptance with any steps in between that respect its two row locks: the write is still possible, and keeps the rule if and only if no seat for the pass that the delegate took in between, by a solo or team reservation or another acceptance, is still active. |
| `SeatOwnership.GainIsFirst` | lib/actions/registration-group.ts:585-603 | Whoever a step gives a seat, other than an overtaken acceptance, had no active seat for that pass. |
| `SeatInvariants.TeamsHoldTogether` | lib/actions/registration.ts:879-1001 | A team always has `teamSize` rows and its head's row, and while one seat awaits payment all rows not cancelled singly by an admin are equal: one status, one expiry, owned by the head. |
| `SeatInvariants.MovesTogether` | lib/payments/webhook.ts:173-181 | Every step moves all of a held team or none of it, sweeps interrupted between read and write included. |
| `SeatInvariants.SeatedStay` | lib/payments/webhook.ts:328-371 | A confirmed seat is lost only to an admin's cancellation: no later failure event, sweep, order failure or account deletion takes it. |
| `SeatInvariants.MoneyMatchesSeats` | lib/payments/webhook.ts:311-387 | Every seated registration that costs something has a captured payment behind it, and every captured payment without an exception has its seat, unless an admin cancelled it. |
| `SeatExceptions.ReservationOvertakes` | lib/actions/registration.ts:425-441 | A run in which a solo reservation comes between an acceptance's checks and its write, and the rule breaks. |
| `SeatExceptions.TeamReservationOvertakes` | lib/actions/registration.ts:849-861 | The same with a team reservation. |
| `SeatExceptions.AcceptanceOvertakes` | lib/actions/registration-group.ts:591-608 | The same with an acceptance of another team's invitation, both having passed their checks before either wrote. |
| `SeatInvariants.AdminCancelSplitsTeam` | lib/actions/admin-review.ts:742-746 | Cancelling one seat of a held team leaves the others held, and if it was the head's no capture confirms them any more. |
| `SeatInvitations.OneLiveStep` | lib/actions/registration-group.ts:292-326 | "At most one invitation per slot that acceptance would take" survives a step if and only if the step is neither a resend of an invitation that ran out while its slot was offered again, nor an offer of a slot whose invitation is still acceptable. |
| `SeatInvitations.ReofferIsAtExpiry` | lib/actions/registration-group.ts:301-313 | Such an offer is made in the very instant the invitation expires, and at no other time. |
| `SeatInvitations.OneLiveInvitation` | lib/actions/registration-group.ts:556-561 | Over every timed run no slot ever has two acceptable invitations if and only if the run has no such resend and no such offer. |
| `SeatExceptions.LateResend` | lib/actions/registration-group.ts:364-383 | A run whose last step, a resend written late, leaves two acceptable invitations for one slot. |
| `SeatExceptions.ReofferAtExpiry` | lib/actions/registration-group.ts:301-313 | A run without resends that does so by offering the slot at the expiry instant. |
| `DeletionPlanner.Planner.PlanDeletions` | scripts/cleanup-dev-db-test-pollution.ts:205-247 | Appends exactly the specified operations for a table, or throws the offending path; terminates on the tables not yet on the path. |
| `DeletionPlanner.Planner.PlanReferences` | scripts/cleanup-dev-db-test-pollution.ts:217-246 | The loop over incoming foreign keys emits their operations in order, up to the first throw. |
| `DeletionPlanner.Planner.PlanReference` | scripts/cleanup-dev-db-test-pollution.ts:218-245 | One foreign key: skipped, nulled, or its table planned first and then deleted from. |
| `DeletionPlanner.PlanBothPasses` | scripts/cleanup-dev-db-test-pollution.ts:261-271 | The muns pass and then the users pass, each ending with its root's DELETE. |
| `DeletionPlanner.Database.ExecutePlan` | scripts/cleanup-dev-db-test-pollution.ts:530-539 | Runs the operations one by one, each on the database the earlier ones left, and returns what each touched. |
| `DeletionPlanner.ReportPlan` | scripts/cleanup-dev-db-test-pollution.ts:289-305 | Counts each operation on the untouched database without the rows earlier DELETEs on that table claimed, and hands the claims on. |
| `DeletionProofs.PlanThrowsExactlyAtCycles` | scripts/cleanup-dev-db-test-pollution.ts:205-247 | Planning throws if and only if a cycle of NOT NULL foreign keys is reachable from the root. |
| `DeletionProofs.ThrownWalk` | scripts/cleanup-dev-db-test-pollution.ts:226-232 | The path in the error is such a cycle's walk. |
| `DeletionProofs.PlanIsSafe` | scripts/cleanup-dev-db-test-pollution.ts:205-271 | No statement of the plan ever leaves a foreign key pointing at a removed row, and afterwards no user is left whose id is off the keep-list and no mun whose organizer is. |
| `DeletionProofs.PlanClears` | scripts/cleanup-dev-db-test-pollution.ts:205-247 | After the operations of a walk nothing outside the skipped tables references the rows about to be deleted. |
| `DeletionProofs.SameVerdict` | scripts/cleanup-dev-db-test-pollution.ts:234-243 | A nested subquery evaluated on the half-pruned database says of a surviving row what it said at the start. |
| `DeletionProofs.ExecutionRemovesExactlyTheDoomed` | scripts/cleanup-dev-db-test-pollution.ts:530-539 | After execution exactly the rows that hang off junk through NOT NULL keys are gone, and in the others exactly the columns that pointed at them are null. |
| `DeletionProofs.KeptRowsAreUntouched` | scripts/cleanup-dev-db-test-pollution.ts:261-271 | After the run a users row is there if and only if it was before and its id is in `keep`, a muns row if and only if it was before and its organizer is in `keep` (or NULL), and each of these has every cell as before. |
| `DeletionProofs.ReportIsExact` | scripts/cleanup-dev-db-test-pollution.ts:289-305 | Each DELETE line counts exactly the rows the statement will delete; each NULL line at least those. |
| `DeletionProofs.ReportAddsUp` | scripts/cleanup-dev-db-test-pollution.ts:289-305 | For every table the DELETE lines add up to the rows execution removes from it: none twice, none missed. |
| `DeletionProofs.ReportOfSecondPass` | scripts/cleanup-dev-db-test-pollution.ts:289-291 | Reporting the second pass with the first pass's claims carried over is reporting the whole plan. |
| `Csv.ParseCsv` | E2E/fixtures/csv.ts:5-43 | The index loop returns the header and rows of the recursive reading of the text. |
| `Csv.NeutralizeSpreadsheetCell` | lib/csv.ts:14-21 | The result starts with none of the six triggers, and is the value itself unless that starts with one, and then it is the value behind one apostrophe. |
| `Csv.ParsePrinted` | lib/csv.ts:23-34 | Without a leading U+FEFF the parser returns every printed row cell by cell, whatever the cells hold. |
| `Csv.ParsePrintedBom` | E2E/fixtures/csv.ts:6-9 | A leading U+FEFF comes only from a bare first cell, and the parser removes that character and nothing else. |
| `Csv.CellsAreReadBack` | lib/csv.ts:14-30 | Printed and parsed, every cell of every file arrives as itself: numbers, flags and nulls as their text, free text as it is, or behind exactly one apostrophe if and only if it starts with =, +, -, @, tab or CR; at most a U+FEFF at the very front of the file is lost. |
| `Csv.RoundTrip` | lib/csv.ts:32-34 | The file reads back as written if and only if it has a row, no empty row, and no leading U+FEFF. |
| `Csv.NoFormulaReachesTheReader` | lib/csv.ts:14-30 | A parsed cell that came from free text starts with =, +, -, @, tab or CR if and only if it is the first one, its text is U+FEFF in front of one of these, and it holds no quote, comma or line end. |
| `Csv.FormulaBehindMark` | E2E/fixtures/csv.ts:6-6 | Such a file. |
| `SecondFactor.MfaGuard.BeginMfaChallenge` | lib/actions/staff-mfa.ts:229-252 | Opens a five-minute challenge if and only if the rows of the last 15 minutes carry fewer than ten wrong codes; otherwise changes nothing. |
| `SecondFactor.MfaGuard.CompleteMfaChallenge` | lib/actions/staff-mfa.ts:262-323 | A right code succeeds exactly on an unused, unexpired row with fewer than five wrong codes on it and ten on the account, marks that row used now and changes nothing else; a wrong one adds one attempt to it, the fifth answered as too many; everything else is refused. |
| `SecondFactor.MfaGuard.RecordMfaFailure` | lib/actions/staff-mfa.ts:376-439 | A wrong code at the regenerate and disable routes leaves one used row that carries one wrong code; nothing else changes the table. |
| `SecondFactor.TokenSignsInOnce` | lib/actions/staff-mfa.ts:262-323 | In every run with fresh tokens a challenge's token signs in at most once: every later attempt with it, right or wrong, is answered as expired and changes nothing. |
| `SecondFactor.TrailingWindowBound` | lib/actions/staff-mfa.ts:196-207 | In every run, at every moment, the rows created in the last 15 minutes carry at most 10 wrong codes. |
| `SecondFactor.GuessTimeBound` | lib/actions/staff-mfa.ts:42-58 | In every run at most 20 wrong codes are answered in any 15 minutes, counted by what each step shows in the table, because 15 >= 2 * 5. |
| `SecondFactor.CreationWindowBound` | lib/actions/staff-mfa.ts:46-58 | In every run the rows created in any 15 minutes carry at most 10 wrong codes and those guessed on them after the 15 minutes are over, and at most 19 in all. |
| `SecondFactor.NineteenIsReached` | lib/actions/staff-mfa.ts:46-58 | A reachable state in which they carry 19, so the promised 10 does not hold of every window and 19 is the maximum. |
| `SecondFactor.TwentyIsReached` | lib/actions/staff-mfa.ts:42-58 | A run in which 20 wrong codes are answered within 15 minutes, so 20 is the maximum. |
| `FormFields.AssertNoConditionalCycle` | lib/actions/registration-form.ts:101-122 | The loop over `current` and `steps` gives the verdict of the bounded walk. |
| `FormFields.GoodChainsEnd` | lib/actions/registration-form.ts:111-121 | On a closed acyclic form every chain of parents ends within as many steps as there are fields. |
| `FormFields.CheckIsExact` | lib/actions/registration-form.ts:101-122 | On such a form the check accepts precisely the existing fields that are not the field or below it, and the step limit never trips. |
| `FormFields.AcceptedChain` | lib/actions/registration-form.ts:101-122 | Even on corrupt data an accepted parent's chain ends and avoids the field. |
| `FormFields.RefusedParentBreaks` | lib/actions/registration-form.ts:101-122 | Storing a parent the check refuses always makes the form dangling or cyclic. |
| `FormFields.FormStore.CreateFormField` | lib/actions/registration-form.ts:147-183 | Adds exactly this field if the key is new and the parent passes the check or is absent or empty; reports the first error and changes nothing otherwise. |
| `FormFields.FormStore.UpdateFormField` | lib/actions/registration-form.ts:198-230 | Succeeds if and only if the field is there, the new key is free and the parent passes the check; then the field stands under its key with exactly the given columns changed, and no other field is touched. |
| `FormFields.FormStore.DeleteFormField` | lib/actions/registration-form.ts:232-249 | Removes a field that nothing hangs under, and refuses otherwise. |
| `FormFields.FormStore.ReorderFormFields` | lib/actions/registration-form.ts:261-288 | Reorders all or, when one id is not on the form, nothing. |
| `FormFields.ReorderedPositions` | lib/actions/registration-form.ts:276-283 | Afterwards a field that was named stands where the last entry for it says, any other where it stood, and nothing else about a field has changed. |
| `FormFields.FormStore.SeedDefaults` | lib/actions/registration-form.ts:341-348 | Adds every missing default, unconditional, to whatever form there is; no field that is there changes and none else appears. |
| `FormFields.CreateKeeps` | lib/actions/registration-form.ts:147-183 | A create keeps the form closed and acyclic if and only if the parent is not a dangling empty string. |
| `FormFields.UpdateKeeps` | lib/actions/registration-form.ts:198-230 | A key-preserving update does so if and only if it sets no empty-string parent that the check would have refused. |
| `FormFields.EmptyParentDangles` | lib/actions/registration-form.ts:207-220 | A create and an update that store an empty-string parent and leave it dangling. |
| `FormFields.DeleteKeeps` | lib/actions/registration-form.ts:232-249 | Every successful delete keeps the form closed and acyclic. |
| `FormFields.ReorderKeeps` | lib/actions/registration-form.ts:261-288 | Reordering changes no parent. |
| `FormFields.SeedingKeeps` | lib/actions/registration-form.ts:341-347 | Seeding keeps the form closed and acyclic. |
| `FormFields.RenameKeeps` | lib/actions/registration-form.ts:198-230 | Every successful rename, whatever else it changes, keeps it so if and only if nothing hangs under the old key, the new parent is not the old key, and an empty-string parent exists. |
| `FormFields.RenamesDangle` | lib/actions/registration-form.ts:207-220 | A rename that leaves a dependent behind, and one that hangs the field under its own old key. |
| `StaffAdmin.AlwaysSomeoneInCharge` | lib/actions/admin-staff.ts:150-161 | Once there is an active super admin there always is one, for any number of demotions and suspensions interleaved at their locks, checks, writes and commits, with organizer suspension and account deletion. |
| `StaffAdmin.WritersDoNotCross` | lib/actions/admin-staff.ts:290-337 | Two super admins acting on each other never both reach a write, and no two writes aim at one account. |
| `StaffAdmin.ActorIsInChargeAtCommit` | lib/actions/admin-staff.ts:150-161 | Whoever commits such a write is an active super admin at that moment, before and after it. |
| `StaffAdmin.CommitMakesTheChange` | lib/actions/admin-staff.ts:290-337 | In every interleaving a committed write makes the change it was begun with, a real one, to a staff member other than the actor: the role or the suspension is as asked and was not before, everything else about everybody is as before. |
| `StaffAdmin.AloneItDoesWhatItIsFor` | lib/actions/admin-staff.ts:150-337 | Not interrupted, a staff write runs to its end and has done exactly what it is for: an active super admin's change to a staff member, and nothing for anybody else. |
| `CheckInCode.ToCrockfordBase32` | lib/actions/check-in.ts:68-83 | The bit-buffer loop outputs exactly the big-endian 5-bit groups of the digest, up to the length asked for. |
| `CheckInCode.EncodedIsValid` | lib/actions/check-in.ts:37-38 | Every ten-character output matches the code pattern. |
| `CheckInCode.CodesTellDigestsApart` | lib/actions/check-in.ts:68-93 | Two digests get the same code if and only if their first 50 bits agree. |
| `CheckInCode.NormalizeReadsExactlySpellings` | lib/actions/check-in.ts:96-99 | Any text is read as a code if and only if it spells it, in any case, with look-alikes, white space and hyphens. |
| `CheckInCode.DisplayedCodeRoundTrips` | lib/actions/check-in.ts:96-104 | Whatever is typed from the displayed form, with any white space or hyphens between, normalises to the code. |
| `Attendance.NoShowsNeverHaveAwards` | lib/actions/check-in.ts:334-343 | In every interleaving of awards, attendance, check-in and cancellation no NO_SHOW registration has an award. |
| `Attendance.SeatHoldersStaySeated` | lib/actions/check-in.ts:236-260 | A seat-holding registration stays one, unless a cancellation commits. |
| `Attendance.CommitIsStillRight` | lib/actions/check-in.ts:308-350 | In every interleaving a committed attendance mark, check-in or cancellation is the one asked for, changes exactly that row from the status it was checked against, and is still allowed at that moment: the delegate has a seat, is not marked so already, and no award stands against a no-show. |
| `Attendance.AwardGoesToTheEligible` | lib/actions/results.ts:109-155 | A committed award is one new award, for a delegate who is CONFIRMED or ATTENDED at that moment. |
| `Attendance.ChangeAlone` | lib/actions/check-in.ts:236-350 | Not interrupted, a mark, check-in or cancellation is made if and only if it is allowed, and leaves no lock. |
| `Attendance.AwardAlone` | lib/actions/results.ts:109-155 | Not interrupted, an award is given if and only if the delegate is CONFIRMED or ATTENDED. |
| `Results.MunResults.CreateAchievement` | lib/actions/results.ts:109-155 | Adds one unverified award and changes nothing else, or refuses once the status is under review, completed, archived or cancelled. |
| `Results.MunResults.DeleteAchievement` | lib/actions/results.ts:158-169 | Removes exactly that award, or refuses if it is not there or the results are locked. |
| `Results.MunResults.SubmitResultsForReview` | lib/actions/results.ts:239-267 | Moves to review if and only if there is an award and the conference is active or its results pending; no award changes. |
| `Results.MunResults.Review` | lib/actions/results.ts:305-329 | Approval verifies every award and completes; a return needs a note and reopens editing. |
| `Results.MunResults.CompleteConference` | lib/lifecycle/registration-lifecycle.ts:337-363 | Completes from review, verifying every award, or straight from CONFERENCE_ACTIVE, verifying none. |
| `Results.SoundStep` | lib/actions/results.ts:109-169 | A step keeps "results under review have an award, approved ones are there and verified" if and only if it is not one of three: submitting when the counted awards are gone, deleting the last submitted or approved award, adding to approved ones. |
| `Results.ResultsAreSoundIff` | lib/actions/results.ts:239-329 | Over every run, awards written arbitrarily later than checked, the promise holds all along if and only if there was no such step. |
| `Results.TimelyWritesAreSound` | lib/actions/results.ts:71-75 | So it holds in every run in which no award is written once the results are locked or being submitted. |
| `Results.EveryWriteWasChecked` | lib/actions/results.ts:71-75 | In every run a write of an award was preceded by a check of the same call at which the status was none of the locked ones and an award to be deleted was there. |
| `Results.CompletedIsVerifiedIffReviewed` | lib/actions/results.ts:305-329 | Unless such a step spoiled it, a completed conference has awards, all verified, if and only if it was completed from the review. |
| `ResultsExceptions.UnreviewedCompletion` | lib/lifecycle/registration-lifecycle.ts:337-363 | A run that completes from CONFERENCE_ACTIVE with an award unverified. |
| `Results.CompleteVerifiesIffUnderReview` | lib/lifecycle/registration-lifecycle.ts:466-474 | The same for one call, by the status before it. |
| `ResultsExceptions.LateCreateEscapesReview` | lib/actions/results.ts:109-155 | A run in which an award checked before the submission and written after the approval stays unverified. |
| `ResultsExceptions.LateDeleteEmptiesReview` | lib/actions/results.ts:158-169 | A run in which an award checked before the submission and deleted after it leaves results under review without any. |
| `UploadProtocol.RowsAlwaysHaveObjects` | lib/actions/mun-branding.ts:78-137 | With calls interleaved and failing anywhere, every row's key has a stored object, no two rows share one, and a MUN has at most one LOGO and one COVER row. |
| `UploadProtocol.CommitTakesItsPlace` | lib/actions/mun-branding.ts:104-135 | In every interleaving an upload that commits adds the row it was started for; a logo or cover removes the MUN's rows of that kind, and no other row is removed or changed. |
| `UploadProtocol.UploadAlone` | lib/actions/mun-branding.ts:78-137 | Not interrupted, an upload adds one row and one object; a logo or cover removes the old row and its object; nothing else changes and no lock is left. |
| `UploadProtocol.LeftoversAreFaults` | lib/actions/mun-documents.ts:59-86 | When no call is in progress, every stored object has a row, or some earlier step abandoned it: the call in charge of it crashed, or failed to delete it. |
| `Throttles.PasswordResets.RequestPasswordReset` | lib/actions/password-reset.ts:60-116 | Issues one hour-long token and one email if and only if the account exists, got no token in the last minute and fewer than three in the last hour; otherwise changes nothing. |
| `Throttles.PasswordResets.MintSetPasswordLink` | lib/actions/admin-staff.ts:118-133 | Afterwards the account's only unused link is the new one, live until its expiry; used links and other accounts' links are as before, and no email is counted. |
| `Throttles.PasswordResets.ResetPassword` | lib/actions/password-reset.ts:134-176 | Uses a live token and with it every token of the account; refuses any other. |
| `Throttles.LinkWorksWhileLive` | lib/actions/password-reset.ts:134-176 | In every run a link works if and only if it is unused and not yet at its expiry; it was then issued earlier with that hash and expiry, and it marks every unused link of its account, and no other, as used. |
| `Throttles.ResetEmailsAreLimited` | lib/actions/password-reset.ts:63-95 | In every run an account gets at most three reset emails in any hour, any two at least a minute apart. |
| `Throttles.LinksWorkOnce` | lib/actions/password-reset.ts:134-176 | In every run a reset or set-password link works at most once, and once one of an account's links worked none of the others it had works either. |
| `Throttles.EveryHourIsWithinLimit` | lib/actions/organizer-communications.ts:141-153 | A limit enforced on the hour before each event bounds every hour there is. |
| `Throttles.MessagesAreLimited` | lib/actions/organizer-communications.ts:269-302 | In every run a MUN's delegates get at most five messages in any hour, and only a MUN that sent five in the last hour is refused. |
| `Trends.GenerateBuckets` | lib/actions/admin-reporting.ts:72-83 | The loop terminates with the contiguous bucket starts from the start's bucket to the end's. |
| `Trends.TruncationContains` | lib/actions/admin-reporting.ts:51-59 | Truncation yields the Monday or midnight that starts the bucket holding the instant. |
| `Trends.TruncationIsUnique` | lib/actions/admin-reporting.ts:51-59 | No other bucket start's bucket holds it. |
| `Trends.BucketsIncrease` | lib/actions/admin-reporting.ts:72-83 | Bucket starts are strictly increasing. |
| `Trends.InstantHasOneBucket` | lib/actions/admin-reporting.ts:51-83 | Every instant of the range truncates to exactly one bucket of the series. |
| `Trends.PointIsItsBucket` | lib/actions/admin-reporting.ts:86-98 | Each point of a trend shows its bucket and the sum over exactly the rows created in the day, or the seven days, that begin there. |
| `Trends.TrendAddsUp` | lib/actions/admin-reporting.ts:96-98 | The zero-filled points sum to the rows of the range. |
| `Tickets.TicketRow.SendMessage` | lib/actions/support.ts:730-814 | The requester may write unless the ticket is closed, without asking for a status, and takes a waiting or resolved ticket back to work, dropping the note; staff move it to waiting or as they ask, but leave a resolved one, and claim a new one; anybody else is refused. |
| `Tickets.TicketRow.AssignTicket` | lib/actions/support.ts:822-846 | Assigns an open ticket, moving NEW to ASSIGNED. |
| `Tickets.TicketRow.UpdateTicketStatus` | lib/actions/support.ts:855-891 | Succeeds exactly for the eight changes of the table other than assigning, with a note to resolve; then the status is that, the note is set, dropped on reopening or kept, and an unowned ticket is claimed unless it is being closed. |
| `Tickets.ActionKeeps` | lib/actions/support.ts:80-126 | One action keeps a ticket consistent and moves its status along a path of the table. |
| `Tickets.LifeIsConsistent` | lib/actions/support.ts:80-126 | Over a ticket's life: unassigned exactly while NEW, resolution note exactly while RESOLVED or CLOSED, status changes only along paths of the table. |
| `Tickets.ClosedIsForever` | lib/actions/support.ts:80-87 | A closed ticket never changes again. |
| `Tickets.OwnedStaysOwned` | lib/actions/support.ts:822-846 | A ticket once owned never becomes unowned or NEW. |

## Left out

* Conference and pass status, opening dates and deadlines, form answers, prices and fees of a reservation: one-branch refusals before the counted part. Whether a seat is free is a parameter; any of these refusals is the protocol's abort step.
* Capacities are fixed. Organizers may lower them below what is sold.
* `getProductsAvailability`, rosters, receipts and all other reads.
* In `SeatTables` a transaction or a single UPDATE is one step, except acceptance and the sweep; locks inside them are the subject of `ReservationProtocol`, which covers reservations only, and so does its deadlock result.
* In `Results` the transactions that hold the MUN row are single steps, except that submitting counts and commits separately; an insert of an award waits for that row by its foreign key.
* Keys are in `ReservationProtocol`, payments and invitations in `SeatTables`; neither repeats the other.
* Payments of another provider, unknown orders, replayed events, and the legacy REFUNDED payment status: the event is ignored or treated as captured before anything is settled.
* Emails after a step, and the audit rows.
* `resetStaffMfa`, which deletes the rows that are counted, TOTP step reuse, and the suspended account, whose right code uses the challenge up before it is refused. Steps of the second factor are atomic, although two challenges of one account are not serialised by the code.
* The planner assumes NO ACTION foreign keys onto primary keys and, for kept rows, that `muns.organizer_id` is the only key out of muns and none leaves users; CASCADE and SET NULL keys are left to Postgres by the script.
* Form operations are atomic, one form, fields named by key; the code takes no lock between check and write.
* Upper-casing of letters whose capitals contain no code character, JavaScript's UTF-16 units, the HMAC behind a code.
* Upload keys are fresh, and a transaction that throws has not committed.
* Account deletion also deletes reset tokens; with that step the email limit would restart for an account nobody can sign in to.
* Bucket labels of years before 0100 or after 9999.
* Organizer sign-in codes: their throttle takes no lock.
* Accommodation, schedule, FAQ, board and document metadata, search, dashboards, exports, cron wiring, the web client.
- SeatOwnership.OneSeatPerPass: takes acceptance as one step, because it checks without the pass lock; `SplitAcceptKeepsOwnershipIff` and `OwnershipIff` say exactly what the split allows.
- SeatDatabase.Database.ReserveSeat: the key lookup and the committee, portfolio and room counts are steps of `ReservationProtocol`, where the locks they need are; here it is the pass check, the pass count and the insert.
- SeatDatabase.Database.ReserveTeamSeats: the key lookup is a step of `ReservationProtocol`; the pass's and conference's status checks are left out as above.
- SeatInvariants.TeamsHoldTogether: leaves out the seats an admin cancelled one by one; `AdminCancelSplitsTeam` is why.
- SecondFactor.CreationWindowBound: states 10 plus the late guesses where the comment suggests 10, because 10 is false of some windows.
- DeletionProofs.ReportIsExact: for NULL lines states an upper bound only, as the script's own header admits.
- Throttles.LinksWorkOnce: assumes that no issued token has a stored hash, which the unique column enforces.
