# Meal management, verified

A Dafny model of the canteen's meal-recording system and proofs of what it promises. Tables are maps and sequences
held in a class; a database transaction is one atomic step taken under the row locks it acquires. Each protocol is
described twice: as a function from old tables to new ones, about which the theorems over all runs are proved, and as
methods that change the tables row by row, each proved to have exactly that effect. What the functions answer and write
is stated a third time on the columns of the tables alone, without them: which check fails first, which rows are written
with which values, and exactly when a scan is approved, an email drafted or the provider called (`ServingDecisions`,
`ServingEffects`, `MailDrafts`, `MailOutcomes`, `MailApprovals`).

**Serving meals** (`ServingTables`, `ServingProtocol`, `ServingInvariant`, `ServingPreserved`, `ServingRuns`,
`ServingTheorems`, `ServingReplay`, `ServingDecisions`, `ServingEffects`, `ScanReceipts`, `MealService`,
`MealRecording`, `ScanApp`). A scan is two transactions: one reserves a request id and logs an attempt, the other
decides inside a savepoint. Retries, duplicate deliveries, scanner relocation, interruption, reconciliation,
pre-approvals, corrections and visitor allowances interleave freely; a process may stop anywhere, and a commit that
raised may have taken effect.

**Sending QR emails** (`MailTables`, `MailProtocol`, `MailInvariant`, `MailLife`, `MailSending`, `MailTheorems`,
`MailDrafts`, `MailOutcomes`, `MailApprovals`, `MailDailyLimit`, `MailLimitExample`, `MailService`, `MailWorker`). A
message is drafted, approved, claimed and delivered, while employees and credentials change; the provider is called
inside the delivering transaction, whether or not it is then committed.

**Smaller parts**: the migration ledger across crashes (`Migrations`), the fixed-window rate limiter (`Limiter`),
newest-first paging (`Paging`), the India-time calendar of scanner phones on server and in the browser (`Calendar`), the
checks and the duplicate tracker of visitor files (`VisitorCells`, `VisitorRows`) and the character-level CSV reader
(`EmployeeCsv`, against section 2 of RFC 4180).

`dafny verify dfyconfig.toml` checks everything.

## What the proofs found

- **An exact retry can be refused.** The project's README promises that an exact rejected retry returns its original
  rejection. Two scanner codes that are both unknown give the same fingerprint, so if a scan with one of them was logged
  first and one with the other was refused, repeating the second exactly is answered `IDEMPOTENCY_KEY_REUSED`.
  `ExactRetryCanBeRefused` is the run; `RetryGetsTheOriginalAnswer` proves that the promise holds exactly when the retry
  names the scanner code of the earliest attempt carrying the request's hash, which the code checks at
  backend/meal_management/meals.py:378. For the public scanner, whose settings are frozen per request, it always does
  (`PublicReplay`).
- **The daily email limit is per sender.** With k senders at once up to limit + k - 1 messages reach SENT in a day;
  `TwoSendersExceedTheLimit` shows that the k - 1 is needed.
- **The rate limiter is a little stricter than twice its limit** in any span of one window: at most 2 * limit - 1.
- **A baseline that dies between creating its ledger and its row** leaves an empty ledger over existing tables; the next
  run takes that for a fresh installation and starts to execute version 1 (`AStoppedBaselineIsMigratedOver`).
- **A serial number such as "²" fails the whole visitor file** with an error that is not caught, because it is a digit
  to `isdigit()` and not to `int()`; so does one of more than 4300 digits.

## How to read the model

- SHA-256 is injective: a digest column holds what was hashed. Encryption is invertible, a token stands for its hash,
  and a random email claim is identified with the send that drew it.
- The clock is one value a transaction and never goes back; several readings of it within a transaction are one. A
  delivery's stamp may lie anywhere between its daily-limit check and its commit.
- The session check is a parameter: the account it yields or the code it refuses with. Reference data (scanners,
  locations, meal types, accounts, eligibility) may change arbitrarily between transactions.
- Ids are positions, so the gaps a rolled back insert leaves in an auto-increment column do not appear.
- Times are in microseconds. `ServingTables.Call` is the receipt a running call holds in memory, not a table.
- A retry condition of the two loops of `_record` is errno 1205 or 1213 (`Retryable`).

## Model

| member | source | states |
|---|---|---|
| `ServingTheorems.OneServingPerRequest` | backend/meal_management/meals.py:298-602 | After any run of receives, processes, retries, reconciliations, crashes and ambiguous commits: a SUCCEEDED request has exactly one serving, whose meals are exactly those numbered 1 to its quantity; any other request has no serving. |
| `ServingTheorems.FinalIsForever` | backend/meal_management/meals.py:446-505 | A final request never changes again over any continuation of the run: not its status, code, binding, serving or meals. |
| `ServingTheorems.BoundExactlyWhenFinal` | backend/meal_management/meals.py:413-418 | In every committed state a request is bound to a proof if and only if it is final, although a rolled back decision undoes bindings made inside it. |
| `ServingTheorems.FinalizerBinds` | backend/meal_management/meals.py:420-506 | The only step that makes a request final is the processing of one of its own attempts, and it binds the request to that attempt's proof. |
| `ServingTheorems.BindingIsTheFinalizersProof` | backend/meal_management/meals.py:488-502 | A binding is written once: at the end of any run it is still the proof of the attempt that finalised the request. |
| `ServingTheorems.ProofIsAlwaysAvailable` | backend/meal_management/meals.py:476-479 | The proof-unavailable answer is never given for requests made by this code, neither when receiving nor when processing. |
| `ServingTheorems.AttemptClosesOnce` | backend/meal_management/meals.py:403-411 | An attempt that has left RECEIVED never changes again. |
| `ServingTheorems.AttemptsMatchServings` | backend/meal_management/meals.py:590-602 | Attempts with outcome SUCCESS and servings correspond one to one and belong to the same request. |
| `ServingTheorems.InterruptedNeverServes` | backend/meal_management/meals.py:628-661 | An open attempt closed by interruption or reconciliation never yields a serving, whatever runs before and after. |
| `ServingTheorems.ServingsAreALockApart` | backend/meal_management/meals.py:197-213 | Over whole runs, two servings of one employee with the same recorded type are at least the lock length apart, unless the earlier was corrected or voided. |
| `ServingTheorems.NothingInsideTheWindow` | backend/meal_management/meals.py:205-213 | With corrections: when a serving is recorded, no unvoided meal whose latest correction gives it the same type lies strictly inside the lock window. |
| `ServingTheorems.AllowancesCountServings` | backend/meal_management/meals.py:215-244 | Each type of a visitor QR has used exactly its committed servings and at most its limit; the summary row is the limit less the most any type has left, and is exhausted exactly when every type is. |
| `ServingTheorems.SummaryNeverBlocks` | backend/meal_management/meals.py:545-547 | So the summary row never refuses a visitor who has meals of the asked type left. |
| `ServingTheorems.OnlyApprovalConsumes` | backend/meal_management/meals.py:490-505 | Processing that does not newly approve changes no serving, meal or allowance; processing that does adds one serving with its meals and one use of exactly one allowance. |
| `ServingReplay.FirstAnswerIsOriginal` | backend/meal_management/meals.py:480-506 | The answer given when a request becomes final is the one its retries get, not marked as a duplicate. |
| `ServingReplay.RepetitionReceived` | backend/meal_management/meals.py:365-384 | A repetition of a final request is received if and only if it names the scanner code of the earliest attempt with the request's hash, and is then identified by that hash wherever the scanner stands now. |
| `ServingReplay.RetryGetsTheOriginalAnswer` | backend/meal_management/meals.py:365-480 | Replay stability, for any events before the retry and between its two halves: the original serving and meals, or the original code, are answered as a duplicate, if and only if the retry names that scanner code. |
| `ServingReplay.ChangedRetryIsRefused` | backend/meal_management/meals.py:446-470 | The other half: a scan under the id of a final request that differs in account, credential, meal type, quantity or proof is never answered with its outcome. |
| `ServingReplay.ExactRetryCanBeRefused` | backend/meal_management/meals.py:371-379 | A reachable state in which repeating a refused scan exactly is refused as a reused key, because another scan with another unknown scanner code came first: the condition above cannot be dropped. |
| `ServingReplay.PublicRetryIsIdentified` | backend/meal_management/scan_app.py:99-108 | For scans built from frozen settings the condition always holds. |
| `ServingDecisions.ApprovedExactlyWhen` | backend/meal_management/meals.py:508-602 | Over any run, on columns: a scan is newly approved if and only if its attempt is open, its request pending with the same fingerprint, the account the same, the prepared approval shown, the scanner and location active and the place unchanged, the meal type active, the credential unrevoked and unexpired, and: the employee active, eligible and not inside the lock window; or the visitor has had fewer servings of the type than the limit; or details were given, or an approval for exactly this scan is unrevoked, unexpired and its administrator still one. |
| `ServingDecisions.AnsweredByTheFirstFailedCheck` | backend/meal_management/meals.py:480-575 | And otherwise the code of the first check that fails, in the order of the code, is answered; a reading of an older visitor QR that passes them all asks for details. |
| `ServingDecisions.AuthorizedByTheChecks` | backend/meal_management/meals.py:134-168 | A pre-approval is made if and only if every check passes, stated on columns; else the first that fails gives the code. |
| `ServingDecisions.WhatAnApprovalStores` | backend/meal_management/meals.py:154-174 | The row of a pre-approval and the request it reserves, column by column; nothing when it is refused. |
| `ServingDecisions.EffectiveTypeMeans` | backend/meal_management/meals.py:205-213 | The type a meal counts as is that of its latest correction, or the recorded one if it has none. |
| `ServingDecisions.LeftMeans` | backend/meal_management/meals.py:215-226 | A type can be used exactly while fewer servings of it were committed than its limit. |
| `ServingEffects.WhatAnApprovedScanStores` | backend/meal_management/meals.py:576-602 | Over any run, the serving, meal, request, attempt and allowance rows of an approval, each column, and the ids answered; nothing else changes. |
| `ServingEffects.WhatARefusedScanStores` | backend/meal_management/meals.py:490-505 | Over any run, what a refusal or a request for details writes: which attempt columns, when the request becomes final with the code and bound to what was shown, and when it stays pending and unbound. |
| `ServingEffects.OtherScansChangeNothing` | backend/meal_management/meals.py:431-463 | Over any run, closed attempts, refused sessions, other accounts, fingerprints and proofs: the code of each, and that only the attempt is closed. |
| `ServingEffects.WhatARepetitionStores` | backend/meal_management/meals.py:464-479 | Over any run, a repetition of a final request is logged as a duplicate of its serving, or with its code. |
| `ServingEffects.WhatADeclinedScanStores` | backend/meal_management/meals.py:336-401 | A scan that fails a check on arrival is logged with the code of the first that fails, without its request; the caller is told if the request is taken. |
| `ServingEffects.WhatAnAcceptedScanStores` | backend/meal_management/meals.py:363-401 | Over any run, every column of an accepted scan's row, of the request it reserves and of its receipt, and by which place it is identified. |
| `ServingEffects.WhatAnInterruptionStores` | backend/meal_management/meals.py:628-636 | An interruption closes its attempt with its code if it is open, and does nothing else. |
| `ServingEffects.WhatACorrectionStores` | backend/meal_management/meals.py:247-274 | A correction is refused for exactly these reasons; once made, the meal counts as the new type and every other meal as before. |
| `ServingEffects.WhatAnIssueStores` | backend/meal_management/qr.py:201-219 | A visitor QR comes with its details and, for each of its types, the whole limit unused. |
| `ServingEffects.WhatAWithdrawalStores` | backend/meal_management/meals.py:176-186 | A withdrawal revokes that approval only. |
| `ServingEffects.WhatARevocationStores` | backend/meal_management/qr.py:139-148 | A revocation revokes that credential only. |
| `ScanReceipts.OthersSeeNothing` | backend/meal_management/scan_receipts.py:12-23 | The recovery lookup shows nothing to any account but the one the request was made for. |
| `ScanReceipts.LookupShowsTheOriginalAnswer` | backend/meal_management/scan_receipts.py:80-124 | And it shows that account the same serving, meals or code that a retry gets. |
| `ScanReceipts.OwnersAreAlwaysAnswered` | backend/meal_management/scan_receipts.py:12-23 | Over any run, the account a request was made for is never told there is no such scan: it gets the outcome or, while the request is open, the unconfirmed answer. |
| `MealService.MealDatabase.Receive` | backend/meal_management/meals.py:324-401 | Complaints in order, reservation of the request, identification of repeated scans, the attempt row: the effect on every table and the receipt. |
| `MealService.MealDatabase.UseMasterMealType` | backend/meal_management/meals.py:215-244 | One use of a type, with the summary row recomputed from the type with most left; or the refusal, with nothing changed. |
| `MealService.MealDatabase.InsertServing` | backend/meal_management/meals.py:590-599 | The loop adds one meal row a unit, numbered from 1, and returns their ids. |
| `MealService.MealDatabase.ServeEmployee` | backend/meal_management/meals.py:525-533 | The employee branch of the decision, with the rows it writes. |
| `MealService.MealDatabase.ServeVisitor` | backend/meal_management/meals.py:534-554 | The allocation branch: what is refused, what is counted, whose details are recorded. |
| `MealService.MealDatabase.ServeMaster` | backend/meal_management/meals.py:555-575 | The older visitor branch: details asked for, given, or an approval validated. |
| `MealService.MealDatabase.CreateServing` | backend/meal_management/meals.py:508-602 | The whole decision, performed write by write, ends as the decision function says. |
| `MealService.MealDatabase.Refuse` | backend/meal_management/meals.py:493-505 | A rejection refuses the request for good, binding it if that was deferred, or only the attempt. |
| `MealService.MealDatabase.Settle` | backend/meal_management/meals.py:490-505 | Savepoint, decision and rollback together have the net effect of the protocol. |
| `MealService.MealDatabase.ResolvePending` | backend/meal_management/meals.py:480-505 | The pending branch, with the check of a prepared approval and early binding. |
| `MealService.MealDatabase.ReplayFinal` | backend/meal_management/meals.py:464-479 | The branches for a final request. |
| `MealService.MealDatabase.Process` | backend/meal_management/meals.py:427-506 | Every branch of processing, and the answer of each. |
| `MealService.MealDatabase.Interrupt` | backend/meal_management/meals.py:628-636 | Closes an attempt if and only if it is still open. |
| `MealService.MealDatabase.Authorize` | backend/meal_management/meals.py:120-174 | The pre-approval path, which reserves a request without an attempt; a refused approval leaves nothing behind. |
| `MealService.MealDatabase.Correct` | backend/meal_management/meals.py:247-274 | A correction is appended, or refused with nothing changed. |
| `MealService.MealDatabase.IssueVisitor` | backend/meal_management/qr.py:201-219 | A visitor QR with one unused allowance for each of its meal types. |
| `MealService.MealDatabase.InsertAllowances` | backend/meal_management/qr.py:216-220 | The loop inserts exactly one allowance a type. |
| `MealRecording.AnswersAreCommitted` | backend/meal_management/meals.py:464-506 | An approval, or any answer marked as a duplicate, is what the tables say of the request after the step. |
| `MealRecording.Record` | backend/meal_management/meals.py:289-322 | A whole call with its retry loops, other transactions in between, failures before or after commits, and the closing of its attempt: exactly these tables and this reply; an approval only for a committed serving; an unknown outcome leaves the attempt closed. |
| `MealRecording.TheFirstSuccessIsReceived` | backend/meal_management/meals.py:296-306 | The receipt of a call is that of its first try that does not fail, made after everything failed tries and other calls left behind; none only if one failed for good or all did. |
| `MealRecording.TheFirstSuccessIsAnswered` | backend/meal_management/meals.py:307-323 | And so is its answer. |
| `MealRecording.ReconcileReceived` | backend/meal_management/meals.py:638-661 | Each of the oldest stale attempts is closed in its own transaction if still open by then, and exactly those are counted. |
| `MealRecording.Candidates` | backend/meal_management/meals.py:643-646 | Exactly the oldest stale attempts, in order, up to the limit. |
| `MealRecording.Lookup` | backend/meal_management/scan_receipts.py:80-124 | The answer built step by step is the one the theorems are about. |
| `ScanApp.ScanAppService.Reserve` | backend/meal_management/scan_app.py:58-88 | A row is inserted once; a concurrent row wins; another browser is refused. |
| `ScanApp.RowsStay` | backend/meal_management/scan_app.py:58-88 | A reserved row is never changed. |
| `ScanApp.ScansUseFrozenSettings` | backend/meal_management/scan_app.py:99-108 | Whatever the settings are changed to, every public scan of a request uses the ones frozen by its first. |
| `ScanApp.PublicReplay` | backend/meal_management/scan_app.py:99-108 | For the public scanner, over every run: scanning the same token again under a final request gets the original answer, scanning another token gets a refusal. |
| `ScanApp.WhatAReservationStores` | backend/meal_management/scan_app.py:58-88 | What each reservation answers and adds: its own row, one that got in first, or one frozen from the settings of the moment. |
| `ScanApp.ReservedForGood` | backend/meal_management/scan_app.py:46-88 | After any run and any change of settings, reserving again is answered with the first row, or refused to another browser. |
| `MailTheorems.AtMostOneCall` | backend/meal_management/email_worker.py:96-157 | No two provider calls are ever made for the same row, with any number of senders, crashes and commits that raise before or after taking effect. |
| `MailTheorems.RowsOnlyAdvance` | backend/meal_management/email_queue.py:289-299 | A row that has left QUEUED never returns; SENT and CANCELLED are final; a recorded approval stays. |
| `MailTheorems.SpentIsNeverCalled` | backend/meal_management/email_worker.py:110-118 | A message that is SENT, CANCELLED or failed without a claim is never handed to the provider again. |
| `MailTheorems.ClaimedEarlier` | backend/meal_management/email_worker.py:96-108 | A send can deliver only after its own claim was committed and acknowledged. |
| `MailTheorems.EveryCallWasAuthorised` | backend/meal_management/email_worker.py:110-122 | Every call of a run was made by a delivery, after an acknowledged claim, in a state where the message was approved, addressed to its owner's current address, the owner active, the credential unrevoked and unexpired, with its token. |
| `MailTheorems.Lifecycle` | backend/meal_management/employees.py:552-600 | An employee has at most one unrevoked credential; an archived one is inactive and has none, for good. |
| `MailTheorems.MessagesFollowTheirOwners` | backend/meal_management/email_queue.py:113-121 | A revoked QR or inactive employee has only SENT or CANCELLED messages; other employee messages go to the current email with the credential's token; a payload is null exactly when SENT or CANCELLED; approvals fit statuses. |
| `MailTheorems.DataNeverMisfits` | backend/meal_management/email_queue.py:179-211 | No payload ever misfits its credential, no approval conflicts, no unrevoked token is unavailable. |
| `MailTheorems.ChangesStopDelivery` | backend/meal_management/employees.py:485-540 | A change of address, a deactivation, archiving, replacement or revocation stops every message under way, even if undone at once: no later call, and CANCELLED unless already SENT. |
| `MailSending.RecentIsCounted` | backend/meal_management/email_queue.py:110-121 | Every delivery of the last day is counted by the query, although cancellation rewrites the time of SENT rows. |
| `MailDailyLimit.DailyLimit` | backend/meal_management/email_worker.py:32-36 | In any day whatsoever at most the limit reaches SENT if one sends at a time, and at most limit + k - 1 with up to k sends under way. |
| `MailLimitExample.TwoSendersExceedTheLimit` | backend/meal_management/email_worker.py:139-157 | The allowance for further senders is needed: two at once, with a limit of one, send two. |
| `MailDailyLimit.BookingsFitTheAllowance` | backend/meal_management/visitor_batches.py:375-411 | After a batch approval, what was sent in the last day and what is queued stay within the allowance together. |
| `MailDrafts.WhatAnAddressChangeStores` | backend/meal_management/employees.py:415-510 | Over any run: every email of the employee's credential not SENT is cancelled, and exactly one is added if and only if the employee is active and the credential unexpired: a draft to the new address with that credential's token. |
| `MailDrafts.WhatARegistrationStores` | backend/meal_management/employees.py:150-181 | The employee, the credential and the draft to their address, or waiting for its batch; or nothing. |
| `MailDrafts.WhatAnIssueStores` | backend/meal_management/qr.py:271-284 | Over any run: a credential and a draft for an active employee without one, or the reason there is none. |
| `MailDrafts.WhatAReplacementStores` | backend/meal_management/qr.py:254-269 | Over any run: the old credential revoked, its emails cancelled, another credential and its draft added; or nothing at all. |
| `MailDrafts.WhatAResendingStores` | backend/meal_management/qr.py:303-329 | Over any run: refused while the latest email to the address has an unknown outcome, answered with it while it is open, otherwise one draft more. |
| `MailDrafts.WhatAnActivationStores` | backend/meal_management/employees.py:518-550 | Over any run: the flag, and the cancellation of the emails of the credential in use. |
| `MailDrafts.WhatAnArchivingStores` | backend/meal_management/employees.py:552-600 | Over any run: the employee inactive and archived, the credential in use revoked, its emails cancelled, nothing else. |
| `MailDrafts.WhatABulkArchivingStores` | backend/meal_management/employees.py:602-662 | Over any run: the same for all of them, or the reason why for none. |
| `MailDrafts.WhatARevocationStores` | backend/meal_management/qr.py:139-156 | A revocation, once, clears the stored token and cancels the emails of that credential. |
| `MailDrafts.WhatAVisitorIssueStores` | backend/meal_management/qr.py:236-245 | A visitor QR with its allocation and, if there is an address, its email. |
| `MailDrafts.WhatAVisitorReplacementStores` | backend/meal_management/qr.py:286-301 | A visitor QR in use revoked and another issued, or nothing. |
| `MailDrafts.UnknownMeans` | backend/meal_management/email_queue.py:20-29 | An email needs review exactly when it failed without a reason that makes the failure certain. |
| `MailOutcomes.WhatADeliveryStores` | backend/meal_management/email_worker.py:110-137 | Over any run: the provider is called if and only if the claim is still held and the message can go out; once committed, an accepted message is SENT without payload, a refused one FAILED with its safe reason or EMAIL_DELIVERY_FAILED, an uncertain one FAILED, to be reviewed, with its payload. |
| `MailOutcomes.UncertainCallsNeedReview` | backend/meal_management/email_worker.py:41-59 | Over any run, after a call whose outcome was lost or uncertain: until it is cancelled the message keeps its claim or review mark and its payload, a send of it is answered as unsure, and sending that QR again to that address is refused while it is the latest. |
| `MailOutcomes.WhatAClaimStores` | backend/meal_management/email_worker.py:96-108 | Over any run: a queued message that can go out is claimed by this send, any other queued one cancelled with the reason, and no other touched. |
| `MailOutcomes.WhatACheckStores` | backend/meal_management/email_worker.py:32-36 | A send starts exactly if fewer rows than the limit were SENT in the last 24 hours. |
| `MailOutcomes.PreviewMeans` | backend/meal_management/email_queue.py:142-152 | In every state with the invariant, an email is not deliverable exactly if its status is another, its credential expired, or its visitor used up. |
| `MailOutcomes.ExistingMeans` | backend/meal_management/email_worker.py:41-59 | What a send is answered of a message that is not queued or no longer its own. |
| `MailApprovals.WhatASingleApprovalStores` | backend/meal_management/email_queue.py:301-319 | Over any run: which draft is queued with whose approval, and why any other request is refused or changes nothing. |
| `MailApprovals.WhatABulkApprovalStores` | backend/meal_management/email_queue.py:321-340 | Over any run: the first misfit is reported and nothing approved, or exactly the waiting ones are queued and counted. |
| `MailApprovals.WhatABatchApprovalStores` | backend/meal_management/visitor_batches.py:382-411 | Over any run: exactly the waiting messages of the batch are queued if they are as many as expected, fit the allowance and can go out; otherwise none. |
| `MailApprovals.WhatPreparingAVisitorEmailStores` | backend/meal_management/visitor_batches.py:413-471 | Over any run: the latest draft or a new message is queued with its approval, unless one is under way, the allowance is used up or more than three went to that address. |
| `MailService.MailDatabase.CancelForQr` | backend/meal_management/email_queue.py:113-121 | The update over all rows: open ones cancelled, payload and error cleared and the time rewritten for all of the QR. |
| `MailService.MailDatabase.RevokeCredential` | backend/meal_management/qr.py:139-156 | Revocation clears the stored token and cancels the emails, once. |
| `MailService.MailDatabase.Register` | backend/meal_management/employees.py:150-181 | Employee, credential and draft together, or nothing. |
| `MailService.MailDatabase.UpdateEmail` | backend/meal_management/employees.py:415-510 | Cancels the old emails and, for an active employee with a valid QR, drafts one to the new address. |
| `MailService.MailDatabase.SetActive` | backend/meal_management/employees.py:518-550 | Deactivation cancels; activation changes the flag only. |
| `MailService.MailDatabase.Archive` | backend/meal_management/employees.py:552-600 | Archives once, deactivates and revokes. |
| `MailService.MailDatabase.ArchiveBulk` | backend/meal_management/employees.py:602-662 | All or none, one after the other. |
| `MailService.MailDatabase.IssueEmployee` | backend/meal_management/qr.py:271-284 | Only for an active employee without a credential. |
| `MailService.MailDatabase.ReplaceEmployee` | backend/meal_management/qr.py:254-269 | The old credential goes as the new one comes, or neither. |
| `MailService.MailDatabase.ResendEmployee` | backend/meal_management/qr.py:303-329 | Reuses an open draft, refuses while one needs review, otherwise drafts anew. |
| `MailService.MailDatabase.IssueMaster` | backend/meal_management/qr.py:236-245 | A visitor QR with or without allocation and email. |
| `MailService.MailDatabase.ReplaceMaster` | backend/meal_management/qr.py:286-301 | Replacement of a visitor QR, or nothing. |
| `MailService.MailDatabase.ApproveSingle` | backend/meal_management/email_queue.py:301-319 | Which drafts are approved and which requests refused. |
| `MailService.MailDatabase.ApproveBulk` | backend/meal_management/email_queue.py:321-340 | All rows checked first, the first problem reported, those waiting approved. |
| `MailService.MailDatabase.ApproveEmails` | backend/meal_management/visitor_batches.py:382-411 | Row by row with rollback, equal to checking all and approving all. |
| `MailService.MailDatabase.RemainingToday` | backend/meal_management/visitor_batches.py:375-379 | The two counting loops give the allowance left. |
| `MailService.MailDatabase.PrepareSingle` | backend/meal_management/visitor_batches.py:413-471 | Reuse, limits and approval of one visitor email. |
| `MailService.MailDatabase.LimitReached` | backend/meal_management/email_worker.py:32-36 | Starts a send exactly if the limit is not reached. |
| `MailService.MailDatabase.Claim` | backend/meal_management/email_worker.py:96-108 | The compare-and-set claim, or the stored problem. |
| `MailService.MailDatabase.Deliver` | backend/meal_management/email_worker.py:110-137 | The call, its outcome and what is stored, whether or not the commit takes effect. |
| `MailWorker.ClaimIsTruthful` | backend/meal_management/email_worker.py:41-59 | Every answer given instead of a claim is true of the row. |
| `MailWorker.WhatAClaimAnswers` | backend/meal_management/email_worker.py:96-108 | Over any run, exactly when a claim ends the send and with what answer. |
| `MailWorker.WhatADeliveryAnswers` | backend/meal_management/email_worker.py:110-137 | Over any run, what each outcome of a delivery is answered: SENT only for an accepted message known to be stored, CANCELLED or FAILED when nothing was or can be sent, otherwise to be reviewed. |
| `MailWorker.Send` | backend/meal_management/email_worker.py:139-157 | A whole send with other transactions and commit failures in between: exactly these tables and this reply; SENT is answered only for a committed row, an unknown outcome as NEEDS_REVIEW. |
| `Migrations.ValidateLedger` | backend/meal_management/migrations.py:60-74 | The first misfit is reported; accepted if and only if the rows record the first migrations, and then the migrations after them are returned. |
| `Migrations.ContiguousIsExact` | backend/meal_management/migrations.py:72-73 | A list whose sorted values are 1 to n holds nothing else. |
| `Migrations.AcceptedExactlyWhenRecorded` | backend/meal_management/migrations.py:60-74 | A ledger is accepted if and only if its rows record the first migrations there are, each once, under their own names and checksums and applied. |
| `Migrations.MisfitIsReported` | backend/meal_management/migrations.py:63-71 | The first row that is not as its migration is reported: as unknown, as changed, or as unfinished. |
| `Migrations.ProceedsExactlyWhen` | backend/meal_management/migrations.py:202-212 | A run goes ahead if and only if the database is tracked or empty and the ledger is accepted. |
| `Migrations.MisfitsStopEverything` | backend/meal_management/migrations.py:67-68 | With any row of another name or checksum, unknown, unfinished or missing, a run changes nothing at all. |
| `Migrations.RunsBuildOnTheirOwnHistory` | backend/meal_management/migrations.py:202-232 | Over any runs, with whatever sets of migrations: one that executes a statement found its own first migrations recorded row by row, and what had been run before it was, apart from a baseline, exactly their statements. |
| `Migrations.BaselineRunsNothing` | backend/meal_management/migrations.py:172-200 | A baseline takes effect only on a reviewed database with tables and no ledger, records version 1 and runs nothing. |
| `Migrations.AStoppedBaselineIsMigratedOver` | backend/meal_management/migrations.py:190-212 | A baseline that stops after creating the ledger and before storing its row leaves a state in which the next run starts to execute version 1 over the existing tables. |
| `Migrations.EachStatementOnceInOrder` | backend/meal_management/migrations.py:202-232 | Over any runs, each stopped anywhere: APPLIED 1 to k and at most one APPLYING k + 1; the statements run are those of the applied versions and a first part of the one under way, each once, in version order. |
| `Migrations.UnderWayStopsEverything` | backend/meal_management/migrations.py:70-71 | A run that finds an APPLYING row executes nothing and changes nothing. |
| `Migrations.UnstoppedRunCompletes` | backend/meal_management/migrations.py:213-232 | A run that goes ahead and is not stopped leaves exactly the ledger of its migrations, all applied, with all their statements run and no others, apart from a baseline. |
| `Migrations.Runner.Apply` | backend/meal_management/migrations.py:202-232 | The loop, in a process that may die before any action, has exactly the effect of a first part of its plan; nothing, unless the ledger records its first migrations. |
| `Migrations.Runner.ApplyOne` | backend/meal_management/migrations.py:215-229 | One migration: marked, executed in order, finished, or stopped after any action. |
| `Limiter.DatabaseLimiter.Consume` | backend/meal_management/http_security.py:139-168 | Granted if and only if every bucket is below its limit; every bucket is charged either way, up to one above its limit. |
| `Limiter.LimitPerWindow` | backend/meal_management/scanner_access.py:60-88 | Over any calls: at most the limit in a window, windows at least a window apart, stored counts at most one above the limit. |
| `Limiter.GrantedExactlyBelowTheLimit` | backend/meal_management/http_security.py:139-168 | Over any calls, by the calls before alone: each bucket is in the window of its last call while that lasts, else in a new one; the call is granted if and only if each bucket was charged fewer times than its limit in that window. |
| `Limiter.LessThanTwiceTheLimitInAnySpan` | backend/meal_management/http_security.py:151-165 | In any half-open span of a window's length a bucket grants at most twice its limit less one. |
| `Limiter.TheBoundIsAttained` | backend/meal_management/http_security.py:151-165 | That bound cannot be lowered. |
| `Paging.CursorRoundTrip` | backend/meal_management/paging.py:12-31 | A formatted cursor is read back exactly for times from 0 to below 10^17 microseconds and ids from 1 to below 2^64; every other one is refused. |
| `Paging.ParsedIsAddressable` | backend/meal_management/paging.py:22-25 | Whatever is accepted is in that range, so the overflow branch is never taken. |
| `Paging.PageExtends` | backend/meal_management/paging.py:34-50 | One page continues the list without a gap, on a table that has grown. |
| `Paging.AllPages` | frontend/src/api.js:60-71 | The walk ends without error; every row of the first table is listed exactly once in strictly decreasing order; exactly these if only newer rows are inserted meanwhile. |
| `Calendar.EndOfDayRoundTrip` | backend/meal_management/scanner_phones.py:44-51 | The stored instant is the end of its day in India to the microsecond, and the day is read back from it. |
| `Calendar.AddMonthsExact` | backend/meal_management/scanner_phones.py:54-57 | A valid date exactly that many calendar months on, on the same day or the last of a shorter month; refused exactly outside years 1 to 9999. |
| `Calendar.AddMonthsMonotone` | backend/meal_management/scanner_phones.py:54-57 | A later day never gives an earlier result. |
| `Calendar.AddMonthsBack` | backend/meal_management/scanner_phones.py:54-57 | Going back returns to the start exactly if the day exists in both months. |
| `Calendar.AcceptedIsSoon` | backend/meal_management/scanner_phones.py:60-69 | Accepted exactly from today to six months on; the instant is after now and at most 185 days later; out of range exactly when earlier or later; an error only where the calendar ends. |
| `Calendar.EarlierIsSmaller` | backend/meal_management/scanner_phones.py:67-67 | Dates compare as their day numbers do. |
| `Calendar.BrowserAgrees` | frontend/src/scanner_access.js:22-29 | The browser's month arithmetic agrees with the server's wherever the server has an answer. |
| `Calendar.BrowserOffersTheSameDays` | frontend/src/scanner_access.js:18-34 | Both offer the same days at the same moment. |
| `VisitorCells.NumberMeans` | backend/meal_management/visitor_batches.py:150-153 | A serial number is accepted exactly if it is one to six decimal digits not all zero; the call fails exactly on digits that are no decimals or more than 4300. |
| `VisitorCells.SameNumberIsSameValue` | backend/meal_management/visitor_batches.py:150-153 | Two texts are the same number exactly if they agree in every decimal place, however many zeros lead. |
| `VisitorCells.PhoneMeans` | backend/meal_management/security.py:28-32 | A phone is valid exactly if it has at most 32 characters of the allowed kinds, seven to fifteen of them digits. |
| `VisitorCells.SameDigitsMeans` | backend/meal_management/visitor_batches.py:181-182 | Phones are the same exactly if the characters at their digit positions are, in order. |
| `VisitorCells.EmailMeans` | backend/meal_management/security.py:21-25 | An email is valid exactly if it is two parts around an at-sign and a last part after a dot, within 254 characters. |
| `VisitorCells.OwnMeans` | backend/meal_management/visitor_batches.py:142-176 | Each fault of a row, in terms of its cells, is reported once under its number, and nothing else. |
| `VisitorCells.KeptMeans` | backend/meal_management/visitor_batches.py:142-176 | What is kept of a row: exactly the cells without a fault, the number as its digits read from the left. |
| `VisitorRows.ValidateRows` | backend/meal_management/visitor_batches.py:132-195 | Every problem is reported once for each row that deserves it, by its cells, in order; the first unreadable row refuses the call. |
| `VisitorRows.RowChecker.Track` | backend/meal_management/visitor_batches.py:177-193 | What the tracker reports and remembers of one value. |
| `VisitorRows.DuplicatesNext` | backend/meal_management/visitor_batches.py:186-193 | What it reports is what the new row makes of the duplicates. |
| `VisitorRows.RowChecker.CheckRow` | backend/meal_management/visitor_batches.py:142-194 | One row's checks keep the tracker right for all columns. |
| `VisitorRows.NoProblemsMeans` | backend/meal_management/visitor_batches.py:132-195 | No problems if and only if no cell has a fault and no two rows have the same number, phone digits or address. |
| `VisitorRows.ReportedAsDeserved` | backend/meal_management/visitor_batches.py:132-195 | Every problem is reported once for each row that deserves it, by its cells: for its own fault, or because another row has the same number, the same phone digits in order, or the same address; whatever the row numbers. |
| `VisitorRows.OrderedByTitle` | backend/meal_management/visitor_batches.py:194-195 | Problems come in the order of rows and, within a row, of the column titles as text. |
| `VisitorRows.EachMemberIsToldOnce` | backend/meal_management/visitor_batches.py:186-193 | With distinct row numbers each row is told exactly what it deserves, once, whatever the size of a group of equal values. |
| `VisitorRows.SuperscriptFails` | backend/meal_management/visitor_batches.py:150-151 | A serial number that is a digit but no decimal raises an error that is not caught. |
| `EmployeeCsv.CsvRows` | frontend/src/bulk_employees.js:26-61 | The loop over characters computes the reader the lemmas are about, with its size limit and both errors. |
| `EmployeeCsv.ReadingUndoesPrinting` | frontend/src/bulk_employees.js:26-61 | Every table of trimmed fields with a non-empty field in each row, printed with all fields quoted, is read back as it was if it is not too large. |
| `EmployeeCsv.ReadingIsStable` | frontend/src/bulk_employees.js:26-61 | Whatever text is accepted, reading, printing and reading again gives the same table. |
| `EmployeeCsv.PlainTextIsRead` | frontend/src/bulk_employees.js:26-61 | Unquoted text is read line by line, whichever way lines end and whether or not the last does: fields between commas, trimmed, blank rows left out, a byte order mark ignored. |
| `EmployeeCsv.ReadingUndoesPlainPrinting` | frontend/src/bulk_employees.js:26-61 | A table of trimmed fields without quotes, commas and line ends, printed bare, is read back unchanged. |
| `EmployeeCsv.SpacesAfterAQuotedField` | frontend/src/bulk_employees.js:43-56 | White space after a quoted field is passed over, and the field trimmed like any other. |
| `EmployeeCsv.TextAfterAQuotedFieldIsRefused` | frontend/src/bulk_employees.js:55-55 | Anything else after a quoted field is refused. |
| `EmployeeCsv.StrayQuoteIsRefused` | frontend/src/bulk_employees.js:55-55 | So is a quote inside an unquoted field. |
| `EmployeeCsv.OpenQuoteIsRefused` | frontend/src/bulk_employees.js:58-58 | And a quote that is never closed. |
| `EmployeeCsv.TrimMeans` | frontend/src/bulk_employees.js:46-46 | Trimming takes white space from both ends and nothing else. |
| `EmployeeCsv.LengthIsThatOfUtf8` | frontend/src/bulk_employees.js:27-27 | The length checked is that of the text in UTF-8, a lone surrogate counting as U+FFFD. |
| `EmployeeCsv.ScanIsNormal` | frontend/src/bulk_employees.js:46-60 | Whatever is read has trimmed fields and no blank row. |

## Left out

- Columns that only report: completion times, `previous_served_at` in an answer, audit events, names and photos.
- HTTP routing, sessions, roles, CSRF and origin checks; the actor is a parameter.
- The reasons, names and purposes entered with approvals, corrections and revocations, with their length checks.
- `record_invalid` of the meal service: it only logs an attempt without a request.
- `pending`, `preview`, `status`, `validate_approved_bulk`, `export_svg` and `retrieve`: they read or re-check only.
- Catalog edits, meal-type eligibility edits, report grouping, department import and the replay of bulk registrations:
  each row of a bulk registration or visitor batch is a registration or issue of its own here.
- Unique employee codes: a collision rolls the transaction back.
- The names, meal types and pictures inside an email payload: its owner and token are modelled, and its text is taken to
  be valid, as it was when it was written.
- The order in which a bulk approval locks its rows, which decides which of several problems is reported: the list is
  taken to be in that order.
- Rows from before approvals were recorded (delivery mode LEGACY, requests without proof data).
- The order of row locks and deadlocks themselves: a deadlock is a failure before or after a commit.
- A process that dies inside `send` after its check simply takes no further step; liveness is not claimed anywhere.
- The PostgreSQL migration runner, the splitting of SQL text into statements, schema fingerprints and file names: a
  migration is its list of statements, and a baseline is reviewed or not.
- Manual repair of an APPLYING ledger row.
- `LimitReached` and the limiter take the settings as constants of a run.
- Two different kinds of bucket sharing one table are one limiter with a limit for each bucket and one window length.
- JSON and SQL of list endpoints: a page is the first rows below the cursor of a set of rows with distinct keys.
- JavaScript date strings: dates are compared as dates.
- The Unicode tables of Python (`isdigit`, whitespace, `lower`, `casefold`) are parameters of `VisitorCells`; cells
  arrive as stripped text, and reading CSV or XLSX files is not modelled there.
- The stability of the final sort of visitor problems: with distinct row numbers no two problems share row and column.
- The employee import after `csvRows`: header matching, departments, previews and the import request.
