# UnionBank: money, loans, paging and lockouts, verified

This project models the transactional core of UnionBank and proves what it is for.
It has four parts.

**The ledger.** Deposits, withdrawals and transfers are modelled twice. `Concurrent` is
a step machine: any number of workers each run a queue of operations; a thread takes
per-account locks one by one in sorted order, reads, decides, stages its writes in its
worker's session, commits and releases one by one, while exceptions strike between two
acquisitions, inside critical sections or in the commit, and the process may be killed at
any moment. `BankService.Bank` is the services themselves as methods of a class over one
worker's database session. In both the session outlives the request, as it does in the
program: only a transfer rolls back, so what another raised call has staged stays pending,
is shown to the worker's later queries, and is published by its next commit. Both are
proved against one sequential meaning, `Ledger.Exec` for a single movement and
`BankSpec.Step` for every service call. What follows is proved over all interleavings
(`Serialisability`, `Leftovers`, `Progress`, `ConcurrentLedger`), over all days a worker
can have, exceptions included (`Session`, `SessionRuns`, `SessionMoney`, `SessionReplay`,
`SessionBook`, `SessionPermanence`, `SoftDeletion`),
and over all sequences of completed calls (`Conservation`, `LedgerReplay`, `LoanBook`,
`Retries`, `Permanence`, `Witnesses`). `Acceptance` says of every service when it accepts
and what it then does, in row fields and with the bank's figures written out, so that the
meaning the rest is proved against is itself pinned.

**Loans.** `Emi` treats the closed formula over the reals and its rounding to paise;
`LoanBook` and `Payoff` follow a loan from application to its last instalment.

**Paging.** `Keyset` compares cursor paging with the plain sorted listing and with offset
paging. A query answer is any sequence that `ORDER BY timestamp DESC LIMIT k` allows, so
every statement holds for every order the database may choose among equal timestamps,
and with rows being appended between fetches.

**Time.** `RateLimiter` is the sliding-window limiter against its full history;
`LoginLockout` is the lockout record, the two login services, and whole runs of them.

## Conventions and assumptions

- Money is an integer number of paise. Rates and limiter stamps are reals, other times
  are seconds. `round` is to the nearest paisa, ties to even.
- Account numbers are ten-digit strings, so their order is that of the numbers.
- A commit is indivisible: it writes everything pending, or nothing and then the session
  is rolled back. A read under the account lock sees the last committed state (as the
  comment at `src/unionbank/application/services.py:598-599` says) under the session's own
  changes.
- One session per worker thread serves all its requests
  (`src/unionbank/infrastructure/database.py:206-211`) and does not flush on its own
  (`src/unionbank/infrastructure/database.py:122`): queries choose among the rows as they
  are stored and show them as the session has changed them, so before the commit they show
  neither added rows nor deletions, and still find an account whose soft deletion is
  pending (`src/unionbank/infrastructure/repositories.py:65-71`).
- Clock readings never go back. The two readings of one call may differ.
- Generated identifiers, clock readings, the result of a password check, whether an
  idempotency record could be stored and where an exception strikes are parameters.
- The primary keys and the goal's foreign key are enforced by the database
  (`src/unionbank/infrastructure/database.py:113`); a violation fails the commit.

## What the proofs bring to light

- A deposit or withdrawal that raises after staging its writes is answered with an
  exception and still takes effect when its worker next commits anything, unless a failing
  transfer rolls back first. A run is serial throughout exactly when no commit publishes
  such a leftover that changes the store, and no refusal rests on one
  (`Serialisability.EveryRunIsSerial`); concrete runs in which it happens are in
  `Leftovers`. Raised between its balance and its row, the deposit is credited without a
  row (`Leftovers.RaisedDepositMakesMoney`).
- Retrying a movement that did not get through, on the same worker, leaves the store of
  one execution exactly when the first attempt left nothing pending: always for a transfer,
  and for a deposit or withdrawal unless it raised after its first write
  (`SessionRuns.RetryCountsOnceExactlyWhen`). With both writes of a deposit staged the retry
  counts twice (`SessionRuns.RetriedDepositCountsTwice`); a withdrawal's retry sees the
  reduced balance. A movement that got through is repeated exactly when its result was not
  recorded and it can be made once more (`SessionRuns.RetryAfterSuccess`).
- The same holds of every service but transfer. The committed money is out by exactly the
  published drift of the calls cut short (`SessionMoney.EveryPaisaIsAccountedFor`), and the
  loan table agrees with the log exactly when no approval or EMI payment cut in two has
  been published (`SessionBook.BookAgreesExactlyWhenNothingTornIsPublished`). Nobody is
  overdrawn even then, inactive accounts stay inactive and loans only move forward
  (`SessionPermanence`).
- A freeze that raises between its two writes and is published leaves its account frozen
  but active, and lifting that freeze makes it usable again
  (`SessionPermanence.HalfFreezeThaws`).
- An exception between the two lock acquisitions of a transfer leaves the first lock taken
  for ever. That is the only way a run can get stuck (`Progress.StuckExactlyWhenJammed`,
  `Progress.InterruptedTransferJams`).
- The docstring of `_account_lock` says locks are released in reverse order. The code
  releases them in sorted order; the model does what the code does, and no theorem
  needs either order.
- The remaining amount of a loan starts at the principal and accrues no interest, while
  instalments include interest. A loan therefore closes after ceil(principal / EMI)
  payments, never later than its tenure (`Payoff.PaidOffWithinTenure`).
- A default EMI payment needs a whole instalment in the account even when less is owed
  (`Payoff.DefaultPaymentAccepted`).
- Contributing to a goal and deleting one check neither the account's status nor the
  goal's owner. A closed or frozen account's balance moves exactly when that account, not
  being deleted, makes a contribution it can pay for or deletes a goal with something in it
  (`Permanence.BarredBalanceMovesExactlyWhen`, `Witnesses.FrozenBalanceMoves`). A refund
  writes no log row, and vanishes when the caller's account is not live
  (`Witnesses.RefundsCanVanish`).
- Freezing also deactivates and unfreezing does not reactivate, so no call that completes
  makes a frozen account usable again.
- A cursor page drops rows that tie with its last row but do not fit. The two rows of a
  transfer always tie (`Keyset.TransferRowsCanBeLost`); paging is complete exactly when no
  tie lies across a page end (`Keyset.CompleteExactlyWhenCutsAreClean`).
- A page size of zero never makes progress (`Keyset.ProgressNeedsALimit`); the API
  excludes it (`src/unionbank/entrypoints/api/v2.py:584`), the repository does not.
- The retry hint of the limiter is truncated to whole seconds: waiting just the
  advertised time is enough exactly when nothing was truncated away, and can be too short
  (`RateLimiter.HintCanBeShort`). Every call raises on
  an empty list exactly when the configured limit is zero or less
  (`RateLimiter.AccountRateLimiter.CheckAndRecord`).
- An idempotency key is looked up without its account, operation or amount, so a key
  reused for another operation returns that operation's defaults (`BankSpec.Cached`).

## Model

| member | source | states |
|---|---|---|
| Ledger.ExecMeaning | src/unionbank/application/services.py:429-459 | A deposit, withdrawal or transfer run alone succeeds exactly when the amount is positive and the parties are distinct, live, transactable and funded; it then moves exactly each party's share, alters nothing else of any account and answers with the balances left |
| Ledger.RefusalChangesNothing | src/unionbank/application/services.py:601-628 | A movement is refused if and only if the ledger is unchanged |
| Ledger.RefusalOfOne | src/unionbank/application/services.py:429-445 | Why a deposit or withdrawal is refused, each reason if and only if its own condition on the stored account holds and no earlier one does; a withdrawal is short exactly when it asks for more than the balance |
| Ledger.RefusalOfTransfer | src/unionbank/application/services.py:566-628 | The same for a transfer: amount, self-transfer, sender, recipient, their standing and then the funds |
| Serialisability.EveryRunIsSerial | src/unionbank/application/services.py:93-111 | For every assignment of operations to workers and every interleaving with exceptions and kills: the store and all answers are serial at every moment if and only if no step publishes, or refuses because of, a change that an earlier raised operation left in its worker's session; and then the committed accounts and log are those of the recorded operations run one at a time in commit order, no operation takes effect twice, an answered one took effect with that answer and a failed one did not |
| Serialisability.SerialExactlyWhenHarmless | src/unionbank/application/services.py:438-486 | Step by step: from a serial state the next state is serial if and only if the move is harmless, which can be seen before it |
| Serialisability.OnlyRaisedWritesHarm | src/unionbank/application/services.py:674-682 | A run in which no deposit or withdrawal raises with writes staged is harmless; transfers never do harm, because they roll back |
| Leftovers.RaisedDepositSurfaces | src/unionbank/application/services.py:446-459 | For any two usable accounts: a deposit that raises after one or both of its writes, and the next deposit on the same worker, end in a store that is not the replay of the recorded operations, with the first one answered by an exception |
| Leftovers.RaisedDepositMakesMoney | src/unionbank/application/services.py:446-458 | Raised between its balance and its row, the deposit is credited and no row explains it |
| Leftovers.SessionMeaning | src/unionbank/infrastructure/database.py:206-211 | For every move: a raised deposit or withdrawal adds what it staged to its worker's session, a raised transfer leaves the session as it was, and a commit, a failed commit, a rollback and a kill leave it empty, so nothing is published twice |
| Serialisability.RealTimeOrder | src/unionbank/application/services.py:438-461 | In every run the order of effects respects real time: an operation answered before another starts comes before it |
| Serialisability.TransferIsAtomic | src/unionbank/application/services.py:594-682 | No step of a transfer, no exception and no kill leaves the committed store anywhere but where it was, or with both balances moved and both rows added on top of what the session showed, which is the store itself when nothing was left over |
| Serialisability.OnlyCommitsWrite | src/unionbank/application/services.py:630-666 | In every run, harmful or not, the store changes only at a commit, by the session's leftovers and the operation's whole set of writes at once |
| Serialisability.TransferMeaning | src/unionbank/application/services.py:630-663 | A transfer that passes its checks moves the amount from sender to receiver, leaves all other accounts alone and appends exactly the two matching rows |
| Serialisability.CommitIsExec | src/unionbank/application/services.py:630-672 | Committing the staged writes, and answering from the domain objects, does to the store what the operation does alone |
| Serialisability.Exclusive | src/unionbank/application/services.py:104-111 | Two threads in their critical sections share no account |
| Serialisability.ExecFrame | src/unionbank/application/services.py:594-599 | An operation changes nothing about an account it does not name |
| Serialisability.ExecInjective | src/unionbank/application/services.py:446-459 | Equal results and equal answers of an operation that goes through come only from equal stores |
| Serialisability.NextKeepsShape | src/unionbank/application/services.py:94-111 | Every move at all keeps each lock with the thread it names, workers running one operation at a time, and what is staged a prefix of the operation's writes |
| Serialisability.NextKeepsInv | src/unionbank/application/services.py:594-599 | Every harmless move also keeps everything read under locks current and the store the replay of the history |
| Progress.NeverStuck | src/unionbank/application/services.py:104-111 | After any run, if a thread is unfinished then some thread can step, or some thread wants a lock lost between two acquisitions |
| Progress.StuckExactlyWhenJammed | src/unionbank/application/services.py:104-111 | When no thread can step, some thread is unfinished if and only if some thread wants a lost lock |
| Progress.NeverStuckUninterrupted | src/unionbank/application/services.py:104-111 | Without an exception between two acquisitions some thread can always step |
| Progress.JammedForGood | src/unionbank/application/services.py:104-107 | A thread that wants a lost lock stays where it is through every move but its own interruption and the end of the process |
| Progress.InterruptedTransferJams | src/unionbank/application/services.py:104-107 | A transfer interrupted between its locks leaves a deposit to its lower account waiting for a lock nobody holds, and no thread can step |
| Progress.SomeoneCanAdvance | src/unionbank/application/services.py:86-87 | From any unfinished thread the chain of earlier threads and lock holders ends in one that can step or wants a lost lock, because locks are taken in ascending order |
| Progress.SelfTransferWouldDeadlock | src/unionbank/application/services.py:571-574 | Without the sender/receiver check a transfer to oneself would wait for itself for ever |
| Progress.MoveShrinks | src/unionbank/application/services.py:94-111 | Every step, failure or kill lowers a natural-number measure |
| Progress.RunsAreShort | src/unionbank/application/services.py:94-111 | Every run is finite: at most 14 steps for each operation |
| ConcurrentLedger.EveryRunKeepsPromises | src/unionbank/application/services.py:593-599 | Under every harmless interleaving money is conserved, nobody is overdrawn, and every log row states its account's balance at that point of the log |
| ConcurrentLedger.NobodyIsOverdrawn | src/unionbank/application/services.py:512-519 | Under every interleaving at all, harmful ones included, no balance is negative |
| BankService.Bank.StoreRecord | src/unionbank/application/services.py:389-420 | Storing a result commits the record alone, or changes nothing when that fails |
| Session.FaultFree | src/unionbank/application/services.py:422-486 | Without an exception and with nothing left over, a call on a session is the plain call |
| Session.ChangesAreStep | src/unionbank/application/services.py:446-459 | The writes of any call, made one after another, are its whole effect |
| SessionRuns.LeftoversFirst | src/unionbank/infrastructure/database.py:206-211 | What a commit publishes: what was left over, as if it had been committed, and then its own call, run and answered on top of that |
| SessionRuns.UndisturbedDay | src/unionbank/application/services.py:459 | On a day on which no commit finds leftovers the committed store is what the completed calls make of it one after another |
| SessionRuns.LeftoversComeFromRaisedCalls | src/unionbank/application/services.py:674-682 | Only a raised call that is not a transfer leaves anything behind, and every rollback empties the session |
| SessionRuns.RetryCountsOnceExactlyWhen | src/unionbank/application/services.py:359-420 | For every movement, key and exception: retried on its worker after a first attempt that did not get through, it leaves the store of one execution if and only if the first attempt left nothing pending, which is always so except for a deposit or withdrawal raised after its first write; and then it also answers as one execution does |
| SessionRuns.RetryAfterSuccess | src/unionbank/application/services.py:461-469 | A movement that got through and was recorded is answered again and changes nothing; one that was not recorded is executed again if and only if it can be made a second time |
| SessionRuns.RetriedDepositCountsTwice | src/unionbank/application/services.py:433-469 | A deposit that raises with both writes staged, retried with its key on its worker, is credited twice and logged twice |
| SessionMoney.EveryPaisaIsAccountedFor | src/unionbank/application/services.py:422-797 | On every day, whatever exceptions strike: committed balances and goals equal the log's net inflow plus the published drift of calls cut short, so money is conserved exactly when that drift is zero |
| SessionReplay.EveryBalanceIsAccountedFor | src/unionbank/application/services.py:446-458 | On every day each account's balance is the signed sum of its rows plus its refunds plus the published part of calls cut short |
| SessionReplay.PlanExcess | src/unionbank/application/services.py:1404-1437 | How far one account's balance and rows differ after the first n writes of any call |
| SessionMoney.PlanWorth | src/unionbank/application/services.py:1391-1437 | How far the books are out after the first n writes of any call: the drift table, write by write |
| SessionMoney.RaisedDepositMakesMoney | src/unionbank/application/services.py:446-458 | From any store, a deposit raised between balance and row, and any registration after it, leave more money than the log explains |
| SessionMoney.NobodyIsOverdrawn | src/unionbank/application/services.py:346-357 | On no day does any balance or goal fall below zero |
| SessionBook.BookAgreesExactlyWhenNothingTornIsPublished | src/unionbank/application/services.py:1259-1279 | On every day the loan table and the log agree, loan by loan and in total, if and only if no approval or payment cut in two has been published |
| SessionBook.PrefixKeepsBook | src/unionbank/application/services.py:1404-1437 | The first n writes of a call keep the book in order exactly when they do not cut an approval, or a payment between loan and row |
| SessionBook.RaisedApprovalBreaksTheBook | src/unionbank/application/services.py:1258-1266 | From any store in order, an approval raised after its first or second write and any registration after it leave a disbursed loan the log does not know |
| SessionPermanence.InactiveForGood | src/unionbank/application/services.py:907-958 | On every day an inactive account stays inactive, and without savings calls of its own its balance never moves |
| SessionPermanence.HalfFreezeThaws | src/unionbank/application/services.py:912-915 | From any store, a freeze raised between its two writes, published by a registration, bars its account and is undone by lifting it |
| SessionPermanence.LoansOnlyMoveForwardOnEveryDay | src/unionbank/application/services.py:1401-1424 | From any day to the next every loan stays in order, keeps its terms and moves only forward |
| SoftDeletion.PendingDeletionIsNotSeen | src/unionbank/infrastructure/repositories.py:65-71 | After a delete that raised before its commit the worker still finds the account: repeating the delete commits it, and deleting a goal refunds it |
| BankService.Bank.Deposit | src/unionbank/application/services.py:422-469 | Whatever the session holds and wherever an exception strikes, does to store and session, and answers, what the one-call meaning of a session says: retries, leftovers, and what stays behind |
| BankService.Bank.Withdraw | src/unionbank/application/services.py:488-542 | The same for a withdrawal |
| BankService.Bank.AttemptTransfer | src/unionbank/application/services.py:601-672 | Raises exactly when an exception strikes on its way or in its commit, and has then committed nothing; otherwise it has refused unchanged or published the session with all four writes |
| BankService.Bank.Transfer | src/unionbank/application/services.py:561-741 | The whole transfer likewise; an exception inside it is answered with the database error and empties the session |
| BankService.Bank.ApplyInterest | src/unionbank/application/services.py:749-797 | Store, session and answer are those of the plain call, whose interest `Acceptance.InterestMeaning` states; an exception before its commit leaves its first writes pending, and its commit publishes whatever is pending |
| BankService.Bank.ApplyLoan | src/unionbank/application/services.py:1139-1233 | The checks in order, then a pending loan at the rounded EMI, as `Acceptance.ApplicationMeaning` and `Emi.TotalCost` state them; an exception before its commit leaves its first writes pending, and its commit publishes whatever is pending |
| BankService.Bank.ApproveLoan | src/unionbank/application/services.py:1237-1279 | Activates a pending loan, sets its dates and disburses its principal in one commit; an exception before its commit leaves its first writes pending, and its commit publishes whatever is pending |
| BankService.Bank.RejectLoan | src/unionbank/application/services.py:1317-1334 | Rejects a pending loan and nothing else; an exception before its commit leaves its first writes pending, and its commit publishes whatever is pending |
| BankService.Bank.PayEmi | src/unionbank/application/services.py:1368-1437 | Takes the smaller of payment and debt from the loan's owner, advances the due date and closes the loan when nothing is left, as `Acceptance.PaymentMeaning` states; an exception before its commit leaves its first writes pending, and its commit publishes whatever is pending |
| BankService.Bank.CreateGoal | src/unionbank/application/services.py:1517-1534 | A new goal holds nothing; an exception before its commit leaves its first writes pending, and its commit publishes whatever is pending |
| BankService.Bank.Contribute | src/unionbank/application/services.py:1536-1573 | Moves money from account to goal, with a row, and completes the goal at its target; an exception before its commit leaves its first writes pending, and its commit publishes whatever is pending |
| BankService.Bank.DeleteGoal | src/unionbank/application/services.py:1575-1592 | Removes the goal and credits the caller's live account, without a row; an exception before its commit leaves its first writes pending, and its commit publishes whatever is pending |
| BankService.Bank.Register | src/unionbank/application/services.py:178-202 | A new account is empty, active and not frozen; an exception before its commit leaves its first writes pending, and its commit publishes whatever is pending |
| BankService.Bank.CloseAccount | src/unionbank/application/services.py:304-315 | Deactivates the account when the password is right; an exception before its commit leaves its first writes pending, and its commit publishes whatever is pending |
| BankService.Bank.FreezeAccount | src/unionbank/application/services.py:901-915 | Freezes and deactivates an account that is neither closed nor frozen; an exception before its commit leaves its first writes pending, and its commit publishes whatever is pending |
| BankService.Bank.UnfreezeAccount | src/unionbank/application/services.py:945-958 | Lifts a freeze without reactivating; an exception before its commit leaves its first writes pending, and its commit publishes whatever is pending |
| BankService.Bank.DeleteAccount | src/unionbank/application/services.py:986-995 | Hides the row and deactivates it; its balance stays; an exception before its commit leaves its first writes pending, and its commit publishes whatever is pending |
| Acceptance.InterestMeaning | src/unionbank/application/services.py:749-797 | Interest is refused for want of interest if and only if the account is live and transactable and holds at most 171 paise; otherwise such an account is credited, with one row, an amount of which twelve are 3.5% of the balance to within 6 paise |
| Acceptance.TwelveMonths | src/unionbank/domain/interest.py:25-26 | For every balance, twelve months' interest on it differs from 35/1000 of it by at most 6 paise |
| Acceptance.ApplicationMeaning | src/unionbank/application/services.py:1139-1233 | An application is accepted if and only if the account is live and transactable and principal, tenure and rate lie within the product's limits, written out; the loan is then pending, owes its principal, and its instalments come to at least the principal and one month's interest and at most the principal and every month's interest on all of it, each to within half a paisa an instalment |
| Acceptance.ScreeningMeaning | src/unionbank/application/services.py:1149-1192 | Which refusal an application gets: the missing account, the barred account, the unknown product and the amount limits, each exactly when |
| Acceptance.ApprovalMeaning | src/unionbank/application/services.py:1237-1279 | An approval succeeds if and only if the loan is pending and its account live and transactable; it pays the principal to that account with one row, and the first instalment is due thirty days on |
| Acceptance.RejectionMeaning | src/unionbank/application/services.py:1317-1334 | A rejection succeeds if and only if the loan is pending, and changes its status alone |
| Acceptance.PaymentMeaning | src/unionbank/application/services.py:1368-1437 | For every instalment, default or explicit: a payment is accepted if and only if the loan exists, runs and is owned by the payer, who is live and transactable, and the amount asked is positive and at most the balance; it is refused for ownership exactly when a running loan is another account's; the smaller of amount and debt is taken, booked on the payer, and the due date moves thirty days or the loan closes |
| Acceptance.OnlyOwnersPay | src/unionbank/application/services.py:1382-1383 | Over any run from a bank where it is so, the empty one included, each row about a loan, disbursement or repayment, is on the account of that loan's owner |
| Acceptance.GoalMeaning | src/unionbank/application/services.py:1517-1534 | A goal is created if and only if its name has two characters, its target is positive and its account exists |
| Acceptance.ContributionMeaning | src/unionbank/application/services.py:1536-1573 | A contribution is accepted if and only if it is positive, the account is not deleted and holds it, and the goal exists; it moves from balance to goal, with one row |
| Acceptance.GoalDeletionMeaning | src/unionbank/application/services.py:1575-1592 | A goal can always be deleted; exactly its money goes to the caller's balance if the caller is not deleted, and no row is written |
| Acceptance.GoalsCompleteAtTheirTarget | src/unionbank/infrastructure/repositories.py:565-572 | Over any run from a bank where it is so, the empty one included, a goal is marked completed exactly while it holds its target |
| Acceptance.RegistrationMeaning | src/unionbank/application/services.py:178-202 | A fresh number gives an empty open account and changes nothing else |
| Acceptance.ClosingMeaning | src/unionbank/application/services.py:304-315 | An account closes if and only if it is live and the password is right, and nothing but its activity changes |
| Acceptance.FreezingMeaning | src/unionbank/application/services.py:901-915 | A freeze succeeds exactly on open accounts; the two refusals are told apart by whether the account is frozen |
| Acceptance.UnfreezingMeaning | src/unionbank/application/services.py:945-958 | Lifting a freeze succeeds exactly on frozen accounts and leaves their activity alone |
| Acceptance.DeletionMeaning | src/unionbank/application/services.py:986-995 | Any live account can be deleted, whatever it holds; it is hidden and deactivated and keeps its balance |
| Acceptance.CachedMeaning | src/unionbank/application/services.py:370-387 | A record is answered as it is to its own kind of operation, and by the operation's defaults to another |
| Conservation.MoneyIsConserved | src/unionbank/application/services.py:422-797 | After any sequence of calls that no exception cuts short, all balances plus all goals equal deposits - withdrawals + interest + disbursements - repayments according to the log, less refunds of goals deleted when no live account was found; no balance is negative |
| Witnesses.RefundsCanVanish | src/unionbank/application/services.py:1585-1592 | A concrete history in which ten paise vanish with a goal |
| Conservation.StepConserves | src/unionbank/application/services.py:1536-1592 | Call by call, money held changes by what the log says and by lost refunds only; transfers and contributions are neutral |
| Conservation.DeleteGoalUnexplained | src/unionbank/application/services.py:1575-1592 | Deleting a goal keeps the total, except for the refund that reaches nobody |
| Conservation.RunKeepsSolvent | src/unionbank/application/services.py:346-357 | No call sequence overdraws an account or a goal |
| LedgerReplay.LogReplaysBalances | src/unionbank/application/services.py:446-458 | From any store, a run's rows and refunds explain every balance change, and each row's balance is the account's balance right after it |
| LedgerReplay.ExecExplained | src/unionbank/application/services.py:631-663 | The rows a movement appends are exactly its effect, and each states the running balance |
| LedgerReplay.RefundExplained | src/unionbank/application/services.py:1584-1592 | A refund is an effect on its account without a row |
| LoanBook.BookAgreesWithLog | src/unionbank/infrastructure/repositories.py:677-691 | In every state reached by calls that no exception cuts short, `total_disbursed` is the sum of disbursement rows, `total_disbursed - total_outstanding` the sum of repayment rows; each loan agrees with its own rows, paid plus remaining is the principal, a disbursed loan is closed iff nothing remains, APPROVED is never reached, and an active loan with k payments is due 30(k+1) days after approval |
| LoanBook.StepKeepsBook | src/unionbank/application/services.py:1259-1279 | Every call keeps loans, totals and rows in agreement |
| LoanBook.PayKeepsBook | src/unionbank/application/services.py:1401-1437 | An EMI payment keeps loan, totals and rows in agreement |
| LoanBook.LoansOnlyMoveForward | src/unionbank/application/services.py:1237-1262 | Over any run a loan's terms and approval date never change, its debt never grows and its status only moves forward |
| LoanBook.StepMovesForward | src/unionbank/application/services.py:1324-1333 | One call takes a status only from PENDING to ACTIVE or REJECTED, or from ACTIVE to CLOSED |
| LoanBook.AcceptedEmiCovers | src/unionbank/application/services.py:1163-1198 | For every loan application accepted, the rounded EMI times the tenure covers the principal |
| Emi.EmiAmortises | src/unionbank/utils/formatting.py:98-103 | Charging interest monthly and paying x leaves exactly zero after n months if and only if x is the unrounded EMI |
| Emi.OwedAtEnd | src/unionbank/utils/formatting.py:98-103 | Any other instalment misses zero by its error, compounded |
| Emi.RoundedEmiResidue | src/unionbank/utils/formatting.py:91-104 | With the debt growing by annual rate / 1200 a month, paying the rounded EMI leaves at most half a paisa a month, compounded: 0.5((1+r)^n - 1)/r paise |
| Emi.TotalPaid | src/unionbank/utils/formatting.py:98-103 | n exact instalments bring in the principal and at least the first month's interest |
| Emi.RoundedEmiCovers | src/unionbank/utils/formatting.py:91-104 | When that interest is worth half a paisa per instalment, rounded instalments still cover the principal |
| Emi.TotalCost | src/unionbank/utils/formatting.py:91-104 | For every principal, rate and tenure the rounded instalments add up to at least the principal and one month's interest and at most the principal and n months' interest on all of it, the monthly interest being annual rate / 1200, each to within n/2 paise |
| Emi.RoundPaise | src/unionbank/utils/formatting.py:104 | The result is within half a paisa, and even at a tie |
| Payoff.RemainingEmisCounts | src/unionbank/domain/entities.py:228-234 | `remaining_emis` is the least number of instalments that covers what is left |
| Payoff.RemainingEmisOtherwise | src/unionbank/domain/entities.py:229-234 | It is zero without an instalment, and for an overpaid loan counts the whole instalments it is ahead, below zero |
| Payoff.OneLess | src/unionbank/application/services.py:1401-1422 | A default payment lowers `remaining_emis` by exactly one |
| Payoff.DefaultPaymentAccepted | src/unionbank/application/services.py:1374-1399 | It is accepted if and only if the loan runs, the caller owns it, is live and transactable, and holds a whole instalment |
| Payoff.WithinTenure | src/unionbank/application/services.py:1068-1074 | Every accepted loan needs between one and tenure-many instalments |
| Payoff.PaidOffWithinTenure | src/unionbank/application/services.py:1391-1422 | In any history that pays a loan by default instalments only, payments made plus `remaining_emis` is ceil(principal / EMI), at most the tenure, and a disbursed loan is closed exactly after that many |
| Payoff.FundedPaymentsCloseTheLoan | src/unionbank/application/services.py:1368-1437 | With funds for one instalment each time, exactly `remaining_emis` payments close the loan and no fewer do |
| Retries.MovementMeaning | src/unionbank/application/services.py:359-387 | A request that can never be right is refused even under a recorded key; a recorded key is answered from its record; anything else is carried out, and recorded exactly when it succeeds under a key whose record is stored |
| Retries.RetryIsInvisible | src/unionbank/application/services.py:359-387 | Repeating a recorded request at any later point changes no later store and no other answer, and returns the recorded answer |
| Retries.RecordedRequestIsAnswered | src/unionbank/application/services.py:577-589 | A well-formed request whose key is recorded changes nothing and gets the record |
| Retries.RecordsGrow | src/unionbank/application/services.py:716-739 | One call adds at most the caller's own successful result under its own new key |
| Retries.FailuresAreNeverRecorded | src/unionbank/application/services.py:461-469 | In every run only successes are on record |
| Permanence.OnlyTheseBar | src/unionbank/domain/entities.py:100-102 | A call takes away `can_transact` if and only if it is a close with the right password, a freeze or a delete of that live account |
| Permanence.BarredForGood | src/unionbank/application/services.py:907-958 | Once lost, `can_transact` never returns, and the balance then moves only by the run's savings-goal entries for that account |
| Permanence.BarredBalanceMovesExactlyWhen | src/unionbank/application/services.py:1536-1592 | A call moves a barred account's balance if and only if the account is not deleted and itself contributes an amount it holds to an existing goal or deletes a goal with something in it |
| Permanence.BarredBalanceIsFixed | src/unionbank/application/services.py:907-915 | Without savings calls by the account itself its balance never changes again |
| Witnesses.FrozenBalanceMoves | src/unionbank/application/services.py:1536-1592 | A concrete history in which a frozen account's balance falls and rises |
| Permanence.DeletedForGood | src/unionbank/infrastructure/repositories.py:144-163 | A deleted account's row never changes again |
| Keyset.WalkIsExact | src/unionbank/infrastructure/repositories.py:435-462 | Any complete cursor walk, with rows appended above the cursor meanwhile, shows rows of the listing at the first fetch, newest first, none twice; a row is missing if and only if it tied with a page's last row beyond its limit |
| Keyset.Stable | src/unionbank/infrastructure/repositories.py:446-451 | Rows appended at or above the cursor do not change what a later page can select |
| Keyset.PageMeaning | src/unionbank/infrastructure/repositories.py:451-462 | One page: its items, cursor and `has_more` against the rows it was taken from |
| Keyset.PageShowsOnlyWhatWasAsked | src/unionbank/infrastructure/repositories.py:437-449 | Every item of a page has the account and kind asked for, a timestamp within the dates asked for and, after the first page, below the cursor |
| Keyset.PageShowsAllThatWasAsked | src/unionbank/infrastructure/repositories.py:437-455 | Every such row of the table is on the page, or lies at or below the cursor handed on with more to come |
| Keyset.WalkShowsOnlyWhatWasAsked | src/unionbank/infrastructure/repositories.py:437-444 | A whole walk shows only rows of the account, kind and dates asked for |
| Keyset.WalkShowsAllThatWasAsked | src/unionbank/infrastructure/repositories.py:437-455 | A row of the table with the account, kind and dates asked for is shown if and only if it did not tie with a page's last row beyond its limit |
| Keyset.FollowingTerminates | src/unionbank/infrastructure/repositories.py:446-455 | Following cursors ends, whatever is appended above them: a client that has fetched n pages and is promised another has seen n * limit rows of the first listing and not yet all of it |
| Keyset.WalkExists | src/unionbank/infrastructure/repositories.py:451-455 | From any table and cursor there is a complete walk |
| Keyset.WalkLength | src/unionbank/infrastructure/repositories.py:446-455 | Every page of a complete walk but the last is full |
| Keyset.CompleteExactlyWhenCutsAreClean | src/unionbank/infrastructure/repositories.py:446-455 | A walk shows the whole listing if and only if no tie lies across the end of one of its pages |
| Keyset.WalkIsListing | src/unionbank/infrastructure/repositories.py:435-462 | With distinct timestamps the concatenated pages are the listing as it stood at the first fetch |
| Keyset.WalkMatchesOffsets | src/unionbank/infrastructure/repositories.py:409-413 | Then page k of the walk is page k of offset paging over that listing |
| Keyset.TransferRowsCanBeLost | src/unionbank/application/services.py:639-661 | The two rows of a transfer, listed one to a page, are never both shown |
| Keyset.PageExists | src/unionbank/infrastructure/repositories.py:451-455 | Every fetch has an answer |
| Keyset.ProgressNeedsALimit | src/unionbank/infrastructure/repositories.py:447-455 | A page with more to come hands on no cursor exactly at limit zero, and otherwise a lower one |
| RateLimiter.AccountRateLimiter.CleanupWindow | src/unionbank/utils/account_rate_limit.py:50-53 | Pruning leaves exactly the live stamps of the full history |
| RateLimiter.AccountRateLimiter.Prune | src/unionbank/utils/account_rate_limit.py:53 | The comprehension keeps the stamps after the cutoff, in order |
| RateLimiter.AccountRateLimiter.CheckAndRecord | src/unionbank/utils/account_rate_limit.py:55-79 | The answer, hint included, is the one the full history gives, and a stamp is recorded exactly when the call is admitted; the call raises exactly when the limit is zero or less |
| RateLimiter.AccountRateLimiter.GetRemaining | src/unionbank/utils/account_rate_limit.py:81-84 | The limit less the live stamps of the full history, at least zero |
| RateLimiter.AccountRateLimiter.EveryWindowIsBounded | src/unionbank/utils/account_rate_limit.py:26-28 | However the limiter was called, no window of its length holds more than its limit of admitted stamps |
| RateLimiter.AdmitKeepsSpaced | src/unionbank/utils/account_rate_limit.py:64-79 | Admission keeps the spacing even though the clock is read again for recording |
| RateLimiter.WindowBound | src/unionbank/utils/account_rate_limit.py:64-79 | Spaced stamps put at most max into any window |
| RateLimiter.RefusedUntilOldestExpires | src/unionbank/utils/account_rate_limit.py:67-75 | After a refusal, and no other call, a retry is admitted if and only if the oldest live stamp, element 0, has left the window |
| RateLimiter.HintIsClose | src/unionbank/utils/account_rate_limit.py:67-75 | The hint is at least one second, short of the true wait by less than one, and beyond it only when it is that one second |
| RateLimiter.HintPlusOneIsEnough | src/unionbank/utils/account_rate_limit.py:70-75 | Waiting the advertised seconds plus one is always enough; the advertised seconds alone exactly when the true wait was no longer |
| RateLimiter.HintCanBeShort | src/unionbank/utils/account_rate_limit.py:70-75 | A concrete refusal after which waiting the advertised seconds is refused again |
| LoginLockout.AsyncAuthService.IsLocked | src/unionbank/infrastructure/async_repositories.py:810-829 | Reports a running lock and the minutes left, and deletes a spent one |
| LoginLockout.AsyncAuthService.RecordFailure | src/unionbank/infrastructure/async_repositories.py:781-808 | Counts a failure, starts afresh after a spent lock, locks at the fifth |
| LoginLockout.AsyncAuthService.CustomerLogin | src/unionbank/application/async_services.py:629-669 | Whatever the shared session holds, a login answers and changes that key's record as the one-key machine does, other keys untouched; it commits exactly when the password was checked, so a spent lock dropped for an account that is not open stays pending; a commit that fails empties the session and counts nothing |
| LoginLockout.AsyncAuthService.AdminLogin | src/unionbank/application/async_services.py:712-740 | The same for administrators, an unknown name counting as a wrong password |
| LoginLockout.LoginMeaning | src/unionbank/application/async_services.py:629-669 | A login succeeds if and only if the key is not locked, the account is open and the password right; a wrong password is counted if and only if the key is not locked and the account open; every account that is not open is told its standing unless locked |
| LoginLockout.LockedMinutes | src/unionbank/infrastructure/async_repositories.py:824-826 | A locked key is told the whole minutes left, and at least one |
| LoginLockout.GuessBound | src/unionbank/infrastructure/async_repositories.py:781-829 | Over any sequence of tries, failed commits, other requests' commits and restarts: until a login succeeds, any span of T seconds sees at most 5(floor(T / 900) + 1) counted wrong passwords for one key |
| LoginLockout.MissedBound | src/unionbank/application/async_services.py:651-655 | Wrong passwords escape that count only through commits that fail, at most one each |
| LoginLockout.LockedUntilExpiry | src/unionbank/infrastructure/async_repositories.py:810-829 | In every run a key is locked if and only if its fifth failure is less than the lockout ago, and a refused try changes nothing |
| LoginLockout.TriesLeft | src/unionbank/infrastructure/async_repositories.py:807-808 | In every run a counted wrong password is told exactly how many tries are left of the current five |
| LoginLockout.NotOpenLeavesTheRecord | src/unionbank/application/async_services.py:639-649 | A visit to an account that is not open adds no failure, commits nothing, and leaves the record as it was but for a lock already spent |
| LoginLockout.FiveTimesApart | src/unionbank/infrastructure/async_repositories.py:796-805 | 5k failures on, k whole lockouts have passed |

## Left out

- Conservation.MoneyIsConserved: for calls that complete or are refused; `SessionMoney.EveryPaisaIsAccountedFor` is the law for days with exceptions.
- LoanBook.BookAgreesWithLog: for calls that complete or are refused; `SessionBook` has the exact condition on days with exceptions.
- ConcurrentLedger.EveryRunKeepsPromises: for harmless runs; `Leftovers.RaisedDepositMakesMoney` is a harmful one in which it fails.
- Retries.RetryIsInvisible: for requests that do not overlap and whose first attempt was recorded; overlapping requests with one key are not modelled, and `SessionRuns.RetryCountsOnceExactlyWhen` and `RetryAfterSuccess` have the unrecorded ones.
- Permanence.BarredForGood: savings-goal entries are excepted because the goal services check no status; for calls that complete or are refused, `SessionPermanence` has the days with exceptions.
- LedgerReplay.LogReplaysBalances: for calls that complete or are refused; `SessionReplay.EveryBalanceIsAccountedFor` has the days with exceptions, without the statement about each row's own balance.
- LoanBook.LoansOnlyMoveForward: for calls that complete or are refused; `SessionPermanence.LoansOnlyMoveForwardOnEveryDay` has the days with exceptions.
- SessionRuns.RetryCountsOnceExactlyWhen: for a retry on the worker of the first attempt; on another worker the leftover stays where it is.
- Keyset.WalkIsExact: rows are only ever added above the cursor in hand, as an append-only log with a non-decreasing clock does; a row committed late with an older timestamp is not covered.
- RateLimiter.AccountRateLimiter.CheckAndRecord: the clock is assumed never to go back.
- LoginLockout.GuessBound: tries run one after another; overlapping requests for one key, which nothing serialises between the lock check and the recorded failure, are not modelled, and a wrong password whose commit fails is not counted (`LoginLockout.MissedBound`).
- Exceptions after a commit, such as a failing rollback of the idempotency record (`src/unionbank/application/services.py:420`): the call is answered as raised although it took effect.
- BankService.Bank.Deposit: the class is one worker's session with no other worker committing in between; workers side by side are the subject of `Concurrent`.
- Interest, loans, goals and administration in the concurrent model, where they take no lock.
- The asynchronous services' money locks, which lock a transfer under one joined key.
- The synchronous login-attempt repository, whose session does not flush on its own.
- SQLAlchemy's refusal to use a session whose commit has failed before it is rolled back: such a refusal is an exception at the next call's first query, which any day may contain.
- A pending change that sets a column back to the value it was loaded with, which SQLAlchemy does not write; attributes of a pending row that another worker changes meanwhile.
- Float and Decimal representation, amounts finer than a paisa, Numeric(14,2) column limits.
- `update_profile`, `undelete` and maintenance scripts, which write rows directly and bypass the services.
- Category and description texts (beyond which loan or goal a row refers to), transaction ids, message texts, malformed cached JSON.
- Notifications, the circuit breaker, the audit log, token versions and password hashing, with the commits they make of their own.
- Page numbers below one and negative page sizes; the parsing of the limiter's limit string.
- Search, statistics, CSV, the API and CLI layers, the front end.
