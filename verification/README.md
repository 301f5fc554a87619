# MiniLedger, verified

MiniLedger is a double-entry ledger: concurrent database transactions move money, and locks, idempotency
keys, per-account hash chains and an outbox have to stay in agreement. This project models its posting core
in Dafny and proves what the design relies on.

| file | what it holds |
|---|---|
| `Text.dfy`, `Wrappers.dfy` | lock order, decimal printing, `\|`-joined records, `Option` and `Result` |
| `HashChain.dfy` | `hashPosting`, the `verifyChain` loop, tamper evidence |
| `Journals.dfy` | the journal aggregate, money sums, the per-account fold |
| `Ledger.dfy` | tables and the sequential ledger: `post`, `transfer`, `reverse`, `open` as functions from tables to tables |
| `Naming.dfy`, `Spelling.dfy` | requested ids against stored ids: which guards a posting finds, and exactly when they work |
| `Soundness.dfy`, `Guarantees.dfy` | what a sound ledger is, that every operation keeps it, and what follows |
| `Store.dfy` | the ledger as it runs: a class over mutable tables, the poster's loops, claim / complete / rollback, proved equal to the functions of `Ledger.dfy` |
| `Protocol.dfy` | the concurrent ledger as a step machine, one step per SQL statement |
| `Invariant.dfy`, `Commits.dfy`, `Runs.dfy` | its invariant, and preservation by every step of every schedule |
| `Serializability.dfy` | serial equivalence, exactly-once, reversal exclusion |
| `Liveness.dfy`, `Deadlocks.dfy` | no deadlock, completion; exactly when two transfers can deadlock |
| `Refusals.dfy`, `Solo.dfy` | why requests are refused, over whole runs; the reversal that comes too late; requests that run alone |
| `Instances.dfy` | concrete requests and runs at which a condition of the general results fails |
| `Statements.dfy`, `Opening.dfy` | cursor pagination over any run; what an opened account is good for |
| `Audit.dfy` | the audit service over any run, and on edited tables |
| `MoneyText.dfy` | the dashboard's money printer and parser |

## How the model is built

A run (`Protocol.Exec`) starts from any sound ledger, serves any number of transfers, reversals and account
openings, and follows any schedule of single statements; a connection may be lost at any point before commit.
Transactions share what Postgres shares under read committed: committed tables, `FOR UPDATE` row locks held to
the end, uncommitted unique-index entries (keys, reversal links), and the `seq` counter, which never rolls
back. All else is private until commit. Nothing in the step machine mentions a serial order; the theorem
`SerialEquivalence` produces it.

SHA-256 is an arbitrary function from strings to strings of 64 lower-case hex digits. No result assumes that
it is injective: where the design relies on collision resistance, the theorem ends in "or these two entries of
these two logs have different pre-images and the same digest".

Accounts are looked up as the code does it: a request names an account by a text, a `uuid` column finds it in
any letter case and returns the id as it is stored (`Text.StoredId`), `floors` and `byId` are filled under the
stored id and read under the text, `running` is keyed by the text, and rows are locked and written by stored id.
The sequential ledger, the store and the step machine all do this. The results about runs hold for requests in
any spelling: serial equivalence, exactly-once, declared errors, justified refusals, reversal exclusion, statement
pages, conservation of postings. Only two groups need a condition, which a caller can check beforehand:

- Chains, floors, stored balances, the audit and the text of receipts need transfers that name their accounts as
  they are stored (`Ledger.NamesAsStored`, part of `Protocol.Proper`). What happens otherwise is stated exactly, see
  below.
- Freedom from deadlock needs transfers whose two texts are in the order of the ids they stand for, or stand for
  one id (`Ledger.LocksInRowOrder`, `Liveness.InOrder`). Names as stored are, and `DeadlockExactly` shows that the
  condition is needed.

Assumptions, all in `Protocol.WellFormed`, `Soundness.AccountSound` and the `requires` clauses:

- A run starts from a ledger whose tables fit together (`Soundness.Kept`, which the migrated ledger meets and every
  call in any spelling keeps); the first group above starts from one that also has sound chains, floors and
  receipts (`Soundness.Sound`).
- Random ids are fresh and distinct, contain no `|`, and are in the form in which they are stored (they are UUIDs).
- A floor, where there is one, is at most zero: the code opens accounts with floor 0, and the seeds have none.
- `FOR UPDATE` returns the latest committed row, a conflicting insert waits for the other transaction, and
  locks last until commit or abort.

A request is `Done` when its transaction has ended and the server has its answer, and `Crashed` when the
transaction was rolled back with its connection. Whether the answer of a `Done` request reaches the caller is
not part of the model: a caller who sees a connection error may be in front of either, and results about
crashed requests are about those rolled back.

Points where code and documentation, or code and expectation, part ways; the model follows the code:

- Owner and floor are enforced, for every journal, balance and caller, if and only if the request names the
  account as it is stored (or the account has neither, like `@world`): `GuardsWorkExactly`, and for transfer
  requests on registered ledgers `TransferGuardsExactly`. The request schema accepts upper-case UUIDs
  (src/ledger/interface/transfer.dto.ts:4-5) and nothing normalises them, so that `floors` and `byId`
  (src/ledger/application/ledger-poster.ts:74-75, 82, 97) come back empty-handed. `TransferDecides` says exactly
  which transfers are posted; `UpperCaseDebit` is an input.
- Stored balances stay in step with the log under a transfer if and only if its two texts stand for two
  accounts (`ReconciledExactly`); two spellings of one account pass the `same_account` check and the later
  write remains (`SelfTransferBetweenSpellings`).
- A row's hash covers the text of the request, and the audit recomputes it from the stored id. After a transfer the
  chain of an account is reported as valid if and only if the transfer named that account as stored, or two
  pre-images collide (`TransferVerifiesExactly`, `SpelledTransferVerdict`).
- The lock order is that of the texts. Two transfers between the same two rows can run into a deadlock if and only
  if exactly one of them has its texts in row order, and no key stops either before it locks (`DeadlockExactly`;
  `CrossingDeadlocks` is an input).
- `Currency.of` looks names up in an object literal, so that it succeeds on inherited properties such as `valueOf`,
  with an undefined code (src/shared/kernel/currency.ts:23). A transfer in such a currency is turned down for its
  accounts (`NoCodeNeverPosts`). Opening an account in one fails on the `NOT NULL` column, which is the one and only
  error that no service declares (`OnlyDeclaredErrors`).
- `null` and `''` as previous hash give the same digest, although a unit test is titled as if they did not
  (src/ledger/domain/hash-chain.spec.ts:23). `PreImageExactly` says that nothing else is confused; only the stored
  link tells the two apart (`NullAndEmptyLink`).
- docs/data-model.md:101 writes the hash as a plain concatenation; the code joins the fields with `|`, and that
  separator is what makes the encoding injective.
- `seq` is not part of the pre-image, so renumbering rows in place is not detected (`SeqIsNotCovered`).
- The dashboard's parser refuses what its printer shows as soon as a thousands comma appears
  (`GroupedTextIsRefused` gives the exact condition).
- The fingerprint covers the amount as it was typed (`AmountTextIsCompared`), so `5` and `05` under one key
  conflict (`LeadingZeroConflicts`).
- A reversal that loses the race is told `insufficient_funds` if and only if its legs do not keep to the floors of
  the moment, because the floor check comes before the unique constraint, and `already_reversed` otherwise
  (`LosingReversal`; `LateReversalLacksFunds` is a run). It is the only refusal that differs from the serial
  ledger's answer (`RefusalsAreJustified`).

## Model

| member | source | states |
|---|---|---|
| Text.PrintInjective | src/ledger/domain/hash-chain.ts:15-16 | decimal printing of signed big integers never confuses two amounts |
| Text.PrintDenotes | src/ledger/application/ledger-poster.ts:127-128 | the printed text of a number is the one text of digits without superfluous zeros, signed if negative, that has its value |
| Text.JoinInjective | src/ledger/domain/hash-chain.ts:11-17 | joining with a separator loses no field as long as only the first may contain the separator |
| Text.SortedDistinct | src/ledger/infrastructure/persistence/drizzle-account-balances.repository.ts:50 | deduplicated and strictly ascending, with exactly the ids given |
| HashChain.PreImageExactly | src/ledger/domain/hash-chain.ts:10-17 | for ids without separators, pre-images are equal if and only if contents are equal and the previous hashes read as the same text |
| HashChain.PreImageText | src/ledger/domain/hash-chain.ts:10-17 | the hashed text: previous hash, transaction, account, amount and balance in this order, the numbers in decimal, with a bar between them |
| HashChain.PreImageInjective | src/ledger/domain/hash-chain.ts:10-17 | equal pre-images mean equal previous hash and equal content |
| HashChain.VerifyChain | src/ledger/domain/hash-chain.ts:32-41 | the loop reports the least position whose link or hash fails, everything before it being a valid chain, and `valid` exactly for valid chains |
| HashChain.VerifyFindsFirstDivergence | src/ledger/domain/hash-chain.ts:32-41 | a position is the first divergence if and only if it is the one reported |
| HashChain.TamperEvidence | src/ledger/domain/hash-chain.ts:10-41 | two verifying chains with one head are the same chain entry for entry, or some entry of one collides with some entry of the other |
| HashChain.ReplacedEntry | src/ledger/domain/hash-chain.ts:32-41 | for any replacement of one entry of a valid chain: where verification then fails, when the head changes instead, and when it is a collision |
| HashChain.SingleFieldEdit | src/ledger/domain/hash-chain.ts:32-41 | editing the link, stored hash, amount or balance of one entry is reported at exactly that entry; for the hashed fields a collision is the only escape |
| HashChain.NullAndEmptyLink | src/ledger/domain/hash-chain.ts:12-35 | `null` and `''` hash alike, yet the verifier rejects the one and accepts the other at genesis |
| Journals.CreateBuildsDoubleEntries | src/ledger/domain/journal-transaction.ts:17-34 | a journal is built exactly from non-empty, one-currency, zero-free, zero-sum legs; otherwise the error is that of the first bad leg in order, and `unbalanced` only if no leg is bad |
| Journals.TransferMovesAmount | src/ledger/domain/journal-transaction.ts:36-42 | a transfer builds for every non-zero amount, takes it from one account, gives it to the other and touches no third |
| Journals.NegatedNets | src/ledger/application/reverse.service.ts:45-50 | negated legs have the opposite fold on every account and the opposite total |
| Journals.NegatedIsDoubleEntry | src/ledger/application/reverse.service.ts:51-55 | the compensating entry of a double entry always builds and is a double entry |
| Journals.FoldByAccount | src/ledger/domain/balance-fold.ts:3-10 | the loop's map has exactly the accounts of the legs, each with the sum of its amounts |
| Ledger.LockOrder | src/ledger/infrastructure/persistence/drizzle-account-balances.repository.ts:50-52 | the lock order is strictly ascending and covers exactly the involved accounts |
| Ledger.CanonicalInjective | src/ledger/application/transfer.service.ts:112-115 | on validated input the fingerprinted text determines the request except for its key, even if the owner id contains the separator |
| Ledger.CanonicalText | src/ledger/application/transfer.service.ts:112-115 | the fingerprinted text: owner, both accounts, amount as typed and currency in this order, with a bar between them |
| Naming.CheckAccountsDecides | src/ledger/application/ledger-poster.ts:70-76 | no account is rejected if and only if every leg finds, in any spelling, an account of the journal's currency |
| Naming.AdmitDecides | src/ledger/application/ledger-poster.ts:65-87 | for any journal in any spelling: admitted, refused for its owner, or refused for the first leg whose account is unknown or of another currency, each under its exact condition |
| Naming.GuardsFound | src/ledger/application/ledger-poster.ts:74-82 | a leg finds its account in the map again if and only if it names it as stored |
| Naming.StoredGuards | src/ledger/application/ledger-poster.ts:78-97 | for legs that name accounts as stored, reading the maps is reading the accounts table |
| Naming.WriteRowsLast | src/ledger/application/ledger-poster.ts:113-120 | a row holds what was written to it last |
| Naming.WriteRowsAsStored | src/ledger/application/ledger-poster.ts:113-120 | for accounts named as stored, writing back is independent of the order and touches nothing else |
| Naming.LoopKeepsFloors | src/ledger/application/ledger-poster.ts:92-101 | after every single leg the account stands at or above the floor that was found for it |
| Naming.GuardsWorkExactly | src/ledger/application/ledger-poster.ts:68-101 | owner and floor of an account are enforced for every journal, balance and caller if and only if the request names it as stored, or it has neither |
| Store.LedgerStore.constructor | drizzle/0002_seed_world_accounts.sql:1-11 | the migrated ledger: the seeded accounts with zero balances and nothing else |
| Store.LedgerStore.Initialize | src/ledger/infrastructure/persistence/drizzle-account-balances.repository.ts:18-22 | adds a zero balance row without a chain head, or refuses an id that has a row; changes no other |
| Store.LedgerStore.UpdateBalance | src/ledger/infrastructure/persistence/drizzle-account-balances.repository.ts:34-44 | overwrites the row the text stands for if there is one, otherwise changes nothing |
| Store.LedgerStore.LockForUpdate | src/ledger/infrastructure/persistence/drizzle-account-balances.repository.ts:46-63 | returns exactly the rows of the requested ids, each under the text it was asked for, or the fault if one has no row |
| Store.LedgerStore.AppendJournal | src/ledger/infrastructure/persistence/drizzle-journal-transactions.repository.ts:19-36 | appends the journal row and one posting row per leg with the next `seq` values, or writes nothing if the target already has a reversal |
| Store.LedgerStore.ClaimKey | src/ledger/infrastructure/persistence/drizzle-idempotency.repository.ts:17-33 | inserts the key if it is free, otherwise returns the stored row and changes nothing |
| Store.LedgerStore.CompleteKey | src/ledger/infrastructure/persistence/drizzle-idempotency.repository.ts:35-40 | stores journal id and receipt in the key's row, keeping its fingerprint |
| Store.LedgerStore.ReadAccounts | src/ledger/application/ledger-poster.ts:65-76 | for any spelling: stops at the first unknown or wrong-currency account in leg order; otherwise `floors` and `byId` hold the accounts found, under their stored ids |
| Store.LedgerStore.OwnsDebits | src/ledger/application/ledger-poster.ts:78-87 | true if and only if no debited leg whose text is a key of `byId` is a user account of somebody else; other texts are passed over |
| Store.LedgerStore.PostNext | src/ledger/application/ledger-poster.ts:92-110 | one leg of the loop: the missing row, the floor found for the text, the new balance, the link; exactly a step of the sequential posting |
| Store.LedgerStore.PostLegs | src/ledger/application/ledger-poster.ts:89-110 | the imperative posting loop computes `RunLoop`, including where it stops; a text that `floors` lacks has no floor |
| Store.LedgerStore.WriteBalances | src/ledger/application/ledger-poster.ts:113-120 | every running row is written back in lock order, by stored id |
| Store.LedgerStore.Post | src/ledger/application/ledger-poster.ts:59-134 | for any spelling: tables and receipt are those of the sequential `Post`; a failure leaves every table and the sequence as they were |
| Store.LedgerStore.Run | src/ledger/application/transfer.service.ts:78-105 | claim, replay or conflict, post, complete: exactly the sequential transfer, with everything rolled back on failure |
| Store.LedgerStore.Transfer | src/ledger/application/transfer.service.ts:50-76 | validation in order, then the unit of work; a refusal changes no table |
| Store.LedgerStore.Reverse | src/ledger/application/reverse.service.ts:36-83 | exactly the sequential reversal; a refusal changes no table |
| Store.LedgerStore.Open | src/ledger/application/accounts.service.ts:30-41 | adds the account with floor 0 and its zero balance row together, or neither, also when a primary key refuses one of them |
| Store.ClaimThenPost | src/ledger/application/transfer.service.ts:86-104 | posting under a fresh claim and completing it is the same as posting and then recording the key |
| Soundness.GenesisIsSound | drizzle/0002_seed_world_accounts.sql:1-11 | the migrated ledger satisfies every invariant |
| Soundness.LoopKeepsChains | src/ledger/application/ledger-poster.ts:90-110 | for legs that name accounts as stored, the running map is at all times the materialised state of the log written so far: balance the sum, each `balanceAfter` the prefix sum, head the last hash of a valid chain |
| Soundness.PostKeepsChains | src/ledger/application/ledger-poster.ts:89-120 | posting legs that name accounts as stored keeps every account's chain and reconciliation, and leaves the logs of uninvolved accounts alone |
| Soundness.AppendKeepsOutbox | src/ledger/application/ledger-poster.ts:122-133 | one event per journal, carrying that journal's rows and its kind, is kept when a journal and its event are added |
| Soundness.PostKeepsSound | src/ledger/application/ledger-poster.ts:59-134 | posting legs that name accounts as stored keeps all ledger invariants together |
| Soundness.PostKeepsKept | src/ledger/application/ledger-poster.ts:59-134 | posting in any spelling keeps registered accounts, balanced journals that own their rows, one event per journal, one reversal per target, and fingerprinted keys |
| Guarantees.LoopRefinesFold | src/ledger/application/ledger-poster.ts:90-110 | the loop succeeds if and only if every prefix fold respects every floor, then moves each balance by the fold, and otherwise fails for lack of funds |
| Guarantees.PostRefinesFold | src/ledger/application/ledger-poster.ts:89-120 | for any journal whose legs name accounts as stored, repeated accounts included: each balance moves by its fold, each log grows by its own legs in order, all else is untouched, and the stored legs are the posted ones |
| Guarantees.PostDecides | src/ledger/application/ledger-poster.ts:65-120 | the exact outcome of posting on a registered ledger for any spelling, error by error; `no balance row` is not among them |
| Guarantees.ReceiptTells | src/ledger/application/ledger-poster.ts:92-133 | any posting in any spelling: line by line the texts of the receipt denote the amount of the leg and the balance it leaves (start plus the fold so far), the rows hold the same numbers, and the event carries the receipt |
| Guarantees.FitsAsStored | src/ledger/application/ledger-poster.ts:90-101 | for accounts named as stored, the legs fit the guards as found if and only if they fit those of the tables |
| Guarantees.BalanceAboveFloor | src/ledger/application/ledger-poster.ts:96-100 | on a sound ledger no account's balance is below its floor |
| Guarantees.SumByGroups | src/ledger/infrastructure/persistence/drizzle-audit.repository.ts:55-65 | a grouped sum over the log is the sum of the groups' sums, for any grouping |
| Guarantees.PostingsConserved | src/ledger/infrastructure/persistence/drizzle-audit.repository.ts:55-65 | in every currency the postings sum to zero, in whatever spelling they were requested |
| Guarantees.BalancesFollowPostings | src/ledger/application/ledger-poster.ts:70-76 | the balances of a currency's accounts add up to that currency's postings, thanks to the account-currency check |
| Guarantees.Conservation | src/ledger/application/audit.service.ts:80-86 | in every currency both the postings and the account balances of a sound ledger sum to zero |
| Guarantees.ReversalAlwaysBuilds | src/ledger/application/reverse.service.ts:36-55 | a stored transaction's reversal, however its id is spelled, is its negated legs, always builds, names accounts as stored and is postable; an unknown id is the only refusal |
| Guarantees.ReversalAdmitted | src/ledger/application/reverse.service.ts:78-81 | a reversal is never refused for an account, a currency or an owner |
| Guarantees.ReversalChainCancels | src/ledger/application/reverse.service.ts:45-71 | a chain original, reversal, reversal of the reversal and so on moves strictly forward, and nets to zero on every account when even, to the original's fold when odd |
| Guarantees.TransferEffect | src/ledger/application/transfer.service.ts:50-105 | a transfer that posts, in any spelling, goes between accounts of its currency; it moves exactly the amount typed and touches no third balance if and only if its texts stand for two rows, otherwise the later write remains; its receipt has two lines whose texts denote the amounts and the new balances; a key is completed with it; and a debited account named as stored is one the caller may debit and stays above its floor |
| Guarantees.ReversalEffect | src/ledger/application/reverse.service.ts:57-72 | a reversal that posts moves every balance by the opposite of the original's fold, links to the original, and the original had no reversal before |
| Guarantees.ReversalReceipt | src/ledger/application/reverse.service.ts:45-72 | the receipt of a reversal has a line for each leg of the original, in order, denoting the opposite amount and the balance that is left |
| Guarantees.ReverseAnswers | src/ledger/application/reverse.service.ts:36-83 | every answer of a reversal by its exact condition: no such transaction, one that has a reversal, legs whose undoing breaks a floor on the way, success |
| Guarantees.ServeKeepsSound | src/ledger/application/transfer.service.ts:50-105 | every operation of the three services that names accounts as stored, answered or refused, keeps all ledger invariants |
| Guarantees.ServeKeepsKept | src/ledger/application/transfer.service.ts:50-105 | every operation of the three services, in any spelling, answered or refused, keeps what `PostKeepsKept` lists |
| Spelling.TransferValidates | src/ledger/application/transfer.service.ts:51-63 | on any ledger: `unknown_currency` exactly if the lookup finds nothing, else `non_positive_amount` exactly if the amount is not digits or is zero, else `same_account` exactly if the two texts are equal |
| Spelling.TransferAnswers | src/ledger/application/transfer.service.ts:50-105 | every answer of a validated transfer under a free key by its exact condition: the first account that is unknown or of another currency, the owner, the floors, success |
| Spelling.TakenKeyAnswers | src/ledger/application/transfer.service.ts:86-92 | under a taken key a validated transfer gets the stored receipt if its fingerprint is the stored one, and `idempotency_conflict` otherwise; nothing is written |
| Spelling.TransferDecides | src/ledger/application/transfer.service.ts:50-105 | a transfer under a free key is posted if and only if its currency is found, its amount is positive digits, its texts differ, both accounts are found in its currency, and those of the two that are named as stored allow it |
| Spelling.TransferRefusedOnlyForDebit | src/ledger/domain/overdraft.ts:3-6 | on a sound ledger a transfer that names its accounts as stored, by a caller who may make it, gets `insufficient_funds` if and only if the debit alone would break the debited account's floor |
| Spelling.ReconciledExactly | src/ledger/application/ledger-poster.ts:89-120 | a transfer keeps every stored balance equal to the sum of its postings if and only if its texts stand for two accounts |
| Spelling.LegVerifiesExactly | src/ledger/application/ledger-poster.ts:102-110 | a leg posted onto a genuine log under some text leaves a chain that verifies if and only if the text is the stored id, or the hash takes the two spellings for one |
| Spelling.TransferVerifiesExactly | src/ledger/application/ledger-poster.ts:102-120 | a transfer between two accounts leaves on each of them a chain that verifies if and only if it named that account as stored, or the hash takes the two spellings for one |
| Spelling.TransferGuardsExactly | src/ledger/application/ledger-poster.ts:78-101 | owner and floor are enforced for every transfer request from a text, on every registered ledger and for every caller, if and only if the text is the stored id, or the account has neither |
| Spelling.NoCodeNeverPosts | src/shared/kernel/currency.ts:22-26 | a transfer in a currency that only an inherited property answers to builds, and is then refused for its accounts |
| Invariant.RowStepGood | src/ledger/infrastructure/persistence/drizzle-account-balances.repository.ts:52-61 | the next row to lock exists, and what has been read under locks still equals the committed rows |
| Invariant.LoopNeverFaults | src/ledger/application/ledger-poster.ts:89-101 | after admission every balance row exists and the loop can fail only for lack of funds |
| Commits.ByIdSurvives | src/ledger/application/ledger-poster.ts:65-76 | accounts opened meanwhile do not change what the poster's maps hold |
| Commits.GoodSurvives | src/ledger/infrastructure/persistence/drizzle-account-balances.repository.ts:50-62 | what an in-flight transaction knows stays true when another one commits, because their locks, keys and ids are disjoint |
| Commits.CommitServes | src/ledger/application/ledger-poster.ts:89-133 | the private writes of a committing transaction, applied to the tables of that moment, are the effect and answer of serving the request in one go |
| Commits.CommitStep | src/db/drizzle-unit-of-work.ts:11-16 | a commit keeps the whole invariant |
| Runs.ReplayServes | src/ledger/infrastructure/persistence/drizzle-idempotency.repository.ts:25-32 | reading a conflicting key answers as the serial ledger would and changes no table |
| Runs.GenesisIsWellFormed | drizzle/0002_seed_world_accounts.sql:1-11 | the migrated ledger with any requests under fresh distinct ids is well formed; it is proper if and only if the requests name accounts as stored |
| Runs.EveryStateGood | src/ledger/application/ledger-poster.ts:59-134 | every state of every schedule, in any spelling, satisfies the invariant: tables that fit together, disjoint locks, keys and reversals, seqs above all committed ones on locked accounts, serial history |
| Serializability.SerialEquivalence | src/ledger/application/transfer.service.ts:66-105 | for every interleaving of requests in any spelling, with crashes anywhere, the tables are those of the serial ledger running the successful requests in commit order, each of which got the serial answer; the rest left nothing |
| Refusals.RefusalsAreJustified | src/ledger/application/transfer.service.ts:71-75 | each refusal is the serial ledger's answer on the tables of the step that decided it, apart from a reversal whose target was reversed meanwhile and that lacks funds |
| Refusals.LosingReversal | src/ledger/application/reverse.service.ts:75-80 | a reversal that holds its rows while its target has been reversed is, however the run goes on, refused with `insufficient_funds` if and only if its legs break a floor, and with `already_reversed` otherwise |
| Solo.SoloServes | src/db/drizzle-unit-of-work.ts:11-16 | from any reachable state in which nobody else holds anything, a request that runs alone ends with the effect and the answer of the serial ledger, or is the reversal that came too late |
| Serializability.OnlyDeclaredErrors | src/ledger/application/reverse.service.ts:75-82 | a refusal is an error its service declares, except exactly for opening an account in a currency without a code: the re-thrown faults (missing balance row, vanished key, empty response, uncompensable transaction) are unreachable |
| Serializability.ExactlyOnce | src/ledger/application/transfer.service.ts:86-104 | of two calls with one key at most one posts, and if both succeed they return the same receipt for the same fingerprint |
| Serializability.CompletedKeysOnlyReplay | src/ledger/application/transfer.service.ts:86-92 | a request with a key that was completed before the run never posts, and its success returns the stored receipt |
| Serializability.ReplayAnswersSameRequest | src/ledger/application/transfer.service.ts:88-91 | two successful calls with one key were the same validated request, or their canonical texts collide |
| Serializability.KeyRowsComeFromSuccesses | src/ledger/application/transfer.service.ts:101-103 | every new key row carries the fingerprint, journal id and receipt of a successful request; failed first attempts leave none |
| Serializability.AnswersAgreeWithTables | src/ledger/application/transfer.service.ts:66-75 | a success is a committed journal whose event carries that receipt; a conflict means another fingerprint is committed; a refused or rolled-back call has posted nothing |
| Serializability.EveryLedgerSound | src/ledger/application/ledger-poster.ts:59-134 | if requests name accounts as stored, chains, floors and events are sound in every reachable state |
| Serializability.ReceiptsAgreeWithRows | src/ledger/application/ledger-poster.ts:122-133 | if requests name accounts as stored, the texts of the receipt of a success denote what the rows of its journal hold, line by line |
| Serializability.ReversalsExclude | src/ledger/application/reverse.service.ts:57-72 | two reversals of one transaction, however they spell its id, are never both past the lock phase |
| Serializability.ReversedAtMostOnce | src/ledger/infrastructure/persistence/journal-transactions.schema.ts:20-26 | in every reachable state reversal links are an injective map to strictly earlier transactions with exactly opposite legs |
| Serializability.TablesOnlyGrow | src/ledger/infrastructure/persistence/drizzle-journal-transactions.repository.ts:31-35 | over whole runs history, journals, postings, seqs and outbox are append-only, and account and key rows never change |
| Liveness.WaitsForLater | src/ledger/infrastructure/persistence/drizzle-account-balances.repository.ts:50-57 | a request whose texts are in row order and that holds a row while it waits for another waits for a later one, or for the same row under its other text |
| Liveness.InsertNeverWaits | src/ledger/infrastructure/persistence/journal-transactions.schema.ts:26 | the unique index on reversal links never makes anybody wait |
| Liveness.NoDeadlock | src/ledger/infrastructure/persistence/drizzle-account-balances.repository.ts:46-63 | in every reachable state with an unfinished request some request can take a step, if the texts of each transfer are in row order |
| Liveness.StepDecreases | src/ledger/application/ledger-poster.ts:59-134 | every step taken, crashes included, decreases a well-founded measure |
| Liveness.NoInfiniteRun | src/ledger/application/ledger-poster.ts:59-134 | no infinite schedule keeps taking steps |
| Liveness.EveryRunCompletes | src/ledger/application/transfer.service.ts:66-70 | from any reachable state the run can be completed without crashes until every request is finished, if the texts of each transfer are in row order |
| Deadlocks.DeadlockExactly | src/ledger/infrastructure/persistence/drizzle-account-balances.repository.ts:50-57 | two admitted transfers between the same two rows reach a deadlock on some schedule if and only if exactly one of them names its accounts in row order, and no key stops either of them before it locks |
| Statements.SeqOrderIsCommitOrder | src/ledger/infrastructure/persistence/drizzle-audit.repository.ts:31-33 | in every reachable state ordering an account's or a transaction's rows by `seq` gives them in commit order, without ties |
| Statements.LaterCommitsSortLast | src/ledger/infrastructure/persistence/journal-transactions.schema.ts:34 | whatever commits on an account later carries a larger `seq` than everything already committed there |
| Statements.PageContinues | src/ledger/application/statement.service.ts:32-36 | for any cursor, a page is the slice of the log that starts where the cursor stands, and its own cursor is where the slice ends, absent exactly at the end of the log |
| Statements.NoSkipNoRepeat | src/ledger/infrastructure/persistence/drizzle-statement.repository.ts:24-37 | following `nextCursor` with any limit of at least one while others commit: the pages are a prefix of the log, every page but the last brings something new, and the end is announced only to a reader who has the whole log of that moment |
| Statements.ForAccountShows | src/ledger/application/statement.service.ts:22-37 | in every reachable state, for any cursor, a caller sees the statement, in any spelling, if and only if the account exists and is a system account or the caller's own; the page is the slice of the committed log after all rows whose `seq` is at most the cursor |
| Opening.OpenAnswers | src/ledger/application/accounts.service.ts:30-41 | an account is opened if and only if the currency is supported and the id is free, with a zero balance and nothing else changed; `unknown_currency` exactly if the lookup finds nothing |
| Opening.OpenedServes | src/ledger/domain/account.ts:27-29 | on any later ledger that has the row of an opened account: only its owner is debited, never beyond the balance nor in another currency, and can pay all of it; credits in its currency are taken and in others refused with `account_currency_mismatch`; its statement is visible to the opener alone |
| Opening.OpenedForGood | src/ledger/application/accounts.service.ts:30-41 | in every state of every run an account whose opening was answered serves its owner: what `OpenedServes` lists |
| Audit.VerifyAccountAnswers | src/ledger/application/audit.service.ts:37-77 | `unknown_account` exactly for ids that no account has; otherwise, in any spelling, a report that says of that account's postings and stored row what `ExamineAnswers` lists; without a false alarm if requests name accounts as stored |
| Audit.ExamineAnswers | src/ledger/application/audit.service.ts:42-77 | of any postings and any stored row: the chain verdict, the `seq` of exactly the first posting whose link or hash fails, the head verdict, and `reconciled` if and only if stored balance, sum of amounts and last `balanceAfter` are one number |
| Audit.NoFalseAlarm | src/ledger/application/audit.service.ts:42-77 | at any point of any run of requests that name accounts as stored the chain is reported valid; head and balance are reported in agreement if nothing was posted to the account between the two reads |
| Audit.HeadAlarmIsExact | src/ledger/application/audit.service.ts:60-74 | head agreement is reported if and only if nothing was posted to the account between the two reads, or two entries of the account's own log collide |
| Audit.ReconciliationIsExact | src/ledger/application/audit.service.ts:60-74 | the balance is reported as reconciled if and only if the postings committed between the two reads sum to zero |
| Audit.ForgeryDetected | src/ledger/application/audit.service.ts:47-74 | in runs of requests that name accounts as stored, postings reported as a valid chain under the genuine stored head are the genuine postings row for row, or collide with them |
| Audit.EditIsReported | src/ledger/application/audit.service.ts:47-75 | in every state of a proper run, for any way of overwriting one row: what is reported, at which `seq`, and when it is a collision |
| Audit.AmountEditIsReported | src/ledger/application/audit.service.ts:47-75 | in every state of a proper run, an amount edited in place fails reconciliation and its own `seq` is reported as broken, or the two amounts have colliding pre-images |
| Audit.SeqIsNotCovered | src/ledger/application/audit.service.ts:48-57 | renumbering rows without reordering them changes no verdict |
| Audit.EverySnapshot | src/ledger/application/audit.service.ts:37-86 | in every committed snapshot of every run of requests that name accounts as stored: conservation per currency in postings and balances, three-way reconciliation and a valid chain on every account, no overdraft at any posting, and an outbox of exactly one event per journal whose texts denote its rows |
| Audit.PostingsAlwaysConserved | src/ledger/application/audit.service.ts:80-86 | in every committed snapshot of every run, in any spelling, postings sum to zero in every currency, there is one event per journal, and the report has a zero for exactly the currencies of the committed journals; with any one amount edited by `d` it has `d` in that row's currency, zero in the others, and says that money is not conserved |
| Audit.AmountOffIsReported | src/ledger/infrastructure/persistence/drizzle-audit.repository.ts:55-65 | the same for one edited amount on any ledger whose tables fit together |
| Audit.SpelledTransferVerdict | src/ledger/application/audit.service.ts:47-57 | after a transfer between two accounts the chain of each is reported as valid if and only if the transfer named it as stored, or the hash takes the two spellings for one |
| Instances.UpperCaseDebit | src/ledger/interface/transfer.dto.ts:4-5 | a transfer from an upper-case id posts without owner or funds; the same transfer from the stored id is refused |
| Instances.SelfTransferBetweenSpellings | src/ledger/application/transfer.service.ts:57-59 | a transfer between two spellings of one account passes and leaves its balance out of step with its postings |
| Instances.CrossingDeadlocks | src/ledger/infrastructure/persistence/drizzle-account-balances.repository.ts:50-57 | with everything else as required of a proper run, two transfers of which one spells an id in upper case can deadlock |
| Instances.LateReversalLacksFunds | src/ledger/application/reverse.service.ts:57-80 | a run of two reversals of a deposit: both pass the pre-check, one commits, and the other is told that it lacks funds, where the serial ledger says that the transaction is reversed already |
| Instances.AmountTextIsCompared | src/ledger/application/transfer.service.ts:88-115 | a retry whose amount has the same value conflicts with the completed key if and only if the amount is spelled differently, or two canonical texts collide |
| Instances.LeadingZeroConflicts | src/ledger/application/transfer.service.ts:88-115 | `5` and `05` under one key conflict, or their canonical texts collide |
| MoneyText.ParsesExactly | web/src/lib/money.ts:32-44 | a decimal typed with any white space around it becomes exactly its value in minor units, without leading zeros; a finer fraction than the scale is refused |
| MoneyText.RefusesTheRest | web/src/lib/money.ts:34-41 | an input is accepted if and only if it is white space around digits with an optional point and no more fraction digits than the scale |
| MoneyText.TrimSplits | web/src/lib/money.ts:34 | trimming takes away white space before and after a text that has none at its ends, and nothing else |
| MoneyText.LedgerReadsWhatWasTyped | src/ledger/application/transfer.service.ts:107-110 | the ledger's amount parser reads the parsed text as exactly the number that was typed, with any white space around it |
| MoneyText.GroupsOfThree | web/src/lib/money.ts:27 | a comma stands before the last three digits, and again before the three before them, and so on |
| MoneyText.FormatShows | web/src/lib/money.ts:22-30 | what is shown for any number of minor units: its digits in groups of three, a point and exactly as many digits as the scale says (no point at scale zero), together of the same value; in front of it the sign |
| MoneyText.RoundTrip | web/src/lib/money.ts:22-44 | formatting, dropping the commas and parsing returns canonical digits of the same value at any scale, hence the very string if and only if it was canonical |
| MoneyText.AmountsRoundTrip | web/src/lib/money.ts:22-44 | a text that denotes a ledger amount survives the round trip if and only if the amount is not negative |
| MoneyText.GroupedTextIsRefused | web/src/lib/money.ts:27-35 | without dropping commas the parser refuses exactly the amounts of more than `scale + 3` digits |

## Left out

- HTTP controllers, validation pipes, problem details, authentication, rate limits, metrics, dashboard pages: I/O around the core; their validated shapes are preconditions.
- SHA-256 itself: an arbitrary function with hex output, see above.
- How a database driver reports a unique violation: the constraint is an abort of the unit of work.
- 64-bit column range: integers are unbounded; an out-of-range value would abort the unit of work.
- Other spellings of a `uuid` than letter case (braces, no hyphens): the request schema does not accept them.
- A duplicate random transaction id, which the primary key would refuse: random ids are fresh.
- Timestamps, grants, migrations other than the seed, the outbox relay (not built).
- The deferred sum-zero trigger and the non-zero check: every committed journal is proved to satisfy both, so they never fire.
- The per-account lookups of the admission phase are one step of the machine, and so are the statements of `findById`: accounts and committed journals never change, so finer steps would read the same rows.
- Balance updates, the outbox insert and the completion of the key are private writes under locks already held; the machine performs them as one step before commit.
- `Money`'s cross-currency exception: amounts carry their currency in `Journals.Posting`, and `create` has already checked it wherever amounts are added.
- `deposit` and `withdrawal` are `transfer` with named arguments; `getVisible`, `listVisible`, `balanceOf`, `scaleOf` (results hold at every scale) and the currency table are single lookups. The order in which `verifyConservation` lists its totals.
- Serializability.SerialEquivalence: does not place refusals in the serial history; `Refusals.RefusalsAreJustified` ties each to the tables of the step that decided it.
- Serializability.AnswersAgreeWithTables: does not tell whether an answer reaches the caller; a connection lost while COMMIT is acknowledged is a `Done` request whose answer got lost.
- Store.LedgerStore.Post: one transaction at a time; what is shared between transactions is in `Protocol`, where the same functions are the specification.
- MoneyText.RoundTrip: `formatMoney` on text that is not an optional sign and digits is not described; the ledger never sends any.
