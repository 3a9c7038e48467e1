# A verified model of the `CuentaBancaria` ledger

This project models the in-memory bank ledger in `CuentaBancaria.java`:

- **Accounts** (`CuentaBancaria`). Each account has a balance (`saldo`) and an append-only history (`historial`) of records (`Transaccion`).
- **The registry** (`Banco`). It keeps the accounts by id in creation order. It creates accounts, looks them up, lists them and returns an account's history. It transfers money between two accounts and runs a best-effort batch that pays interest on savings accounts and takes a charge from current accounts.

There are three files:

- `transactions.dfy` (module `Transactions`) holds the values shared by everything else:
  - the account type `AccountType` (`TipoCuenta`: `Corriente`, `Ahorros`);
  - the record tags `RecordKind` (`APERTURA` … `TRANSFERENCIA_RECIBIDA`);
  - the record itself, `Transaction`: tag, signed amount and resulting balance;
  - how an operation ends, `Outcome`. It is `Ok` or `Fail` with either `IllegalArgument(reason)` or `InsufficientFunds`. The two exception classes of the source become these two error kinds. The `reason` says which check fired, so the order of the checks can be observed.
- `accounts.dfy` (module `Accounts`):
  - a pure specification of one account, `AccountState`, with the functions `Open`, `Record` and `Apply`, the invariant `Consistent`, and lemmas over sequences of operations (`Run`);
  - the class `Account`, whose methods update `balance` and `history` in place. Each of the four mutators (`Deposit`, `Withdraw`, `ApplyInterest`, `ApplyCharge`) is proved to do exactly what `Apply` says; `RecordTransaction` is proved against `Record`.
- `banking.dfy` (module `Banking`):
  - a pure specification of the registry as a map from id to account state: `TransferSpec`, `ProcessAll` and `Failures`;
  - the class `Bank`, with the fields `accounts` (the `LinkedHashMap`), `order` (its insertion order) and `nextId` (the id counter). `Transfer` and `ApplyInterestAndCharges` are proved against that specification; `CreateAccount`, `GetAccount`, `List` and `History` state their effect directly on the fields.

The class invariant `Consistent` has four parts:

- the balance is never negative;
- the history is never empty;
- it starts with the opening record;
- its last record carries the current balance.

Every mutating method preserves it. Every operation either fails and changes nothing, or updates the balance by the operation's amount and appends exactly one record, leaving earlier records untouched. That amount can be zero: interest on a zero balance is accepted and appends an `INTERES` record of 0.

A transfer checks its guards in the source's order:

1. a non-positive amount;
2. an unknown source;
3. an unknown destination;
4. only then, a transfer to the same account.

After the guards it withdraws, deposits, and appends one transfer record to each account. A successful transfer therefore leaves two new records on each account. It moves exactly the amount, keeps the sum of the two balances, and leaves every other account alone.

The compensation in the `catch` block is modelled as its own step (`Settle`, `SettleTransfer`). That step takes how the credit ended as an input, which lets the model prove that a failed credit restores the source balance. Inside `transferir` itself the credit cannot fail, because the amount is positive by then.

The batch visits the accounts in creation order. An account whose operation is rejected keeps its state, and the batch goes on. The ids of the rejected accounts are returned in the order they were visited; the source prints them.

Four behaviours of the code look like quirks, and the model reproduces them as written:

- **Opening record** (CuentaBancaria.java:21-23). The record keeps the raw opening amount, even when it is negative. The balance and the record's resulting balance are clamped to zero.
- **Records per transfer** (CuentaBancaria.java:35, 42, 152-155). A successful transfer appends two records to each account: `RETIRO` then `TRANSFERENCIA_ENVIADA` on the source, `DEPOSITO` then `TRANSFERENCIA_RECIBIDA` on the destination.
- **Guard order** (CuentaBancaria.java:134-142). Both ids are checked to exist before a self-transfer is rejected.
- **Charge larger than the balance** (CuentaBancaria.java:66). `aplicarCargo` rejects it with an illegal-argument error, not with insufficient funds.

## Model

| member | source | states |
|---|---|---|
| Accounts.Open | CuentaBancaria.java:17-24 | a new account satisfies the invariant; its balance is the opening amount when that is non-negative and 0 otherwise; its history is one record whose amount is the raw opening amount |
| Accounts.Account.constructor | CuentaBancaria.java:17-24 | the new object keeps id, owner and type, satisfies the invariant, and is in the state `Open` describes |
| Accounts.NegativeOpeningClamped | CuentaBancaria.java:21-23 | opening with -50 gives balance 0 and the single record `(APERTURA, -50, 0)` |
| Accounts.Record | CuentaBancaria.java:50-53 | appending a record keeps the balance and type, adds exactly one entry carrying the tag, the amount and the current balance as its resulting balance, keeps all earlier entries as a prefix, and preserves the invariant |
| Accounts.Account.RecordTransaction | CuentaBancaria.java:50-53 | the history becomes the old history plus one record carrying the current balance; only the history changes |
| Accounts.Apply | CuentaBancaria.java:32-69 | an operation succeeds exactly when its argument is positive (and, for withdrawals and charges, at most the balance); insufficient funds is signalled exactly for an overdrawing withdrawal; a failure changes nothing; a success changes the balance by the operation's amount and appends exactly one record with the matching tag, signed amount and new balance; the invariant is preserved |
| Accounts.InterestOn | CuentaBancaria.java:58 | the interest `balance * (rate / 100)` is never negative for a non-negative balance and a positive rate |
| Accounts.Account.GetBalance | CuentaBancaria.java:30 | the balance is non-negative and equals the resulting balance of the last record |
| Accounts.Account.GetHistory | CuentaBancaria.java:46-48 | the history returned is a value; it starts with the opening record and ends with the current balance |
| Accounts.Account.Deposit | CuentaBancaria.java:32-36 | succeeds exactly for a positive amount, then raises the balance by the amount and appends one `DEPOSITO` record; otherwise balance and history are unchanged; the invariant is kept |
| Accounts.Account.Withdraw | CuentaBancaria.java:38-43 | succeeds exactly when 0 < amount <= balance, then lowers the balance by the amount and appends one `RETIRO` record with the negated amount; fails with insufficient funds exactly on overdraft; a failure changes nothing |
| Accounts.Account.ApplyInterest | CuentaBancaria.java:56-61 | succeeds exactly for a positive rate, then adds `balance * rate / 100` and appends one `INTERES` record carrying that interest; a failure changes nothing |
| Accounts.Account.ApplyCharge | CuentaBancaria.java:64-69 | succeeds exactly when 0 < charge <= balance, then subtracts the charge and appends one `CARGO` record; both rejections are illegal-argument errors that change nothing |
| Accounts.OverdraftRefused | CuentaBancaria.java:40 | a withdrawal larger than the balance signals insufficient funds and leaves balance and history as they were |
| Accounts.RunKeepsConsistent | CuentaBancaria.java:21-69 | after any sequence of operations the invariant still holds, in particular the last record carries the current balance |
| Accounts.RunOnlyAppends | CuentaBancaria.java:50-53 | any sequence of operations keeps the old history as a prefix, adds at most one record per operation and keeps the account type |
| Accounts.DepositThenWithdraw | CuentaBancaria.java:32-43 | a deposit followed by a withdrawal of the same positive amount restores the balance and appends exactly the `DEPOSITO` and `RETIRO` records |
| Accounts.RepeatedDeposits | CuentaBancaria.java:32-36 | n deposits of the same amount raise the balance by exactly n times it and append exactly n `DEPOSITO` records |
| Banking.Settle | CuentaBancaria.java:147-161 | after a successful credit each account gets its transfer record and balances are unchanged; after a failed credit the source is re-credited with a `DEPOSITO` record, the destination is left as the credit left it, and the failure is passed on; the invariant is kept |
| Banking.Protocol | CuentaBancaria.java:145-161 | withdraw, deposit and settle on two accounts: insufficient funds exactly when the source holds less than the amount, success exactly otherwise; a failure leaves both accounts as they were; a success moves the amount; the sum of the two balances and both invariants are kept |
| Banking.TransferSpec | CuentaBancaria.java:124-162 | each guard, in the source's order, fails with its own reason and no change; insufficient funds is signalled exactly when the source balance is below the amount; success happens exactly when all checks pass, and then moves the amount, keeps the sum of the two balances, appends `RETIRO` + `TRANSFERENCIA_ENVIADA` to the source and `DEPOSITO` + `TRANSFERENCIA_RECIBIDA` to the destination, leaves all other accounts and the set of ids unchanged, and preserves every account's invariant |
| Banking.CompensationRestoresSource | CuentaBancaria.java:145-161 | if the credit fails after the withdrawal went through, the source ends with its original balance and the withdrawal and compensating deposit records, the destination is untouched, and the credit's failure is re-raised |
| Banking.TransferBetween | CuentaBancaria.java:145-161 | withdrawing, crediting and settling on two distinct account objects leaves them in the states the transfer protocol prescribes and keeps their invariants |
| Banking.SettleTransfer | CuentaBancaria.java:147-161 | the `try`/`catch` block on two account objects does exactly what `Settle` prescribes for the given credit outcome |
| Banking.Bank.Transfer | CuentaBancaria.java:124-162 | the registry's account states and the outcome are exactly those of `TransferSpec` on the states before the call; the registry invariant is kept |
| Banking.BatchStep | CuentaBancaria.java:167-175 | a savings account's step succeeds exactly for a positive rate and adds its interest with one `INTERES` record; a current account's step succeeds exactly when 0 < charge <= balance and subtracts the charge with one `CARGO` record; a rejected step is an illegal-argument error that leaves the account as it was; type and invariant are kept |
| Banking.ProcessAll | CuentaBancaria.java:165-177 | the batch keeps the set of ids; a rejected account keeps its state; each savings account gains its interest and each current account that can pay loses the charge; every invariant is kept |
| Banking.Failures | CuentaBancaria.java:173-175 | no more reports than visited ids, and only visited, registered ids are reported |
| Banking.FailuresIncreasing | CuentaBancaria.java:166-175 | over ids in strictly increasing (creation) order, the reported ids are strictly increasing: each rejected id is reported once, in visiting order |
| Banking.FailuresAreRejections | CuentaBancaria.java:173-175 | an id is reported exactly when it was visited, is registered, and its account's step was rejected |
| Banking.BatchExamples | CuentaBancaria.java:165-177 | with rate 5 and charge 10 a savings account at 1000 ends at 1050, and a current account at 5 stays at 5 and is the only one reported |
| Banking.ApplyBatchStep | CuentaBancaria.java:167-175 | one account takes interest or the charge according to its type, in place, as `BatchStep` prescribes, keeping its invariant |
| Banking.VisitOne | CuentaBancaria.java:166-175 | one turn of the loop changes only the visited account, which takes its step from the state the loop started with |
| Banking.VisitAll | CuentaBancaria.java:166-176 | after the loop every account holds its batch result and the reported ids are exactly the rejected ones, in visiting order |
| Banking.Bank.ApplyInterestAndCharges | CuentaBancaria.java:165-177 | the new account states are `ProcessAll` of the old ones, the returned ids are exactly the rejected ones, each once, in strictly increasing (creation) order, and the registry invariant is kept |
| Banking.Bank.constructor | CuentaBancaria.java:106-107 | the registry starts empty, with the id counter at 1 |
| Banking.Bank.CreateAccount | CuentaBancaria.java:109-113 | the new account is fresh, gets the counter's id, which is above every id handed out before, and the counter advances by exactly one, as `SEQ.getAndIncrement()` does (ids 1, 2, 3, …); the account is added as exactly one new entry at the end of the creation order, and starts in its opening state; the registry invariant is kept |
| Banking.Bank.GetAccount | CuentaBancaria.java:115-117 | an account is found exactly when the id is registered, and it is the one stored under that id |
| Banking.Bank.List | CuentaBancaria.java:119-121 | lists every registered account exactly once, in creation order, with strictly increasing ids |
| Banking.Bank.History | CuentaBancaria.java:180-186 | an unknown id gives the empty history; a known id gives that account's history, which starts with the opening record |

## Left out

- The console program (`main` and the `*Flow` helpers, CuentaBancaria.java:190-395) is left out: it only reads input, parses it and prints.
- `synchronized` locking is left out. Every operation is modelled as running on its own, one after another.
- Balances, amounts and rates are exact reals. IEEE `double` rounding, infinities and NaN are not modelled.
- The record's timestamp (`LocalDateTime.now()`) and description text are left out, and so is all `toString`/`String.format` rendering.
- The batch's console message for a rejected account becomes the returned list of rejected ids. Exception messages become the `Reason` values.
- The static counter `SEQ` is shared by every `Banco` in the source. Here it is the field `Bank.nextId`, owned by one registry.
- Banking.Bank.CreateAccount: `nextId` is an unbounded integer. `SEQ` is a 32-bit `AtomicInteger` that wraps to a negative value after 2^31 - 1 accounts, after which ids stop increasing and can repeat, so `cuentas.put` would overwrite an existing account. The promise that a new id is above every earlier one holds only below that bound.
- `Objects.requireNonNull` is left out, because Dafny references and strings cannot be null.
- The unmodifiable wrapper returned by `getHistorial` is left out: it wraps a copy, and a returned `seq` is already a value.
- Banking.Bank.List: returns a snapshot of the accounts at the time of the call. `listar` returns a live read-only view of `cuentas.values()`, which also shows accounts created after the call.
- The getters `getId`, `getCliente` and `getTipo` are the immutable fields `id`, `owner` and `kind` of `Account`.
- Banking.SettleTransfer: the result of the compensating deposit is not checked, because with a positive amount that deposit cannot fail.
- Banking.Bank.Transfer: in the source the credit step can never fail, since the amount is positive by then. The failed-credit path is therefore proved on `Settle`, `SettleTransfer` and `CompensationRestoresSource` rather than reached from `Bank.Transfer`.
