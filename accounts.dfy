/** One bank account (`CuentaBancaria`): a balance and an append-only history
    of records. The pure part states what each operation does to the account's
    observable state; the class `Account` performs the same operations in place
    and is proved to agree with it. */
module Accounts {
  import opened Transactions

  /** The observable state of an account: its type, its balance and its history. */
  datatype AccountState = AccountState(kind: AccountType, balance: real, history: seq<Transaction>)

  /** The account invariant: the balance is never negative, the history starts
      with the opening record, and the last record carries the current balance. */
  predicate Consistent(s: AccountState) {
    && s.balance >= 0.0
    && |s.history| > 0
    && s.history[0].kind == Apertura
    && s.history[|s.history| - 1].resultingBalance == s.balance
  }

  /** `prefix` is an initial part of `h`: earlier entries are neither changed nor reordered. */
  predicate IsPrefix(prefix: seq<Transaction>, h: seq<Transaction>) {
    |prefix| <= |h| && h[..|prefix|] == prefix
  }

  /** The state a new account starts in. A negative opening balance is
      clamped to zero, but the opening record keeps the amount as given. */
  function Open(kind: AccountType, initial: real): (s: AccountState)
    ensures Consistent(s)
    ensures s.kind == kind
    ensures initial >= 0.0 ==> s.balance == initial
    ensures initial < 0.0 ==> s.balance == 0.0
    ensures |s.history| == 1 && s.history[0].amount == initial
  {
    var opening := if initial < 0.0 then 0.0 else initial;
    AccountState(kind, opening, [Transaction(Apertura, initial, opening)])
  }

  /** `registrarTransaccion`: appends one record that carries the current
      balance; the balance itself is left alone. */
  function Record(s: AccountState, kind: RecordKind, amount: real): (r: AccountState)
    ensures r.kind == s.kind && r.balance == s.balance
    ensures |r.history| == |s.history| + 1 && IsPrefix(s.history, r.history)
    ensures r.history[|s.history|].kind == kind && r.history[|s.history|].amount == amount
    ensures r.history[|s.history|].resultingBalance == s.balance
    ensures Consistent(s) ==> Consistent(r)
  {
    s.(history := s.history + [Transaction(kind, amount, s.balance)])
  }

  /** The four single-account operations, with their argument. */
  datatype Op =
    | Deposit(amount: real)
    | Withdraw(amount: real)
    | Interest(rate: real)
    | Charge(amount: real)

  /** When an operation goes through: its argument is positive and, for the
      two debits, no larger than the balance. */
  predicate Permitted(s: AccountState, op: Op) {
    match op
    case Deposit(a) => a > 0.0
    case Withdraw(a) => 0.0 < a <= s.balance
    case Interest(t) => t > 0.0
    case Charge(k) => 0.0 < k <= s.balance
  }

  /** The tag of the record a successful operation appends. */
  function Tag(op: Op): RecordKind {
    match op
    case Deposit(_) => Deposito
    case Withdraw(_) => Retiro
    case Interest(_) => Interes
    case Charge(_) => Cargo
  }

  /** `depositar`, `retirar`, `aplicarInteres` and `aplicarCargo`: the new
      state and how the call ended. A rejected call changes nothing; an
      accepted one appends exactly one record, whose amount is the change in
      balance it caused and whose resulting balance is the new balance. Only
      a withdrawal reports insufficient funds; a charge larger than the
      balance is an illegal argument. */
  function Apply(s: AccountState, op: Op): (r: (AccountState, Outcome))
    ensures r.1.Ok? <==> Permitted(s, op)
    ensures r.1 == Fail(InsufficientFunds) <==> op.Withdraw? && 0.0 < op.amount && s.balance < op.amount
    ensures r.1.Fail? ==> r.0 == s
    ensures r.0.kind == s.kind
    ensures r.1.Ok? ==> r.0.history == s.history + [Transaction(Tag(op), r.0.balance - s.balance, r.0.balance)]
    ensures r.1.Ok? && op.Deposit? ==> r.0.balance == s.balance + op.amount
    ensures r.1.Ok? && op.Interest? ==> r.0.balance == s.balance + InterestOn(s.balance, op.rate)
    ensures r.1.Ok? && (op.Withdraw? || op.Charge?) ==> r.0.balance == s.balance - op.amount
    ensures Consistent(s) ==> Consistent(r.0)
  {
    match op
    case Deposit(a) =>
      if a <= 0.0 then (s, Fail(IllegalArgument(NonPositiveAmount)))
      else (Record(s.(balance := s.balance + a), Deposito, a), Ok)
    case Withdraw(a) =>
      if a <= 0.0 then (s, Fail(IllegalArgument(NonPositiveAmount)))
      else if a > s.balance then (s, Fail(InsufficientFunds))
      else (Record(s.(balance := s.balance - a), Retiro, -a), Ok)
    case Interest(t) =>
      if t <= 0.0 then (s, Fail(IllegalArgument(NonPositiveAmount)))
      else (Record(s.(balance := s.balance + InterestOn(s.balance, t)), Interes, InterestOn(s.balance, t)), Ok)
    case Charge(k) =>
      if k <= 0.0 then (s, Fail(IllegalArgument(NonPositiveAmount)))
      else if k > s.balance then (s, Fail(IllegalArgument(ChargeExceedsBalance)))
      else (Record(s.(balance := s.balance - k), Cargo, -k), Ok)
  }

  /** The interest `aplicarInteres` credits: `balance * (rate / 100)`. It is
      never negative on a non-negative balance and a positive rate. */
  function InterestOn(balance: real, rate: real): (i: real)
    ensures balance >= 0.0 && rate > 0.0 ==> i >= 0.0
  {
    balance * (rate / 100.0)
  }

  /** A caller performing `ops` one after another, each of which may be rejected. */
  function Run(s: AccountState, ops: seq<Op>): AccountState
    decreases |ops|
  {
    if ops == [] then s else Run(Apply(s, ops[0]).0, ops[1..])
  }

  /** `n` copies of one operation. */
  function Repeat(op: Op, n: nat): (ops: seq<Op>)
    ensures |ops| == n
    ensures forall i | 0 <= i < n :: ops[i] == op
  {
    if n == 0 then [] else [op] + Repeat(op, n - 1)
  }

  /** The invariant holds after any sequence of operations. */
  lemma {:induction false} RunKeepsConsistent(s: AccountState, ops: seq<Op>)
    requires Consistent(s)
    ensures Consistent(Run(s, ops))
    decreases |ops|
  {
    if ops != [] {
      RunKeepsConsistent(Apply(s, ops[0]).0, ops[1..]);
    }
  }

  /** Operations only ever append to the history, at most one record each,
      and never change the account type. */
  lemma {:induction false} RunOnlyAppends(s: AccountState, ops: seq<Op>)
    ensures IsPrefix(s.history, Run(s, ops).history)
    ensures |Run(s, ops).history| <= |s.history| + |ops|
    ensures Run(s, ops).kind == s.kind
    decreases |ops|
  {
    if ops != [] {
      var next := Apply(s, ops[0]).0;
      RunOnlyAppends(next, ops[1..]);
      var h := Run(s, ops).history;
      assert h[..|next.history|][..|s.history|] == h[..|s.history|];
    }
  }

  /** A deposit followed by a withdrawal of the same positive amount restores
      the balance and leaves exactly the two records behind. */
  lemma DepositThenWithdraw(s: AccountState, a: real)
    requires s.balance >= 0.0 && a > 0.0
    ensures Run(s, [Deposit(a), Withdraw(a)]).balance == s.balance
    ensures Run(s, [Deposit(a), Withdraw(a)]).history
      == s.history + [Transaction(Deposito, a, s.balance + a), Transaction(Retiro, -a, s.balance)]
  {
    var ops := [Deposit(a), Withdraw(a)];
    var d := Apply(s, Deposit(a)).0;
    var w := Apply(d, Withdraw(a)).0;
    assert Run(d, [Withdraw(a)]) == w by {
      assert [Withdraw(a)][1..] == [];
    }
    assert Run(s, ops) == w by {
      assert ops[1..] == [Withdraw(a)];
    }
    assert Permitted(s, Deposit(a)) && Tag(Deposit(a)) == Deposito;
    assert Permitted(d, Withdraw(a)) && Tag(Withdraw(a)) == Retiro;
  }

  /** `n` deposits of the same amount raise the balance by exactly `n` times
      that amount and add exactly `n` records, none lost or duplicated. */
  lemma {:induction false} RepeatedDeposits(s: AccountState, a: real, n: nat)
    requires a > 0.0
    ensures Run(s, Repeat(Deposit(a), n)).balance == s.balance + (n as real) * a
    ensures |Run(s, Repeat(Deposit(a), n)).history| == |s.history| + n
    ensures forall i | |s.history| <= i < |s.history| + n ::
              Run(s, Repeat(Deposit(a), n)).history[i].kind == Deposito
    decreases n
  {
    if n > 0 {
      var ops := Repeat(Deposit(a), n);
      var d := Apply(s, Deposit(a)).0;
      assert ops[0] == Deposit(a) && ops[1..] == Repeat(Deposit(a), n - 1);
      RepeatedDeposits(d, a, n - 1);
      RunOnlyAppends(d, ops[1..]);
      var h := Run(s, ops).history;
      assert h[..|d.history|][|s.history|] == d.history[|s.history|];
    }
  }

  /** A withdrawal larger than the balance is refused with insufficient funds
      and leaves balance and history as they were. */
  lemma OverdraftRefused(s: AccountState, a: real)
    requires Consistent(s) && a > s.balance
    ensures Apply(s, Withdraw(a)) == (s, Fail(InsufficientFunds))
  {
  }

  /** Opening with a negative balance gives a zero balance and one opening
      record that still carries the negative amount. */
  lemma NegativeOpeningClamped(kind: AccountType)
    ensures Open(kind, -50.0).balance == 0.0
    ensures Open(kind, -50.0).history == [Transaction(Apertura, -50.0, 0.0)]
  {
  }

  /** The account object. `balance` and `history` are updated in place; each
      of `Deposit`, `Withdraw`, `ApplyInterest` and `ApplyCharge` either
      rejects its argument and changes nothing, or updates the balance by the
      operation's amount (possibly zero) and appends exactly one record.
      `RecordTransaction` is the internal helper they share, which appends a
      record and leaves the balance alone. */
  class Account {
    const id: int
    const owner: string
    const kind: AccountType
    var balance: real
    var history: seq<Transaction>

    /** The account's observable state. */
    function State(): AccountState
      reads this
    {
      AccountState(kind, balance, history)
    }

    ghost predicate Valid()
      reads this
    {
      Consistent(State())
    }

    /** The constructor: the balance is the opening amount clamped at zero,
        and the history is the single opening record. */
    constructor (id: int, owner: string, kind: AccountType, initial: real)
      ensures Valid()
      ensures this.id == id && this.owner == owner && this.kind == kind
      ensures State() == Open(kind, initial)
    {
      this.id := id;
      this.owner := owner;
      this.kind := kind;
      balance := if initial < 0.0 then 0.0 else initial;
      history := [];
      new;
      RecordTransaction(Apertura, initial);
    }

    /** `getSaldo`: the current balance, which the invariant ties to the last record. */
    function GetBalance(): (b: real)
      reads this
      requires Valid()
      ensures b >= 0.0
      ensures b == history[|history| - 1].resultingBalance
    {
      balance
    }

    /** `getHistorial`: a snapshot of the history (a value, so callers cannot
        alter the account through it); it starts with the opening record and
        ends with the current balance. */
    function GetHistory(): (h: seq<Transaction>)
      reads this
      requires Valid()
      ensures |h| >= 1 && h[0].kind == Apertura
      ensures h[|h| - 1].resultingBalance == balance
    {
      history
    }

    /** `registrarTransaccion`: appends a record that carries the current
        balance; the balance is unchanged. */
    method RecordTransaction(tag: RecordKind, amount: real)
      modifies this`history
      ensures history == old(history) + [Transaction(tag, amount, balance)]
      ensures State() == Record(old(State()), tag, amount)
    {
      history := history + [Transaction(tag, amount, balance)];
    }

    /** `depositar` */
    method Deposit(amount: real) returns (r: Outcome)
      requires Valid()
      modifies this
      ensures Valid()
      ensures (State(), r) == Apply(old(State()), Op.Deposit(amount))
      ensures r.Ok? <==> amount > 0.0
      ensures r.Ok? ==> balance == old(balance) + amount
      ensures r.Fail? ==> balance == old(balance) && history == old(history)
    {
      if amount <= 0.0 {
        return Fail(IllegalArgument(NonPositiveAmount));
      }
      balance := balance + amount;
      RecordTransaction(Deposito, amount);
      r := Ok;
    }

    /** `retirar` */
    method Withdraw(amount: real) returns (r: Outcome)
      requires Valid()
      modifies this
      ensures Valid()
      ensures (State(), r) == Apply(old(State()), Op.Withdraw(amount))
      ensures r.Ok? <==> 0.0 < amount <= old(balance)
      ensures r.Ok? ==> balance == old(balance) - amount
      ensures r.Fail? ==> balance == old(balance) && history == old(history)
    {
      if amount <= 0.0 {
        return Fail(IllegalArgument(NonPositiveAmount));
      }
      if amount > balance {
        return Fail(InsufficientFunds);
      }
      balance := balance - amount;
      RecordTransaction(Retiro, -amount);
      r := Ok;
    }

    /** `aplicarInteres`: adds `balance * rate / 100`. */
    method ApplyInterest(rate: real) returns (r: Outcome)
      requires Valid()
      modifies this
      ensures Valid()
      ensures (State(), r) == Apply(old(State()), Op.Interest(rate))
      ensures r.Ok? <==> rate > 0.0
      ensures r.Ok? ==> balance == old(balance) + InterestOn(old(balance), rate)
      ensures r.Fail? ==> balance == old(balance) && history == old(history)
    {
      if rate <= 0.0 {
        return Fail(IllegalArgument(NonPositiveAmount));
      }
      var interest := InterestOn(balance, rate);
      balance := balance + interest;
      RecordTransaction(Interes, interest);
      r := Ok;
    }

    /** `aplicarCargo` */
    method ApplyCharge(charge: real) returns (r: Outcome)
      requires Valid()
      modifies this
      ensures Valid()
      ensures (State(), r) == Apply(old(State()), Op.Charge(charge))
      ensures r.Ok? <==> 0.0 < charge <= old(balance)
      ensures r.Ok? ==> balance == old(balance) - charge
      ensures r.Fail? ==> r.error.IllegalArgument? && balance == old(balance) && history == old(history)
    {
      if charge <= 0.0 {
        return Fail(IllegalArgument(NonPositiveAmount));
      }
      if charge > balance {
        return Fail(IllegalArgument(ChargeExceedsBalance));
      }
      balance := balance - charge;
      RecordTransaction(Cargo, -charge);
      r := Ok;
    }
  }
}
