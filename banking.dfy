/** The bank (`Banco`): a registry of accounts keyed by id, kept in creation
    order, with transfers between two accounts and a batch that applies
    interest and charges to every account. The pure part states each
    operation on a map from id to account state; the class `Bank` performs it
    in place and is proved to agree with it. */
module Banking {
  import opened Transactions
  import opened Accounts

  /** Every account in the map satisfies the account invariant. */
  predicate AllConsistent(m: map<int, AccountState>) {
    forall id | id in m :: Consistent(m[id])
  }

  /** The `try`/`catch` block of `transferir`, entered after the source
      withdrawal succeeded: `dst` is the destination after the credit step and
      `credited` how that step ended. On success each account gets its
      transfer record; on failure the source is compensated by a deposit and
      the credit step's failure is passed on, the destination left as the
      credit step left it. */
  function Settle(src: AccountState, dst: AccountState, amount: real, credited: Outcome)
    : (r: (AccountState, AccountState, Outcome))
    requires amount > 0.0
    ensures r.2 == credited
    ensures r.0.kind == src.kind && r.1.kind == dst.kind
    ensures credited.Ok? ==> r.0.balance == src.balance && r.1.balance == dst.balance
    ensures credited.Ok? ==> r.0.history == src.history + [Transaction(TransferenciaEnviada, -amount, src.balance)]
    ensures credited.Ok? ==> r.1.history == dst.history + [Transaction(TransferenciaRecibida, amount, dst.balance)]
    ensures credited.Fail? ==> r.1 == dst && r.0.balance == src.balance + amount
    ensures credited.Fail? ==> r.0.history == src.history + [Transaction(Deposito, amount, src.balance + amount)]
    ensures Consistent(src) && Consistent(dst) ==> Consistent(r.0) && Consistent(r.1)
  {
    if credited.Ok? then
      (Record(src, TransferenciaEnviada, -amount), Record(dst, TransferenciaRecibida, amount), Ok)
    else
      (Apply(src, Deposit(amount)).0, dst, credited)
  }

  /** Steps 2 to 5 of `transferir` on two distinct accounts: withdraw from
      the source (stopping there, with nothing changed, if that fails),
      deposit into the destination, and settle. */
  function Protocol(src: AccountState, dst: AccountState, amount: real): (r: (AccountState, AccountState, Outcome))
    requires amount > 0.0
    ensures r.2 == Fail(InsufficientFunds) <==> src.balance < amount
    ensures r.2.Ok? <==> amount <= src.balance
    ensures r.2.Fail? ==> r.0 == src && r.1 == dst
    ensures r.0.kind == src.kind && r.1.kind == dst.kind
    ensures r.0.balance + r.1.balance == src.balance + dst.balance
    ensures r.2.Ok? ==> r.0.balance == src.balance - amount && r.1.balance == dst.balance + amount
    ensures Consistent(src) && Consistent(dst) ==> Consistent(r.0) && Consistent(r.1)
  {
    var (src', withdrawn) := Apply(src, Withdraw(amount));
    if withdrawn.Fail? then (src, dst, withdrawn)
    else
      var (dst', credited) := Apply(dst, Deposit(amount));
      Settle(src', dst', amount, credited)
  }

  /** `transferir` on the account states. The guards are checked in this
      order, each failing with an illegal argument and no change: a
      non-positive amount, an unknown source, an unknown destination, and
      only then a transfer to the same account. A source without the funds
      fails with insufficient funds and no change. A transfer that goes
      through moves `amount` from source to destination, leaves every other
      account as it was, and appends two records to each of the two. */
  function TransferSpec(m: map<int, AccountState>, fromId: int, toId: int, amount: real)
    : (r: (map<int, AccountState>, Outcome))
    ensures amount <= 0.0 ==> r == (m, Fail(IllegalArgument(NonPositiveAmount)))
    ensures amount > 0.0 && fromId !in m ==> r == (m, Fail(IllegalArgument(UnknownSource)))
    ensures amount > 0.0 && fromId in m && toId !in m ==> r == (m, Fail(IllegalArgument(UnknownDestination)))
    ensures amount > 0.0 && fromId in m && toId in m && fromId == toId
            ==> r == (m, Fail(IllegalArgument(SameAccount)))
    ensures r.1 == Fail(InsufficientFunds)
            <==> amount > 0.0 && fromId in m && toId in m && fromId != toId && m[fromId].balance < amount
    ensures r.1.Ok? <==> amount > 0.0 && fromId in m && toId in m && fromId != toId && amount <= m[fromId].balance
    ensures r.1.Fail? ==> r.0 == m
    ensures r.0.Keys == m.Keys
    ensures r.1.Ok? ==> r.0[fromId].balance == m[fromId].balance - amount
    ensures r.1.Ok? ==> r.0[toId].balance == m[toId].balance + amount
    ensures r.1.Ok? ==> r.0[fromId].balance + r.0[toId].balance == m[fromId].balance + m[toId].balance
    ensures r.1.Ok? ==>
              r.0[fromId].history == m[fromId].history
                + [Transaction(Retiro, -amount, m[fromId].balance - amount),
                   Transaction(TransferenciaEnviada, -amount, m[fromId].balance - amount)]
    ensures r.1.Ok? ==>
              r.0[toId].history == m[toId].history
                + [Transaction(Deposito, amount, m[toId].balance + amount),
                   Transaction(TransferenciaRecibida, amount, m[toId].balance + amount)]
    ensures forall id | id in m && id != fromId && id != toId :: r.0[id] == m[id]
    ensures AllConsistent(m) ==> AllConsistent(r.0)
  {
    if amount <= 0.0 then (m, Fail(IllegalArgument(NonPositiveAmount)))
    else if fromId !in m then (m, Fail(IllegalArgument(UnknownSource)))
    else if toId !in m then (m, Fail(IllegalArgument(UnknownDestination)))
    else if fromId == toId then (m, Fail(IllegalArgument(SameAccount)))
    else
      var (src, dst, outcome) := Protocol(m[fromId], m[toId], amount);
      (m[fromId := src][toId := dst], outcome)
  }

  /** The compensation: if the credit step fails after the withdrawal went
      through, the source ends with its original balance (one withdrawal and
      one compensating deposit recorded) and the caller sees the credit
      step's failure. */
  lemma CompensationRestoresSource(src: AccountState, dst: AccountState, amount: real, failure: Outcome)
    requires Consistent(src) && 0.0 < amount <= src.balance
    requires failure.Fail?
    ensures var withdrawn := Apply(src, Withdraw(amount)).0;
            var (src', dst', outcome) := Settle(withdrawn, dst, amount, failure);
            && src'.balance == src.balance
            && src'.history == src.history
                 + [Transaction(Retiro, -amount, src.balance - amount), Transaction(Deposito, amount, src.balance)]
            && dst' == dst
            && outcome == failure
  {
  }

  /** The operation the batch applies to an account of the given type:
      interest for savings accounts, the charge for current accounts. */
  function BatchOp(kind: AccountType, rate: real, charge: real): Op {
    if kind == Ahorros then Interest(rate) else Charge(charge)
  }

  /** One account's step in `aplicarInteresesYCargos`. */
  function BatchStep(s: AccountState, rate: real, charge: real): (r: (AccountState, Outcome))
    ensures r.0.kind == s.kind
    ensures r.1.Fail? ==> r.0 == s && r.1.error.IllegalArgument?
    ensures s.kind == Ahorros ==> (r.1.Ok? <==> rate > 0.0)
    ensures s.kind == Ahorros && r.1.Ok? ==>
              r.0.balance == s.balance + InterestOn(s.balance, rate)
              && r.0.history == s.history + [Transaction(Interes, InterestOn(s.balance, rate), r.0.balance)]
    ensures s.kind == Corriente ==> (r.1.Ok? <==> 0.0 < charge <= s.balance)
    ensures s.kind == Corriente && r.1.Ok? ==>
              r.0.balance == s.balance - charge
              && r.0.history == s.history + [Transaction(Cargo, -charge, r.0.balance)]
    ensures Consistent(s) ==> Consistent(r.0)
  {
    Apply(s, BatchOp(s.kind, rate, charge))
  }

  /** The accounts after the batch: each account is processed on its own, an
      account whose operation is rejected stays as it was, and every other
      account still receives its interest or charge. */
  function ProcessAll(m: map<int, AccountState>, rate: real, charge: real): (r: map<int, AccountState>)
    ensures r.Keys == m.Keys
    ensures forall id | id in m && BatchStep(m[id], rate, charge).1.Fail? :: r[id] == m[id]
    ensures forall id | id in m && m[id].kind == Ahorros && rate > 0.0 ::
              r[id].balance == m[id].balance + InterestOn(m[id].balance, rate)
    ensures forall id | id in m && m[id].kind == Corriente && 0.0 < charge <= m[id].balance ::
              r[id].balance == m[id].balance - charge
    ensures AllConsistent(m) ==> AllConsistent(r)
  {
    map id | id in m :: BatchStep(m[id], rate, charge).0
  }

  /** The ids, in the order given, of the accounts whose batch step is
      rejected (the ones the source reports on the console). */
  function Failures(m: map<int, AccountState>, ids: seq<int>, rate: real, charge: real): (r: seq<int>)
    ensures |r| <= |ids|
    ensures forall i | 0 <= i < |r| :: r[i] in ids && r[i] in m
    decreases |ids|
  {
    if ids == [] then []
    else
      var last := ids[|ids| - 1];
      Failures(m, ids[..|ids| - 1], rate, charge)
        + (if last in m && BatchStep(m[last], rate, charge).1.Fail? then [last] else [])
  }

  lemma FailuresExtend(m: map<int, AccountState>, ids: seq<int>, i: int, rate: real, charge: real)
    requires 0 <= i < |ids|
    ensures Failures(m, ids[..i + 1], rate, charge)
      == Failures(m, ids[..i], rate, charge)
         + (if ids[i] in m && BatchStep(m[ids[i]], rate, charge).1.Fail? then [ids[i]] else [])
  {
    assert ids[..i + 1][..i] == ids[..i];
  }

  /** An id is reported exactly when it is one of the processed ids and its
      account's step was rejected. */
  lemma {:induction false} FailuresAreRejections(m: map<int, AccountState>, ids: seq<int>, rate: real, charge: real, x: int)
    ensures x in Failures(m, ids, rate, charge) <==> x in ids && x in m && BatchStep(m[x], rate, charge).1.Fail?
    decreases |ids|
  {
    if ids != [] {
      var init := ids[..|ids| - 1];
      FailuresAreRejections(m, init, rate, charge, x);
      assert ids == init + [ids[|ids| - 1]];
    }
  }

  /** Over strictly increasing ids (the creation order), the reports are
      strictly increasing too: each rejected id is reported once, in
      visiting order. */
  lemma {:induction false} FailuresIncreasing(m: map<int, AccountState>, ids: seq<int>, rate: real, charge: real)
    requires forall i, j | 0 <= i < j < |ids| :: ids[i] < ids[j]
    ensures var r := Failures(m, ids, rate, charge);
            forall i, j | 0 <= i < j < |r| :: r[i] < r[j]
    decreases |ids|
  {
    if ids != [] {
      var init := ids[..|ids| - 1];
      var last := ids[|ids| - 1];
      FailuresIncreasing(m, init, rate, charge);
      var earlier := Failures(m, init, rate, charge);
      forall k | 0 <= k < |earlier|
        ensures earlier[k] < last
      {
        FailuresAreRejections(m, init, rate, charge, earlier[k]);
        var p :| 0 <= p < |init| && init[p] == earlier[k];
        assert ids[p] < ids[|ids| - 1];
      }
    }
  }

  /** The examples of the batch: a savings account holding 1000 with a rate of
      5 ends with 1050; a current account holding 5 with a charge of 10 keeps
      its 5 and is reported. */
  lemma BatchExamples(h: seq<Transaction>)
    ensures var m := map[1 := AccountState(Ahorros, 1000.0, h), 2 := AccountState(Corriente, 5.0, h)];
            && ProcessAll(m, 5.0, 10.0)[1].balance == 1050.0
            && ProcessAll(m, 5.0, 10.0)[2] == m[2]
            && Failures(m, [1, 2], 5.0, 10.0) == [2]
  {
    var m := map[1 := AccountState(Ahorros, 1000.0, h), 2 := AccountState(Corriente, 5.0, h)];
    assert [1, 2][..1] == [1];
    assert [1][..0] == [];
  }

  /** The registry (`Banco`). `accounts` is the `LinkedHashMap` and `order`
      its insertion order; `nextId` is the id counter, which starts at 1. */
  class Bank {
    var accounts: map<int, Account>
    var order: seq<int>
    var nextId: int

    /** The registry's own invariant: each account is stored under its own
        id, every id is below the counter, and `order` lists exactly the
        stored ids in strictly increasing (creation) order. */
    ghost predicate Registered()
      reads this
    {
      && 1 <= nextId
      && (forall id | id in accounts :: accounts[id].id == id && id < nextId)
      && (forall id | id in accounts :: id in order)
      && (forall i | 0 <= i < |order| :: order[i] in accounts)
      && (forall i, j | 0 <= i < j < |order| :: order[i] < order[j])
    }

    /** The registry's invariant, and every account satisfies its own. */
    ghost predicate Valid()
      reads this, accounts.Values
    {
      Registered() && forall id | id in accounts :: accounts[id].Valid()
    }

    /** The accounts' observable states, by id. */
    ghost function Snapshot(): map<int, AccountState>
      reads this, accounts.Values
    {
      map id | id in accounts :: accounts[id].State()
    }

    /** Reads `Snapshot()` and `Valid()` off the states of the accounts. */
    lemma Settled(m: map<int, AccountState>)
      requires Registered()
      requires m.Keys == accounts.Keys && AllConsistent(m)
      requires forall id | id in accounts :: accounts[id].State() == m[id]
      ensures Snapshot() == m && Valid()
    {
      forall id | id in accounts
        ensures accounts[id].Valid()
      {
        assert accounts[id].State() == m[id] && Consistent(m[id]);
      }
      assert Snapshot().Keys == m.Keys;
      assert forall id | id in m :: Snapshot()[id] == m[id];
    }

    constructor ()
      ensures Valid()
      ensures accounts == map[] && order == [] && nextId == 1
    {
      accounts := map[];
      order := [];
      nextId := 1;
    }

    /** `crearCuenta`: draws a fresh id, larger than every id handed out
        before, and adds exactly one entry, holding a new account in its
        opening state. */
    method CreateAccount(owner: string, kind: AccountType, initial: real) returns (a: Account)
      requires Valid()
      modifies this
      ensures Valid()
      ensures fresh(a) && a.owner == owner && a.kind == kind
      ensures a.id == old(nextId) && a.id !in old(accounts)
      ensures nextId == old(nextId) + 1
      ensures forall id | id in old(accounts) :: id < a.id
      ensures accounts == old(accounts)[a.id := a]
      ensures order == old(order) + [a.id]
      ensures a.State() == Open(kind, initial)
    {
      assert forall i | 0 <= i < |order| :: order[i] < nextId;
      a := new Account(nextId, owner, kind, initial);
      accounts := accounts[a.id := a];
      order := order + [a.id];
      nextId := nextId + 1;
    }

    /** `obtenerCuenta`: the account with the id, or none. */
    function GetAccount(id: int): (r: Option<Account>)
      reads this, accounts.Values
      requires Valid()
      ensures r.Some? <==> id in accounts
      ensures r.Some? ==> r.value == accounts[id] && r.value.id == id
    {
      if id in accounts then Some(accounts[id]) else None
    }

    /** The accounts stored under `ids`, in that order. */
    function AccountsAt(ids: seq<int>): (r: seq<Account>)
      reads this
      requires forall i | 0 <= i < |ids| :: ids[i] in accounts
      ensures |r| == |ids|
      ensures forall i | 0 <= i < |ids| :: r[i] == accounts[ids[i]]
      decreases |ids|
    {
      if ids == [] then [] else [accounts[ids[0]]] + AccountsAt(ids[1..])
    }

    /** `listar`: every account, each once, in creation order. */
    function List(): (r: seq<Account>)
      reads this, accounts.Values
      requires Valid()
      ensures |r| == |order|
      ensures forall i | 0 <= i < |r| :: r[i] == accounts[order[i]]
      ensures forall i, j | 0 <= i < j < |r| :: r[i].id < r[j].id
      ensures forall id | id in accounts :: accounts[id] in r
    {
      AccountsAt(order)
    }

    /** `obtenerHistorial`: the history of the account with the id, or the
        empty sequence for an unknown id. */
    function History(id: int): (h: seq<Transaction>)
      reads this, accounts.Values
      requires Valid()
      ensures id !in accounts ==> h == []
      ensures id in accounts ==> h == accounts[id].history && |h| >= 1 && h[0].kind == Apertura
    {
      if id in accounts then accounts[id].GetHistory() else []
    }

    /** `transferir` */
    method Transfer(fromId: int, toId: int, amount: real) returns (r: Outcome)
      requires Valid()
      modifies accounts.Values
      ensures Valid()
      ensures (Snapshot(), r) == TransferSpec(old(Snapshot()), fromId, toId, amount)
    {
      if amount <= 0.0 {
        return Fail(IllegalArgument(NonPositiveAmount));
      }
      if fromId !in accounts {
        return Fail(IllegalArgument(UnknownSource));
      }
      if toId !in accounts {
        return Fail(IllegalArgument(UnknownDestination));
      }
      if fromId == toId {
        return Fail(IllegalArgument(SameAccount));
      }
      var src, dst := accounts[fromId], accounts[toId];
      ghost var before := Snapshot();
      r := TransferBetween(src, dst, amount);
      ghost var after := TransferSpec(before, fromId, toId, amount).0;
      forall id | id in accounts
        ensures accounts[id].State() == after[id]
      {
        if id != fromId && id != toId {
          assert accounts[id] != src && accounts[id] != dst;
        }
      }
      assert AllConsistent(before) by {
        forall id | id in before
          ensures Consistent(before[id])
        {
          assert accounts[id].Valid();
        }
      }
      Settled(after);
    }

    /** `aplicarInteresesYCargos`: visits every account in creation order,
        giving savings accounts interest and current accounts the charge. A
        rejected step leaves its account unchanged and the loop goes on; the
        ids of the rejected accounts are returned in visiting order. */
    method ApplyInterestAndCharges(rate: real, charge: real) returns (failed: seq<int>)
      requires Valid()
      modifies accounts.Values
      ensures Valid()
      ensures Snapshot() == ProcessAll(old(Snapshot()), rate, charge)
      ensures failed == Failures(old(Snapshot()), order, rate, charge)
      ensures forall i, j | 0 <= i < j < |failed| :: failed[i] < failed[j]
    {
      assert Indexed(order, accounts);
      ghost var before := Snapshot();
      assert AllConsistent(before) by {
        forall id | id in before
          ensures Consistent(before[id])
        {
          assert accounts[id].Valid();
        }
      }
      failed := VisitAll(order, accounts, rate, charge, before);
      Settled(ProcessAll(before, rate, charge));
      FailuresIncreasing(before, order, rate, charge);
    }
  }

  /** The ids are distinct keys of `accts`, each stored under its own id. */
  ghost predicate Indexed(ids: seq<int>, accts: map<int, Account>) {
    && (forall id | id in accts :: accts[id].id == id)
    && (forall i | 0 <= i < |ids| :: ids[i] in accts)
    && (forall i, j | 0 <= i < j < |ids| :: ids[i] < ids[j])
  }

  /** The batch part-way: the accounts under the first `i` ids have taken
      their step from `before`, the others still hold their state in `before`. */
  ghost predicate VisitedUpTo(ids: seq<int>, accts: map<int, Account>, i: nat, before: map<int, AccountState>, rate: real, charge: real)
    reads accts.Values
    requires Indexed(ids, accts) && i <= |ids| && accts.Keys <= before.Keys
  {
    && (forall j | 0 <= j < i :: accts[ids[j]].State() == BatchStep(before[ids[j]], rate, charge).0)
    && (forall j | i <= j < |ids| :: accts[ids[j]].State() == before[ids[j]])
  }

  /** The loop of `aplicarInteresesYCargos`: every account, in the order of
      `ids`, takes its batch step; `before` holds the accounts' states when
      the loop starts. */
  method VisitAll(ids: seq<int>, accts: map<int, Account>, rate: real, charge: real, ghost before: map<int, AccountState>)
    returns (failed: seq<int>)
    requires Indexed(ids, accts)
    requires forall id | id in accts :: id in ids
    requires before.Keys == accts.Keys
    requires AllConsistent(before)
    requires forall id | id in accts :: accts[id].State() == before[id]
    modifies accts.Values
    ensures forall id | id in accts :: accts[id].State() == BatchStep(before[id], rate, charge).0
    ensures failed == Failures(before, ids, rate, charge)
  {
    failed := [];
    var i := 0;
    while i < |ids|
      invariant 0 <= i <= |ids|
      invariant VisitedUpTo(ids, accts, i, before, rate, charge)
      invariant failed == Failures(before, ids[..i], rate, charge)
    {
      var outcome := VisitOne(ids, accts, i, rate, charge, before);
      FailuresExtend(before, ids, i, rate, charge);
      if outcome.Fail? {
        failed := failed + [ids[i]];
      }
      i := i + 1;
    }
    assert ids[..|ids|] == ids;
  }

  /** One turn of the batch loop: the account under `ids[i]` takes its step
      and no other account changes. */
  method VisitOne(ids: seq<int>, accts: map<int, Account>, i: nat, rate: real, charge: real, ghost before: map<int, AccountState>)
    returns (outcome: Outcome)
    requires Indexed(ids, accts) && i < |ids| && accts.Keys <= before.Keys
    requires AllConsistent(before)
    requires VisitedUpTo(ids, accts, i, before, rate, charge)
    modifies accts[ids[i]]
    ensures VisitedUpTo(ids, accts, i + 1, before, rate, charge)
    ensures outcome == BatchStep(before[ids[i]], rate, charge).1
  {
    var id := ids[i];
    var account := accts[id];
    assert account.State() == before[id] && Consistent(before[id]);
    outcome := ApplyBatchStep(account, rate, charge);
    forall j | 0 <= j < |ids| && j != i
      ensures accts[ids[j]] != account
    {
      assert ids[j] != ids[i] by {
        if j < i { assert ids[j] < ids[i]; } else { assert ids[i] < ids[j]; }
      }
    }
  }

  /** The body of the batch loop for one account: interest for a savings
      account, the charge for a current account. */
  method ApplyBatchStep(account: Account, rate: real, charge: real) returns (outcome: Outcome)
    requires account.Valid()
    modifies account
    ensures account.Valid()
    ensures (account.State(), outcome) == BatchStep(old(account.State()), rate, charge)
  {
    if account.kind == Ahorros {
      outcome := account.ApplyInterest(rate);
    } else {
      outcome := account.ApplyCharge(charge);
    }
  }

  /** Steps 2 to 5 of `transferir` on two distinct accounts. */
  method TransferBetween(src: Account, dst: Account, amount: real) returns (r: Outcome)
    requires src != dst && src.Valid() && dst.Valid() && amount > 0.0
    modifies src, dst
    ensures src.Valid() && dst.Valid()
    ensures (src.State(), dst.State(), r) == Protocol(old(src.State()), old(dst.State()), amount)
  {
    r := src.Withdraw(amount);
    if r.Fail? {
      return;
    }
    var credited := dst.Deposit(amount);
    r := SettleTransfer(src, dst, amount, credited);
  }

  /** The `try`/`catch` block of `transferir`: after the source withdrawal,
      given how the credit to the destination ended, either record the
      transfer in both accounts or compensate the source with a deposit and
      pass the failure on. */
  method SettleTransfer(src: Account, dst: Account, amount: real, credited: Outcome) returns (r: Outcome)
    requires src != dst && src.Valid() && dst.Valid() && amount > 0.0
    modifies src, dst
    ensures src.Valid() && dst.Valid()
    ensures (src.State(), dst.State(), r) == Settle(old(src.State()), old(dst.State()), amount, credited)
  {
    if credited.Ok? {
      src.RecordTransaction(TransferenciaEnviada, -amount);
      dst.RecordTransaction(TransferenciaRecibida, amount);
      r := Ok;
    } else {
      var compensated := src.Deposit(amount);
      r := credited;
    }
  }
}
