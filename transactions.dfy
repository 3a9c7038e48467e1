/** Values shared by accounts and the bank: the record kept in each account's
    history, the two account types, and the failures the operations signal. */
module Transactions {

  /** The account category (`TipoCuenta`). */
  datatype AccountType = Corriente | Ahorros

  /** The tag a history record is created with. */
  datatype RecordKind =
    | Apertura
    | Deposito
    | Retiro
    | Interes
    | Cargo
    | TransferenciaEnviada
    | TransferenciaRecibida

  /** One history entry (`Transaccion`): its tag, its signed amount and the
      balance of the account right after the entry was recorded. The
      timestamp and the description text are not modelled. */
  datatype Transaction = Transaction(kind: RecordKind, amount: real, resultingBalance: real)

  /** Which check raised an `IllegalArgumentException`; this stands for the
      exception's message. */
  datatype Reason =
    | NonPositiveAmount     // an amount, rate or charge that is <= 0
    | ChargeExceedsBalance  // a charge larger than the balance
    | UnknownSource         // transfer: no account with the source id
    | UnknownDestination    // transfer: no account with the destination id
    | SameAccount           // transfer: source and destination are the same id

  /** The two exception types the core throws. */
  datatype Error = IllegalArgument(reason: Reason) | InsufficientFunds

  /** How an operation ended: normally, or by throwing `error`. */
  datatype Outcome = Ok | Fail(error: Error)

  /** `Optional`: a lookup that may find nothing. */
  datatype Option<T> = None | Some(value: T)
}
