/**
 * The entities, enums and request/response objects of the exchange application
 * (model/, model/dto/, enums/). They carry no behaviour of their own.
 */
module Model {
  import opened Wrappers

  /** UUID keys of accounts and clients; only their equality matters. */
  type Uuid = nat

  /** A UTC instant, supplied by the caller in place of `LocalDateTime.now(ZoneOffset.UTC)`. */
  type Timestamp = int

  datatype CurrencyCode = USD | EUR | GBP | UAH | JPY | CAD

  datatype TransferStatus = FAILED | SUCCESSFUL

  /** Direction of a ledger row as seen from one account; computed when history is read. */
  datatype TransferType = RECEIVED | SENT

  /** The operation kinds the transaction service writes. */
  datatype TransactionOperation = DEPOSIT | WITHDRAWAL | TRANSFER

  datatype UserRole = USER

  /** `UserRole.toString()`. */
  function RoleName(role: UserRole): string
  {
    match role
    case USER => "ROLE_USER"
  }

  /** The least amount the request objects admit (`@DecimalMin("0.01")`). */
  const MIN_AMOUNT: real := 0.01

  /** A bank account; the owning client is referred to by its id. */
  datatype Account = Account(
    id: Uuid,
    currency: CurrencyCode,
    balance: real,
    clientId: Uuid,
    iban: string)

  /**
   * One ledger row. The accounts it touches are referred to by id; a field the
   * Java entity leaves null is `None` here.
   */
  datatype Transaction = Transaction(
    timestamp: Option<Timestamp>,
    description: Option<string>,
    sourceAccount: Option<Uuid>,
    destinationAccount: Option<Uuid>,
    sourceCurrencyCode: Option<CurrencyCode>,
    transactionOperation: TransactionOperation,
    destinationCurrencyCode: Option<CurrencyCode>,
    sourceAmountDebited: real,
    destinationAmountCredited: real,
    transferType: Option<TransferType>)

  /** A registered client (the profile part of model/Client.java). */
  datatype Client = Client(
    id: Uuid,
    email: string,
    password: string,
    name: string,
    username: string,
    createdAt: Option<Timestamp>,
    authorities: Option<seq<string>>,
    role: UserRole)

  datatype TransactionRequest = TransactionRequest(accountIban: string, amount: real)

  /**
   * `amount` is in the destination currency. The request may omit the
   * destination currency: the field carries no `@NotNull`.
   */
  datatype TransferRequest = TransferRequest(
    sourceAccountNumber: string,
    destinationAccountNumber: string,
    amount: real,
    description: Option<string>,
    destinationCurrency: Option<CurrencyCode>)

  datatype TransferResult = TransferResult(transferStatus: TransferStatus, message: string)

  datatype AccountCreateRequest = AccountCreateRequest(currency: CurrencyCode)

  datatype ClientDto = ClientDto(email: string, password: string, name: string, username: string)

  /** The account view returned by deposit and withdrawal. */
  datatype AccountResponse = AccountResponse(
    id: Uuid,
    currency: CurrencyCode,
    balance: real,
    clientId: Uuid,
    iban: string)

  function ToResponse(a: Account): AccountResponse
  {
    AccountResponse(a.id, a.currency, a.balance, a.clientId, a.iban)
  }

  /** The exceptions the services throw, each with its message. */
  datatype Error =
    | PermissionDenied(message: string)
    | NoSuchElement(message: string)
    | EntityNotFound(message: string)
    | NegativeAmount(message: string)
    | IllegalArgument(message: string)
    | CurrencyExchange(message: string)
    | EmailExists(message: string)
    | UsernameExists(message: string)
    | UsernameNotFound(message: string)
    | Runtime(message: string)
}
