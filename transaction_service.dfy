/**
 * The funds-movement engine (service/TransactionServiceImpl.java): deposit,
 * withdrawal, transfer between accounts, and the history of an account with
 * each row tagged as sent or received.
 */
module Transactions {
  import opened Wrappers
  import opened Model
  import opened StatusMessages
  import opened Balances
  import Accounts

  /** The exchange gateway: the rate table for a base currency, or the gateway's failure. */
  type Exchange = CurrencyCode -> Result<map<CurrencyCode, real>, Error>

  /** `doesAccountBelongsToRequester`: the caller is the account's owning client. */
  predicate BelongsToRequester(callerId: Uuid, account: Account): (r: bool)
    ensures r <==> account.clientId == callerId
  {
    account.clientId == callerId
  }

  /** `doesCurrencyMatchesAccount`: a missing currency matches no account, as `equals(null)` is false. */
  predicate CurrencyMatches(account: Account, currency: Option<CurrencyCode>): (r: bool)
    ensures currency.None? ==> !r
    ensures currency.Some? ==> (r <==> currency.value == account.currency)
  {
    match currency
    case None => false
    case Some(c) => c == account.currency
  }

  /**
   * The ordered checks of `transferBetweenAccounts`: the message of the first
   * one that fails, or `None` when all pass. `source` and `destination` are the
   * results of the two IBAN lookups.
   */
  function TransferCheck(callerId: Uuid, source: Option<Account>, destination: Option<Account>, request: TransferRequest)
    : (r: Option<string>)
    ensures r == Some(SOURCE_ACCOUNT_NOT_FOUND_ERROR) <==> source.None?
    ensures r == Some(UNAUTHORIZED_ACCOUNT_ERROR) <==>
              source.Some? && !BelongsToRequester(callerId, source.value)
    ensures r == Some(DESTINATION_ACCOUNT_NOT_FOUND_ERROR) <==>
              source.Some? && BelongsToRequester(callerId, source.value) && destination.None?
    ensures r == Some(IDENTICAL_SOURCE_AND_DESTINATION_ACCOUNT_ERROR) <==>
              source.Some? && BelongsToRequester(callerId, source.value) && destination.Some?
              && source.value.id == destination.value.id
    ensures r == Some(INVALID_CURRENCY_ERROR) <==>
              source.Some? && BelongsToRequester(callerId, source.value) && destination.Some?
              && source.value.id != destination.value.id
              && !CurrencyMatches(destination.value, request.destinationCurrency)
    ensures r.None? <==>
              source.Some? && BelongsToRequester(callerId, source.value) && destination.Some?
              && source.value.id != destination.value.id
              && CurrencyMatches(destination.value, request.destinationCurrency)
  {
    if source.None? then Some(SOURCE_ACCOUNT_NOT_FOUND_ERROR)
    else if !BelongsToRequester(callerId, source.value) then Some(UNAUTHORIZED_ACCOUNT_ERROR)
    else if destination.None? then Some(DESTINATION_ACCOUNT_NOT_FOUND_ERROR)
    else if source.value.id == destination.value.id then Some(IDENTICAL_SOURCE_AND_DESTINATION_ACCOUNT_ERROR)
    else if !CurrencyMatches(destination.value, request.destinationCurrency) then Some(INVALID_CURRENCY_ERROR)
    else None
  }

  /**
   * Where `generateTransaction` looks up a rate, the table the gateway returns
   * for the destination currency holds the source's currency.
   */
  predicate RateKnown(source: Account, request: TransferRequest, exchange: Exchange)
  {
    match request.destinationCurrency
    case None => true
    case Some(target) =>
      || target == source.currency
      || exchange(target).Failure?
      || source.currency in exchange(target).value
  }

  /**
   * `generateTransaction`: the not yet stamped TRANSFER row. The debit is in the
   * source currency: the requested amount itself when the source already holds
   * the destination currency, else the amount times the source currency's rate
   * in the table fetched with the destination currency as base. A gateway
   * failure is passed on. It is reached only once the destination currency
   * has matched the destination account, so that currency is present.
   */
  function GenerateTransaction(source: Account, destination: Account, request: TransferRequest, exchange: Exchange)
    : (r: Result<Transaction, Error>)
    requires request.destinationCurrency.Some? && RateKnown(source, request, exchange)
    ensures r.Failure? <==>
              !CurrencyMatches(source, request.destinationCurrency) && exchange(request.destinationCurrency.value).Failure?
    ensures r.Failure? ==> r.error == exchange(request.destinationCurrency.value).error
    ensures r.Success? ==>
              && r.value.sourceAmountDebited
                 == (if CurrencyMatches(source, request.destinationCurrency) then request.amount
                     else request.amount * exchange(request.destinationCurrency.value).value[source.currency])
              && r.value.destinationAmountCredited == request.amount
              && r.value.sourceAccount == Some(source.id)
              && r.value.destinationAccount == Some(destination.id)
              && r.value.sourceCurrencyCode == Some(source.currency)
              && r.value.destinationCurrencyCode == request.destinationCurrency
              && r.value.description == request.description
              && r.value.transactionOperation == TRANSFER
              && r.value.timestamp.None?
              && r.value.transferType.None?
  {
    if CurrencyMatches(source, request.destinationCurrency) then
      Success(TransferRow(source, destination, request, request.amount))
    else
      match exchange(request.destinationCurrency.value)
      case Failure(e) => Failure(e)
      case Success(rates) => Success(TransferRow(source, destination, request, request.amount * rates[source.currency]))
  }

  /** The TRANSFER row before it is stamped, debiting `debit` in the source currency. */
  function TransferRow(source: Account, destination: Account, request: TransferRequest, debit: real): Transaction
  {
    Transaction(None, request.description, Some(source.id), Some(destination.id), Some(source.currency),
                TRANSFER, request.destinationCurrency, debit, request.amount, None)
  }

  /** The DEPOSIT row: only the destination side is set. */
  function DepositRow(account: Account, amount: real, now: Timestamp): Transaction
  {
    Transaction(Some(now), None, None, Some(account.id), None, DEPOSIT, Some(account.currency), 0.0, amount, None)
  }

  /** The WITHDRAWAL row: only the source side is set. */
  function WithdrawalRow(account: Account, amount: real, now: Timestamp): Transaction
  {
    Transaction(Some(now), None, Some(account.id), None, Some(account.currency), WITHDRAWAL, None, amount, 0.0, None)
  }

  /** The tag history gives a row viewed from account `viewed`. */
  function Direction(transaction: Transaction, viewed: Uuid): TransferType
  {
    if transaction.sourceAccount.Some? && transaction.sourceAccount.value == viewed then SENT else RECEIVED
  }

  class TransactionService {
    const accountService: Accounts.AccountService
    /** The transaction repository: the ledger, in the order rows were saved. */
    var ledger: seq<Transaction>

    ghost predicate Valid()
      reads this, accountService
    {
      accountService.Valid()
    }

    constructor (accountService: Accounts.AccountService)
      requires accountService.Valid()
      ensures Valid() && this.accountService == accountService && ledger == []
    {
      this.accountService := accountService;
      ledger := [];
    }

    /** `getAccount`: an IBAN lookup whose NoSuchElement becomes `None`. */
    function GetAccount(iban: string): (r: Option<Account>)
      reads this, accountService
      requires Valid()
      ensures r.Some? <==> exists id :: id in accountService.accounts && accountService.accounts[id].iban == iban
      ensures r.Some? ==>
                && r.value.id in accountService.accounts
                && accountService.accounts[r.value.id] == r.value
                && r.value.iban == iban
    {
      match accountService.GetAccountByIban(iban)
      case Success(a) => Some(a)
      case Failure(_) => None
    }

    /**
     * `depositAccount`: the owner's account gains the amount and one DEPOSIT row
     * is saved; an unknown IBAN or a caller who does not own the account is
     * refused and nothing changes.
     */
    method DepositAccount(callerId: Uuid, request: TransactionRequest, now: Timestamp)
      returns (r: Result<AccountResponse, Error>)
      requires Valid()
      requires request.amount >= MIN_AMOUNT
      modifies this, accountService
      ensures Valid()
      ensures accountService.ibanIndex == old(accountService.ibanIndex)
      ensures var found := old(accountService.GetAccountByIban(request.accountIban));
              && (found.Failure? ==> r == Failure(NoSuchElement(ACCOUNT_NOT_FOUND_ERROR)))
              && (found.Success? && !BelongsToRequester(callerId, found.value) ==>
                    r == Failure(PermissionDenied(UNAUTHORIZED_ACCOUNT_ERROR)))
              && (found.Success? && BelongsToRequester(callerId, found.value) ==>
                    && r == Success(ToResponse(found.value.(balance := found.value.balance + request.amount)))
                    && accountService.accounts == Adjust(old(accountService.accounts), found.value.id, request.amount)
                    && ledger == old(ledger) + [DepositRow(found.value, request.amount, now)])
      ensures r.Failure? ==> accountService.accounts == old(accountService.accounts) && ledger == old(ledger)
      ensures NonNegative(old(accountService.accounts)) ==> NonNegative(accountService.accounts)
      ensures forall c :: Holdings(accountService.accounts, c)
                          == old(Holdings(accountService.accounts, c))
                             + (if r.Success? && r.value.currency == c then request.amount else 0.0)
    {
      var found := accountService.GetAccountByIban(request.accountIban);
      if found.Failure? {
        return Failure(found.error);
      }
      var account := found.value;
      if !BelongsToRequester(callerId, account) {
        return Failure(PermissionDenied(UNAUTHORIZED_ACCOUNT_ERROR));
      }
      ghost var before := accountService.accounts;
      var updated := account.(balance := account.balance + request.amount);
      accountService.UpdateAccount(updated);
      ledger := ledger + [DepositRow(account, request.amount, now)];
      r := Success(ToResponse(updated));
      assert accountService.accounts == Adjust(before, account.id, request.amount);
      forall c
        ensures Holdings(accountService.accounts, c)
                == Holdings(before, c) + (if account.currency == c then request.amount else 0.0)
      {
        AdjustHoldings(before, account.id, request.amount, c);
      }
    }

    /**
     * `withdrawAccount`: the owner's account loses the amount and one
     * WITHDRAWAL row is saved, unless that would leave the balance below zero;
     * an unknown IBAN, a caller who does not own the account or an overdraft is
     * refused and nothing changes.
     */
    method WithdrawAccount(callerId: Uuid, request: TransactionRequest, now: Timestamp)
      returns (r: Result<AccountResponse, Error>)
      requires Valid()
      requires request.amount >= MIN_AMOUNT
      modifies this, accountService
      ensures Valid()
      ensures accountService.ibanIndex == old(accountService.ibanIndex)
      ensures var found := old(accountService.GetAccountByIban(request.accountIban));
              && (found.Failure? ==> r == Failure(NoSuchElement(ACCOUNT_NOT_FOUND_ERROR)))
              && (found.Success? && !BelongsToRequester(callerId, found.value) ==>
                    r == Failure(PermissionDenied(UNAUTHORIZED_ACCOUNT_ERROR)))
              && (found.Success? && BelongsToRequester(callerId, found.value)
                  && found.value.balance - request.amount < 0.0 ==>
                    r == Failure(NegativeAmount(INSUFFICIENT_BALANCE_ERROR)))
              && (found.Success? && BelongsToRequester(callerId, found.value)
                  && found.value.balance - request.amount >= 0.0 ==>
                    && r == Success(ToResponse(found.value.(balance := found.value.balance - request.amount)))
                    && accountService.accounts == Adjust(old(accountService.accounts), found.value.id, -request.amount)
                    && ledger == old(ledger) + [WithdrawalRow(found.value, request.amount, now)])
      ensures r.Failure? ==> accountService.accounts == old(accountService.accounts) && ledger == old(ledger)
      ensures NonNegative(old(accountService.accounts)) ==> NonNegative(accountService.accounts)
      ensures forall c :: Holdings(accountService.accounts, c)
                          == old(Holdings(accountService.accounts, c))
                             - (if r.Success? && r.value.currency == c then request.amount else 0.0)
    {
      var found := accountService.GetAccountByIban(request.accountIban);
      if found.Failure? {
        return Failure(found.error);
      }
      var account := found.value;
      if !BelongsToRequester(callerId, account) {
        return Failure(PermissionDenied(UNAUTHORIZED_ACCOUNT_ERROR));
      }
      var newBalance := account.balance - request.amount;
      if newBalance < 0.0 {
        return Failure(NegativeAmount(INSUFFICIENT_BALANCE_ERROR));
      }
      ghost var before := accountService.accounts;
      var updated := account.(balance := newBalance);
      accountService.UpdateAccount(updated);
      ledger := ledger + [WithdrawalRow(account, request.amount, now)];
      r := Success(ToResponse(updated));
      assert accountService.accounts == Adjust(before, account.id, -request.amount);
      forall c
        ensures Holdings(accountService.accounts, c)
                == Holdings(before, c) - (if account.currency == c then request.amount else 0.0)
      {
        AdjustHoldings(before, account.id, -request.amount, c);
      }
    }

    /**
     * `executeAccountTransfer`: refuses when the debit would leave the source
     * below zero; otherwise debits the source, credits the destination and
     * saves the row stamped with `now`.
     */
    method ExecuteAccountTransfer(transaction: Transaction, source: Account, destination: Account, now: Timestamp)
      returns (r: TransferResult)
      requires Valid()
      requires source.id in accountService.accounts && accountService.accounts[source.id] == source
      requires destination.id in accountService.accounts && accountService.accounts[destination.id] == destination
      requires source.id != destination.id
      requires transaction.sourceAccount == Some(source.id) && transaction.destinationAccount == Some(destination.id)
      modifies this, accountService
      ensures Valid()
      ensures accountService.ibanIndex == old(accountService.ibanIndex)
      ensures source.balance - transaction.sourceAmountDebited < 0.0 ==>
                && r == TransferResult(FAILED, INSUFFICIENT_BALANCE_ERROR)
                && accountService.accounts == old(accountService.accounts)
                && ledger == old(ledger)
      ensures source.balance - transaction.sourceAmountDebited >= 0.0 ==>
                && r == TransferResult(SUCCESSFUL, TRANSFER_SUCCEEDED)
                && accountService.accounts
                   == Settle(old(accountService.accounts), source.id, destination.id,
                             transaction.sourceAmountDebited, transaction.destinationAmountCredited)
                && ledger == old(ledger) + [transaction.(timestamp := Some(now))]
    {
      var newSourceBalance := source.balance - transaction.sourceAmountDebited;
      if newSourceBalance < 0.0 {
        return TransferResult(FAILED, INSUFFICIENT_BALANCE_ERROR);
      }
      var newDestinationBalance := destination.balance + transaction.destinationAmountCredited;
      var stamped := transaction.(timestamp := Some(now));
      accountService.UpdateAccount(source.(balance := newSourceBalance));
      accountService.UpdateAccount(destination.(balance := newDestinationBalance));
      ledger := ledger + [stamped];
      r := TransferResult(SUCCESSFUL, TRANSFER_SUCCEEDED);
    }

    /**
     * `transferBetweenAccounts`. A failed check is answered with FAILED and its
     * message and changes nothing; a gateway failure is passed on and changes
     * nothing; otherwise the transfer is executed.
     */
    method TransferBetweenAccounts(callerId: Uuid, request: TransferRequest, exchange: Exchange, now: Timestamp)
      returns (r: Result<TransferResult, Error>)
      requires Valid()
      requires request.amount >= MIN_AMOUNT
      requires TransferCheck(callerId, GetAccount(request.sourceAccountNumber),
                             GetAccount(request.destinationAccountNumber), request).None? ==>
                 RateKnown(GetAccount(request.sourceAccountNumber).value, request, exchange)
      modifies this, accountService
      ensures Valid()
      ensures accountService.ibanIndex == old(accountService.ibanIndex)
      ensures var source := old(GetAccount(request.sourceAccountNumber));
              var destination := old(GetAccount(request.destinationAccountNumber));
              var check := TransferCheck(callerId, source, destination, request);
              if check.Some? then
                && r == Success(TransferResult(FAILED, check.value))
                && accountService.accounts == old(accountService.accounts) && ledger == old(ledger)
              else
                match GenerateTransaction(source.value, destination.value, request, exchange)
                case Failure(e) =>
                  && r == Failure(e)
                  && accountService.accounts == old(accountService.accounts) && ledger == old(ledger)
                case Success(transaction) =>
                  if source.value.balance - transaction.sourceAmountDebited < 0.0 then
                    && r == Success(TransferResult(FAILED, INSUFFICIENT_BALANCE_ERROR))
                    && accountService.accounts == old(accountService.accounts) && ledger == old(ledger)
                  else
                    && r == Success(TransferResult(SUCCESSFUL, TRANSFER_SUCCEEDED))
                    && accountService.accounts
                       == Settle(old(accountService.accounts), source.value.id, destination.value.id,
                                 transaction.sourceAmountDebited, request.amount)
                    && ledger == old(ledger) + [transaction.(timestamp := Some(now))]
                    && forall c :: Holdings(accountService.accounts, c)
                                   == old(Holdings(accountService.accounts, c))
                                      - (if source.value.currency == c then transaction.sourceAmountDebited else 0.0)
                                      + (if request.destinationCurrency == Some(c) then request.amount else 0.0)
      ensures r != Success(TransferResult(SUCCESSFUL, TRANSFER_SUCCEEDED)) ==>
                accountService.accounts == old(accountService.accounts) && ledger == old(ledger)
      ensures var source := old(GetAccount(request.sourceAccountNumber));
              r == Success(TransferResult(SUCCESSFUL, TRANSFER_SUCCEEDED))
              && source.Some? && CurrencyMatches(source.value, request.destinationCurrency) ==>
                forall c :: Holdings(accountService.accounts, c) == old(Holdings(accountService.accounts, c))
      ensures var destination := old(GetAccount(request.destinationAccountNumber));
              r == Success(TransferResult(SUCCESSFUL, TRANSFER_SUCCEEDED)) ==>
                && destination.Some? && |ledger| > 0
                && ledger[|ledger| - 1].destinationCurrencyCode == Some(destination.value.currency)
      ensures NonNegative(old(accountService.accounts)) ==> NonNegative(accountService.accounts)
    {
      var source := GetAccount(request.sourceAccountNumber);
      if source.None? {
        return Success(TransferResult(FAILED, SOURCE_ACCOUNT_NOT_FOUND_ERROR));
      }
      if !BelongsToRequester(callerId, source.value) {
        return Success(TransferResult(FAILED, UNAUTHORIZED_ACCOUNT_ERROR));
      }
      var destination := GetAccount(request.destinationAccountNumber);
      if destination.None? {
        return Success(TransferResult(FAILED, DESTINATION_ACCOUNT_NOT_FOUND_ERROR));
      }
      if source.value.id == destination.value.id {
        return Success(TransferResult(FAILED, IDENTICAL_SOURCE_AND_DESTINATION_ACCOUNT_ERROR));
      }
      if !CurrencyMatches(destination.value, request.destinationCurrency) {
        return Success(TransferResult(FAILED, INVALID_CURRENCY_ERROR));
      }
      var generated := GenerateTransaction(source.value, destination.value, request, exchange);
      if generated.Failure? {
        return Failure(generated.error);
      }
      ghost var before := accountService.accounts;
      var result := ExecuteAccountTransfer(generated.value, source.value, destination.value, now);
      r := Success(result);
      forall c
        ensures Holdings(Settle(before, source.value.id, destination.value.id,
                                generated.value.sourceAmountDebited, request.amount), c)
                == Holdings(before, c)
                   - (if source.value.currency == c then generated.value.sourceAmountDebited else 0.0)
                   + (if request.destinationCurrency == Some(c) then request.amount else 0.0)
      {
        SettleHoldings(before, source.value.id, destination.value.id,
                       generated.value.sourceAmountDebited, request.amount, c);
      }
    }

    /**
     * `getTransactionsForAccount`: an unknown account is refused with
     * EntityNotFound and a caller who does not own it with PermissionDenied;
     * otherwise every row of the page is kept, in order, tagged SENT when the
     * account is its source and RECEIVED otherwise.
     */
    method GetTransactionsForAccount(callerId: Uuid, accountId: Uuid, page: seq<Transaction>)
      returns (r: Result<seq<Transaction>, Error>)
      requires Valid()
      ensures accountId !in accountService.accounts ==> r == Failure(EntityNotFound(ACCOUNT_NOT_FOUND_ERROR))
      ensures accountId in accountService.accounts && !BelongsToRequester(callerId, accountService.accounts[accountId]) ==>
                r == Failure(PermissionDenied(UNAUTHORIZED_ACCOUNT_ERROR))
      ensures accountId in accountService.accounts && BelongsToRequester(callerId, accountService.accounts[accountId]) ==>
                && r.Success? && |r.value| == |page|
                && forall i :: 0 <= i < |page| ==>
                     r.value[i] == page[i].(transferType := Some(Direction(page[i], accountId)))
    {
      var found := accountService.GetAccountById(accountId);
      if found.None? {
        return Failure(EntityNotFound(ACCOUNT_NOT_FOUND_ERROR));
      }
      if !BelongsToRequester(callerId, found.value) {
        return Failure(PermissionDenied(UNAUTHORIZED_ACCOUNT_ERROR));
      }
      var tagged: seq<Transaction> := [];
      var i := 0;
      while i < |page|
        invariant 0 <= i <= |page|
        invariant |tagged| == i
        invariant forall j :: 0 <= j < i ==> tagged[j] == page[j].(transferType := Some(Direction(page[j], accountId)))
      {
        var transaction := page[i];
        if transaction.sourceAccount.Some? && transaction.sourceAccount.value == accountId {
          tagged := tagged + [transaction.(transferType := Some(SENT))];
        } else {
          tagged := tagged + [transaction.(transferType := Some(RECEIVED))];
        }
        i := i + 1;
      }
      r := Success(tagged);
    }
  }

  /** A cross-currency transfer debits the converted amount and credits the requested one. */
  lemma CrossCurrencyDebitExample()
    ensures var source := Account(1, EUR, 100.0, 7, "LV83HABA397NC9TA6ERJS");
            var destination := Account(2, GBP, 100.0, 7, "LV18HABA4P32VIMESXWV6");
            var request := TransferRequest(source.iban, destination.iban, 50.0, None, Some(GBP));
            var exchange: Exchange := base => Success(map[EUR := 1.175344]);
            var r := GenerateTransaction(source, destination, request, exchange);
            r.Success? && r.value.sourceAmountDebited == 58.7672 && r.value.destinationAmountCredited == 50.0
  {
  }

  /** Pointing a transfer at the source's own IBAN is reported as identical accounts, before any currency check. */
  lemma IdenticalAccountsReportedFirst(account: Account, request: TransferRequest)
    requires !CurrencyMatches(account, request.destinationCurrency)
    ensures TransferCheck(account.clientId, Some(account), Some(account), request)
            == Some(IDENTICAL_SOURCE_AND_DESTINATION_ACCOUNT_ERROR)
  {
  }

  /**
   * The tags history puts on the rows this service saves: a deposit is
   * received, a withdrawal sent, and a transfer sent by its source and
   * received by its destination.
   */
  lemma RowDirections(source: Account, destination: Account, request: TransferRequest, debit: real, amount: real, now: Timestamp)
    requires source.id != destination.id
    ensures Direction(DepositRow(destination, amount, now), destination.id) == RECEIVED
    ensures Direction(WithdrawalRow(source, amount, now), source.id) == SENT
    ensures Direction(TransferRow(source, destination, request, debit), source.id) == SENT
    ensures Direction(TransferRow(source, destination, request, debit), destination.id) == RECEIVED
  {
  }

  /**
   * A request without a destination currency, from the source's owner to
   * another existing account, fails the currency check.
   */
  lemma MissingCurrencyRejected(source: Account, destination: Account, request: TransferRequest)
    requires request.destinationCurrency.None? && source.id != destination.id
    ensures TransferCheck(source.clientId, Some(source), Some(destination), request) == Some(INVALID_CURRENCY_ERROR)
  {
  }

  /**
   * The ownership guard agrees with the account service's record of a known
   * client's accounts: a stored account belongs to the caller exactly when it
   * is among the caller's accounts.
   */
  lemma OwnershipAgreesWithClientAccounts(accounts: Accounts.AccountService, account: Account, callerId: Uuid)
    requires accounts.Valid()
    requires account.id in accounts.accounts && accounts.accounts[account.id] == account
    requires callerId in accounts.clientRepository.clients
    ensures BelongsToRequester(callerId, account) <==> account in accounts.GetAccountsByClientId(callerId).value
  {
  }

  /**
   * Once the checks pass, the row a transfer builds credits the destination
   * account's own currency.
   */
  lemma TransferCreditsDestinationCurrency(source: Account, destination: Account, request: TransferRequest, exchange: Exchange)
    requires TransferCheck(source.clientId, Some(source), Some(destination), request).None?
    requires RateKnown(source, request, exchange)
    ensures GenerateTransaction(source, destination, request, exchange).Success? ==>
              GenerateTransaction(source, destination, request, exchange).value.destinationCurrencyCode
              == Some(destination.currency)
  {
  }
}
