# Exchange application core, modelled in Dafny

This project models the three services of the ExchangeApplication banking back end:

- **TransactionServiceImpl** deposits to and withdraws from a client's own account. It transfers between accounts, converting through an exchange-rate gateway when the currencies differ. It also lists an account's history with each row tagged as sent or received.
- **AccountServiceImpl** opens accounts and looks them up by id, by IBAN and by owning client.
- **ClientServiceImpl** registers clients, checking the e-mail and password patterns and the uniqueness of e-mail and username. It also loads a client by username for authentication.

Service state is held in classes. `Accounts.AccountService` keeps a map from id to `Account` and an index from IBAN to id. `Clients.ClientRepository` keeps a map from id to `Client`. `Transactions.TransactionService` keeps the saved ledger rows as a sequence.

Exceptions the Java code throws become `Failure` values of `Model.Error`, each carrying the exact message. `TransferResult` values are returned as the Java code returns them.

Module `Balances` defines the per-currency total of all balances, `Holdings`. It proves how a single balance change and a two-legged transfer move that total. DepositAccount, WithdrawAccount and TransferBetweenAccounts each state their effect on that total.

Files:

- `wrappers.dfy`: Option and Result.
- `status_messages.dfy`: the fixed messages.
- `model.dfy`: entities, enums and request/response objects.
- `client_service.dfy`: the password and e-mail checks, the client repository and the client service.
- `account_service.dfy`: the account service.
- `balances.dfy`: balance updates and currency totals.
- `transaction_service.dfy`: the transaction service.

Collaborators outside the core become parameters:

- The exchange gateway is a function `exchange` from a base currency to a rate table or an error.
- The password encoder is a function `encode`.
- The clock is a value `now`.
- The ids and IBANs the database and the IBAN generator would produce are `newId` and `newIban`.
- A repository save that throws is a flag `saveFails`.
- The authenticated principal is the caller's client id `callerId`.

Amounts are exact reals, as `BigDecimal` addition, subtraction and multiplication are exact.

## Model

| member | source | states |
|---|---|---|
| Clients.ScanPassword | src/main/java/com/assignment/ExchangeApplication/service/ClientServiceImpl.java:100-105 | one pass yields a result exactly when no character is a line terminator (which `.` refuses), and then reports exactly whether a digit, a lower-case and an upper-case letter occur |
| Clients.IsValidPassword | src/main/java/com/assignment/ExchangeApplication/service/ClientServiceImpl.java:100-105 | the password is accepted exactly when it has at least 8 characters, no line terminator, and at least one digit, one lower-case and one upper-case ASCII letter |
| Clients.IndexOf | src/main/java/com/assignment/ExchangeApplication/service/ClientServiceImpl.java:107-111 | returns the position of the first occurrence of the character, or none when it does not occur |
| Clients.IndexOfFirst | src/main/java/com/assignment/ExchangeApplication/service/ClientServiceImpl.java:107-111 | a position holding the character, with none before it, is what IndexOf returns |
| Clients.IsValidEmail | src/main/java/com/assignment/ExchangeApplication/service/ClientServiceImpl.java:107-111 | an accepted address fits the pattern: non-empty local part, '@', non-empty label, '.', non-empty tail, each from its character class |
| Clients.IsValidEmailCharacterization | src/main/java/com/assignment/ExchangeApplication/service/ClientServiceImpl.java:107-111 | the check accepts exactly the strings the whole-input pattern describes, in both directions |
| Clients.ValidEmailHasOneAt | src/main/java/com/assignment/ExchangeApplication/service/ClientServiceImpl.java:108 | an accepted address contains exactly one '@' |
| Clients.ClientRepository.constructor | src/main/java/com/assignment/ExchangeApplication/repository/ClientRepository.java:10 | an empty repository satisfies the uniqueness invariant |
| Clients.ClientRepository.FindByUsername | src/main/java/com/assignment/ExchangeApplication/repository/ClientRepository.java:12 | returns nothing exactly when no client has the username, otherwise the stored client with that username |
| Clients.ClientRepository.Save | src/main/java/com/assignment/ExchangeApplication/model/Client.java:28-38 | adds the row under its id and keeps ids, e-mails and usernames unique |
| Clients.ClientService.constructor | src/main/java/com/assignment/ExchangeApplication/service/ClientServiceImpl.java:35-40 | the service uses the given repository |
| Clients.ClientService.RegisterClient | src/main/java/com/assignment/ExchangeApplication/service/ClientServiceImpl.java:45-77 | refuses, in this order and with these messages: a malformed e-mail, a password against the policy, an e-mail in use, a username in use, a failed save; then nothing is stored. Otherwise it stores and returns the client with the encoded password, role USER and the creation time |
| Clients.ClientService.LoadUserByUsername | src/main/java/com/assignment/ExchangeApplication/service/ClientServiceImpl.java:81-97 | fails with "Client not found" exactly when no client has the username; otherwise returns the stored client with the single authority "ROLE_USER" |
| Clients.ShortPasswordRejected | src/main/java/com/assignment/ExchangeApplication/service/ClientServiceImpl.java:100-105 | "12345" is refused |
| Clients.NoAtRejected | src/main/java/com/assignment/ExchangeApplication/service/ClientServiceImpl.java:107-111 | an address without '@' is refused |
| Accounts.AccountService.constructor | src/main/java/com/assignment/ExchangeApplication/service/AccountServiceImpl.java:30-36 | an empty store with a consistent IBAN index |
| Accounts.AccountService.GetAccountById | src/main/java/com/assignment/ExchangeApplication/service/AccountServiceImpl.java:59-61 | returns the stored account exactly when the id is stored |
| Accounts.AccountService.GetAccountByIban | src/main/java/com/assignment/ExchangeApplication/service/AccountServiceImpl.java:71-77 | succeeds exactly when some stored account has the IBAN and returns that account; otherwise NoSuchElement "Account not found" |
| Accounts.AccountService.GetAccountsByClientId | src/main/java/com/assignment/ExchangeApplication/service/AccountServiceImpl.java:64-68 | an unknown client gives NoSuchElement "Client not found"; otherwise the result holds exactly the stored accounts owned by the client |
| Accounts.AccountService.UpdateAccount | src/main/java/com/assignment/ExchangeApplication/service/AccountServiceImpl.java:80-82 | stores the account under its id, leaves every other account unchanged, and makes both lookups return it |
| Accounts.AccountService.CreateAccountForClient | src/main/java/com/assignment/ExchangeApplication/service/AccountServiceImpl.java:38-56 | a failed save gives IllegalArgument "Failed to create account" and changes nothing; otherwise it stores and returns the caller's new account in the requested currency with balance zero |
| Balances.HoldingsOverRemove | src/main/java/com/assignment/ExchangeApplication/service/TransactionServiceImpl.java:61-150 | any one account can be split off the per-currency sum |
| Balances.HoldingsOverAgree | src/main/java/com/assignment/ExchangeApplication/service/TransactionServiceImpl.java:61-150 | sums over stores that agree on the accounts summed are equal |
| Balances.AdjustHoldings | src/main/java/com/assignment/ExchangeApplication/service/TransactionServiceImpl.java:67-72 | changing one balance by delta changes the total of that account's currency by delta and no other currency's total |
| Balances.SettleHoldings | src/main/java/com/assignment/ExchangeApplication/service/TransactionServiceImpl.java:210-250 | a settled transfer lowers the source currency's total by the debit and raises the destination currency's total by the credit |
| Balances.SameCurrencyTransferConserves | src/main/java/com/assignment/ExchangeApplication/service/TransactionServiceImpl.java:189-191 | a same-currency transfer of one amount between distinct accounts keeps their combined balance and every currency's total |
| Balances.SettleKeepsNonNegative | src/main/java/com/assignment/ExchangeApplication/service/TransactionServiceImpl.java:213-220 | a transfer whose debit the source covers keeps every balance non-negative and touches no third account |
| Balances.AdjustUndo | src/main/java/com/assignment/ExchangeApplication/service/TransactionServiceImpl.java:67-72 | taking back what was added to a balance restores the store |
| Transactions.BelongsToRequester | src/main/java/com/assignment/ExchangeApplication/service/TransactionServiceImpl.java:170-175 | holds exactly when the account's owning client is the caller; its partner is OwnershipAgreesWithClientAccounts |
| Transactions.OwnershipAgreesWithClientAccounts | src/main/java/com/assignment/ExchangeApplication/service/TransactionServiceImpl.java:170-175 | for a stored account and a known client, the ownership guard holds exactly when the account is among the accounts the account service lists for that client |
| Transactions.CurrencyMatches | src/main/java/com/assignment/ExchangeApplication/service/TransactionServiceImpl.java:177-180 | a missing currency matches no account; a present one matches exactly the account's own currency; its partner is TransferCreditsDestinationCurrency |
| Transactions.TransferCreditsDestinationCurrency | src/main/java/com/assignment/ExchangeApplication/service/TransactionServiceImpl.java:143-146 | once the checks pass, the TRANSFER row built for the request credits the destination account's own currency |
| Transactions.TransactionService.GetAccount | src/main/java/com/assignment/ExchangeApplication/service/TransactionServiceImpl.java:252-258 | an account exactly when some stored account has the IBAN, and then that stored account; a failed lookup becomes none |
| Transactions.TransferCheck | src/main/java/com/assignment/ExchangeApplication/service/TransactionServiceImpl.java:122-146 | names the first failing check, in the order: source missing, not the caller's, destination missing, identical accounts, currency mismatch or missing; each message is reported exactly when its check is the first to fail, and none exactly when all pass |
| Transactions.GenerateTransaction | src/main/java/com/assignment/ExchangeApplication/service/TransactionServiceImpl.java:186-208 | fails exactly when the currencies differ and the gateway fails, passing the error on; otherwise a TRANSFER row debiting the amount itself in the same currency or the amount times the source currency's rate, crediting the requested amount, with both accounts and currencies |
| Transactions.TransactionService.constructor | src/main/java/com/assignment/ExchangeApplication/service/TransactionServiceImpl.java:50-57 | an empty ledger over the given account service |
| Transactions.TransactionService.DepositAccount | src/main/java/com/assignment/ExchangeApplication/service/TransactionServiceImpl.java:61-84 | an unknown IBAN gives NoSuchElement and another client's account PermissionDenied, with nothing changed; otherwise the balance rises by the amount, one DEPOSIT row is appended, the new balance is returned, and that currency's total rises by the amount |
| Transactions.TransactionService.WithdrawAccount | src/main/java/com/assignment/ExchangeApplication/service/TransactionServiceImpl.java:88-112 | as deposit, and a balance that would go below zero gives NegativeAmount "Insufficient balance" with nothing changed; otherwise the balance falls by the amount, one WITHDRAWAL row is appended, and balances stay non-negative |
| Transactions.TransactionService.ExecuteAccountTransfer | src/main/java/com/assignment/ExchangeApplication/service/TransactionServiceImpl.java:210-250 | the row must name the two accounts it moves money between; a debit the source cannot cover gives FAILED "Insufficient balance" with nothing changed; otherwise the source is debited, the destination credited, the row is saved stamped with the time, and SUCCESSFUL is returned |
| Transactions.TransactionService.TransferBetweenAccounts | src/main/java/com/assignment/ExchangeApplication/service/TransactionServiceImpl.java:116-150 | a failed check gives FAILED with its message; a gateway error is passed on; then as executeAccountTransfer. Nothing changes unless SUCCESSFUL is returned; each currency's total moves by exactly the two legs; a same-currency transfer keeps every total; no balance becomes negative; the saved row of a SUCCESSFUL transfer is in the destination account's currency |
| Transactions.TransactionService.GetTransactionsForAccount | src/main/java/com/assignment/ExchangeApplication/service/TransactionServiceImpl.java:153-168 | an unknown account gives EntityNotFound and another client's account PermissionDenied; otherwise every row of the page, in order, tagged SENT when the account is its source and RECEIVED otherwise |
| Transactions.CrossCurrencyDebitExample | src/main/java/com/assignment/ExchangeApplication/service/TransactionServiceImpl.java:189-205 | 50 GBP from a EUR account at rate 1.175344 debits 58.7672 EUR and credits 50 GBP |
| Transactions.IdenticalAccountsReportedFirst | src/main/java/com/assignment/ExchangeApplication/service/TransactionServiceImpl.java:138-146 | a transfer to the source account itself reports identical accounts even when the currency also mismatches |
| Transactions.MissingCurrencyRejected | src/main/java/com/assignment/ExchangeApplication/service/TransactionServiceImpl.java:143-146 | a request without a destination currency, from the source's owner to another existing account, fails with the currency message |
| Transactions.RowDirections | src/main/java/com/assignment/ExchangeApplication/service/TransactionServiceImpl.java:160-166 | history tags a deposit row RECEIVED, a withdrawal row SENT, and a transfer row SENT for its source and RECEIVED for its destination |

## Left out

- The controllers, Spring Security configuration, request validation and JSON mapping are left out. The request objects' `@DecimalMin("0.01")` bound becomes the `request.amount >= MIN_AMOUNT` precondition of deposit, withdrawal and transfer.
- The exchange gateway (CurrencyExchangeServiceImpl and its HTTP call) is a function parameter. When the currencies differ and the gateway answers, the rate table must hold the source currency (`RateKnown`); the Java code would throw a NullPointerException otherwise. The gateway's error is left unconstrained. The real gateway only ever throws CurrencyExchange with "Unable to retrieve exchange rates", because it rethrows its own "Exchange rates API unavailable" under that message.
- Logging, `@Transactional` rollback and concurrency are not modelled. An operation either completes or changes nothing.
- The FailedAccountUpdateException paths of executeAccountTransfer are not modelled. Setting a balance on an entity cannot throw.
- executeAccountTransfer only sets the balances of managed entities, which JPA writes back at commit. The model writes them through UpdateAccount.
- The database-generated ids, BankHelper.generateIban, BCrypt and the system clock are parameters. New ids and IBANs are required to be unused.
- The transaction's own id is not modelled. Ledger rows refer to accounts by id, not by object reference.
- Transactions.TransactionService.GetTransactionsForAccount: the repository's paged query is not part of this model. The page of rows is a parameter, and the result is a tagged copy rather than the same objects changed in place.
- Accounts.AccountService.GetAccountsByClientId returns a set. The order of the Java list is not modelled.
- The scale of a `BigDecimal` is not modelled. Java's `equals` and the JSON output tell 300.2 and 300.20 apart; the model's reals do not.
- AccountResponseDto's client name is not modelled. The response carries the client's id only.
- The unique constraint on the password column (model/Client.java:31-33) is not modelled.
- Clients.ClientService.RegisterClient: the creation timestamp is the parameter `now`.
- Clients.IsValidPassword: a Java string can hold an unpaired surrogate and a Dafny string cannot, so such passwords are outside the model. Paired surrogates are one code point to Java's pattern and one character here.

The source files come from different revisions and disagree in these places; the model follows the service code:

- enums/TransactionOperation.java declares SEND and RECEIVE, but the service writes DEPOSIT, WITHDRAWAL and TRANSFER. The model's enum holds the three the service uses.
- The service sets a `transferType` on each row, but model/Transaction.java in this revision has no such field. The model adds it as an optional field.
- ClientServiceImpl refers to `EMAIL_IN_USER_ERROR`, while helpers/StatusMessages.java defines `EMAIL_IN_USE_ERROR` ("Email is in use"). The model uses the latter.
- The repositories in this revision declare neither `findByIban` nor `findBySourceOrDestinationAccount`. The model supplies an IBAN lookup, and takes the history page as a parameter.
