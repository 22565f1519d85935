/**
 * The account store (service/AccountServiceImpl.java): accounts keyed by id,
 * with an index from IBAN to id standing for the repository's `findByIban`.
 */
module Accounts {
  import opened Wrappers
  import opened Model
  import opened StatusMessages
  import Clients

  class AccountService {
    var accounts: map<Uuid, Account>
    var ibanIndex: map<string, Uuid>
    const clientRepository: Clients.ClientRepository

    /** Every account is stored under its own id, and the IBAN index is exactly the inverse of `iban`. */
    ghost predicate Valid()
      reads this
    {
      && (forall id :: id in accounts ==> accounts[id].id == id)
      && (forall id :: id in accounts ==> accounts[id].iban in ibanIndex && ibanIndex[accounts[id].iban] == id)
      && (forall iban :: iban in ibanIndex ==> ibanIndex[iban] in accounts && accounts[ibanIndex[iban]].iban == iban)
    }

    constructor (repository: Clients.ClientRepository)
      ensures Valid() && accounts == map[] && ibanIndex == map[] && clientRepository == repository
    {
      accounts, ibanIndex := map[], map[];
      clientRepository := repository;
    }

    /** `getAccountById`: the stored account with that id, if any. */
    function GetAccountById(id: Uuid): (r: Option<Account>)
      reads this
      requires Valid()
      ensures r.Some? <==> id in accounts
      ensures r.Some? ==> r.value == accounts[id] && r.value.id == id
    {
      if id in accounts then Some(accounts[id]) else None
    }

    /** `getAccountByIban`: the stored account with that IBAN, or NoSuchElement. */
    function GetAccountByIban(iban: string): (r: Result<Account, Error>)
      reads this
      requires Valid()
      ensures r.Success? <==> exists id :: id in accounts && accounts[id].iban == iban
      ensures r.Success? ==> r.value.id in accounts && accounts[r.value.id] == r.value && r.value.iban == iban
      ensures r.Failure? ==> r.error == NoSuchElement(ACCOUNT_NOT_FOUND_ERROR)
    {
      if iban in ibanIndex then Success(accounts[ibanIndex[iban]])
      else Failure(NoSuchElement(ACCOUNT_NOT_FOUND_ERROR))
    }

    /** `getAccountsByClientId`: every account of a known client; an unknown client is refused. */
    function GetAccountsByClientId(clientId: Uuid): (r: Result<set<Account>, Error>)
      reads this, clientRepository
      requires Valid()
      ensures r.Failure? <==> clientId !in clientRepository.clients
      ensures r.Failure? ==> r.error == NoSuchElement(CLIENT_NOT_FOUND_ERROR)
      ensures r.Success? ==> forall a :: a in r.value <==> a in accounts.Values && a.clientId == clientId
    {
      if clientId in clientRepository.clients then
        Success(set id | id in accounts && accounts[id].clientId == clientId :: accounts[id])
      else
        Failure(NoSuchElement(CLIENT_NOT_FOUND_ERROR))
    }

    /**
     * `updateAccount` (the repository's `save`): the account is stored under
     * its id and later lookups see it; no other account changes. IBANs stay
     * unique, so the account may not take another account's IBAN.
     */
    method UpdateAccount(account: Account)
      requires Valid()
      requires account.iban !in ibanIndex || ibanIndex[account.iban] == account.id
      modifies this
      ensures Valid()
      ensures accounts == old(accounts)[account.id := account]
      ensures account.id in old(accounts) && old(accounts)[account.id].iban == account.iban ==>
                ibanIndex == old(ibanIndex)
      ensures GetAccountById(account.id) == Some(account)
      ensures GetAccountByIban(account.iban) == Success(account)
      ensures forall id :: id != account.id ==> GetAccountById(id) == old(GetAccountById(id))
    {
      if account.id in accounts && accounts[account.id].iban != account.iban {
        ibanIndex := ibanIndex - {accounts[account.id].iban};
      }
      ibanIndex := ibanIndex[account.iban := account.id];
      accounts := accounts[account.id := account];
    }

    /**
     * `createAccountForClient`: a new account of the caller, in the requested
     * currency, with balance zero. `newId` and `newIban` stand for the ids the
     * database and the IBAN generator hand out; `saveFails` for an exception
     * the repository throws.
     */
    method CreateAccountForClient(callerId: Uuid, request: AccountCreateRequest, newId: Uuid, newIban: string, saveFails: bool)
      returns (r: Result<Account, Error>)
      requires Valid()
      requires newId !in accounts && newIban !in ibanIndex
      modifies this
      ensures Valid()
      ensures saveFails ==> r == Failure(IllegalArgument(CREATE_ACCOUNT_ERROR))
      ensures !saveFails ==> r == Success(Account(newId, request.currency, 0.0, callerId, newIban))
      ensures r.Failure? ==> accounts == old(accounts) && ibanIndex == old(ibanIndex)
      ensures r.Success? ==> accounts == old(accounts)[newId := r.value]
    {
      if saveFails {
        return Failure(IllegalArgument(CREATE_ACCOUNT_ERROR));
      }
      var account := Account(newId, request.currency, 0.0, callerId, newIban);
      UpdateAccount(account);
      r := Success(account);
    }
  }
}
