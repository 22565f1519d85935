/**
 * Balance changes over the account store's contents, and the per-currency
 * total of all balances, with the facts about how each change moves it.
 */
module Balances {
  import opened Model

  /** The store after `delta` is added to the balance of account `id`. */
  function Adjust(m: map<Uuid, Account>, id: Uuid, delta: real): map<Uuid, Account>
    requires id in m
  {
    m[id := m[id].(balance := m[id].balance + delta)]
  }

  /** Both legs of a transfer: `debit` leaves the source, `credit` reaches the destination. */
  function Settle(m: map<Uuid, Account>, source: Uuid, destination: Uuid, debit: real, credit: real): map<Uuid, Account>
    requires source in m && destination in m
  {
    Adjust(Adjust(m, source, -debit), destination, credit)
  }

  /** No balance is negative. */
  ghost predicate NonNegative(m: map<Uuid, Account>)
  {
    forall id :: id in m ==> m[id].balance >= 0.0
  }

  /** What an account contributes to the total held in currency `c`. */
  function Share(a: Account, c: CurrencyCode): real
  {
    if a.currency == c then a.balance else 0.0
  }

  ghost function Pick(ids: set<Uuid>): (id: Uuid)
    requires ids != {}
    ensures id in ids
  {
    var id :| id in ids; id
  }

  ghost function HoldingsOver(m: map<Uuid, Account>, ids: set<Uuid>, c: CurrencyCode): real
    requires ids <= m.Keys
    decreases ids
  {
    if ids == {} then 0.0
    else
      var id := Pick(ids);
      Share(m[id], c) + HoldingsOver(m, ids - {id}, c)
  }

  /** The sum of the balances of all accounts held in currency `c`. */
  ghost function Holdings(m: map<Uuid, Account>, c: CurrencyCode): real
  {
    HoldingsOver(m, m.Keys, c)
  }

  /** Any one account can be taken out of the sum first. */
  lemma {:induction false} HoldingsOverRemove(m: map<Uuid, Account>, ids: set<Uuid>, id: Uuid, c: CurrencyCode)
    requires ids <= m.Keys && id in ids
    ensures HoldingsOver(m, ids, c) == Share(m[id], c) + HoldingsOver(m, ids - {id}, c)
    decreases |ids|
  {
    var p := Pick(ids);
    if p != id {
      HoldingsOverRemove(m, ids - {p}, id, c);
      HoldingsOverRemove(m, ids - {id}, p, c);
      assert ids - {p} - {id} == ids - {id} - {p};
    }
  }

  /** Stores that agree on the accounts summed have the same sum. */
  lemma {:induction false} HoldingsOverAgree(m: map<Uuid, Account>, m': map<Uuid, Account>, ids: set<Uuid>, c: CurrencyCode)
    requires ids <= m.Keys && ids <= m'.Keys
    requires forall id :: id in ids ==> m[id] == m'[id]
    ensures HoldingsOver(m, ids, c) == HoldingsOver(m', ids, c)
    decreases |ids|
  {
    if ids != {} {
      HoldingsOverAgree(m, m', ids - {Pick(ids)}, c);
    }
  }

  /** Adjusting one account moves the total of its currency by `delta` and no other total. */
  lemma AdjustHoldings(m: map<Uuid, Account>, id: Uuid, delta: real, c: CurrencyCode)
    requires id in m
    ensures Holdings(Adjust(m, id, delta), c) == Holdings(m, c) + (if m[id].currency == c then delta else 0.0)
  {
    var m' := Adjust(m, id, delta);
    assert m'.Keys == m.Keys;
    HoldingsOverRemove(m, m.Keys, id, c);
    HoldingsOverRemove(m', m.Keys, id, c);
    HoldingsOverAgree(m, m', m.Keys - {id}, c);
  }

  /**
   * A settled transfer lowers the total of the source's currency by the debit
   * and raises the total of the destination's currency by the credit.
   */
  lemma SettleHoldings(m: map<Uuid, Account>, source: Uuid, destination: Uuid, debit: real, credit: real, c: CurrencyCode)
    requires source in m && destination in m
    ensures Holdings(Settle(m, source, destination, debit, credit), c)
            == Holdings(m, c) - (if m[source].currency == c then debit else 0.0)
                              + (if m[destination].currency == c then credit else 0.0)
  {
    AdjustHoldings(m, source, -debit, c);
    AdjustHoldings(Adjust(m, source, -debit), destination, credit, c);
  }

  /**
   * Between two accounts of one currency, moving the same amount out and in
   * keeps their combined balance and every currency's total.
   */
  lemma SameCurrencyTransferConserves(m: map<Uuid, Account>, source: Uuid, destination: Uuid, amount: real)
    requires source in m && destination in m && source != destination
    requires m[source].currency == m[destination].currency
    ensures Settle(m, source, destination, amount, amount)[source].balance
            + Settle(m, source, destination, amount, amount)[destination].balance
            == m[source].balance + m[destination].balance
    ensures forall c :: Holdings(Settle(m, source, destination, amount, amount), c) == Holdings(m, c)
  {
    forall c
      ensures Holdings(Settle(m, source, destination, amount, amount), c) == Holdings(m, c)
    {
      SettleHoldings(m, source, destination, amount, amount, c);
    }
  }

  /**
   * A transfer that leaves the source at zero or more and credits a
   * non-negative amount keeps every balance non-negative, and touches no
   * account but the two.
   */
  lemma SettleKeepsNonNegative(m: map<Uuid, Account>, source: Uuid, destination: Uuid, debit: real, credit: real)
    requires source in m && destination in m
    requires NonNegative(m) && m[source].balance - debit >= 0.0 && credit >= 0.0
    ensures NonNegative(Settle(m, source, destination, debit, credit))
    ensures forall id :: id in m && id != source && id != destination ==>
              Settle(m, source, destination, debit, credit)[id] == m[id]
  {
  }

  /** A withdrawal of what was just deposited restores every balance. */
  lemma AdjustUndo(m: map<Uuid, Account>, id: Uuid, delta: real)
    requires id in m
    ensures Adjust(Adjust(m, id, delta), id, -delta) == m
  {
    assert Adjust(Adjust(m, id, delta), id, -delta)[id] == m[id];
  }
}
