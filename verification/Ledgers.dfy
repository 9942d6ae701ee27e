/** backend/services/ledger_service.go: the internal money ledger. A balance row
    is keyed by user, chain and token; amounts are exact integers. */
module Ledgers {
  import opened Outcomes
  import opened Sums

  datatype Account = Account(user: string, chain: int, token: string)

  type Balances = map<Account, int>

  datatype LedgerError = NotPositive | InsufficientBalance

  function Available(b: Balances, a: Account): int
  {
    if a in b then b[a] else 0
  }

  function Credit(b: Balances, a: Account, amount: int): Attempt<Balances, LedgerError>
  {
    if amount <= 0 then Abort(NotPositive)
    else Commit(b[a := Available(b, a) + amount])
  }

  function Debit(b: Balances, a: Account, amount: int): Attempt<Balances, LedgerError>
  {
    if amount <= 0 then Abort(NotPositive)
    else if Available(b, a) < amount then Abort(InsufficientBalance)
    else Commit(b[a := Available(b, a) - amount])
  }

  ghost predicate NonNegative(b: Balances)
  {
    forall a :: a in b ==> 0 <= b[a]
  }

  /** Everything the ledger holds of one token on one chain. */
  ghost function AssetTotal(b: Balances, chain: int, token: string): int
  {
    Total(map a | a in b && a.chain == chain && a.token == token :: b[a])
  }

  lemma WriteTotal(b: Balances, a: Account, v: int, chain: int, token: string)
    ensures AssetTotal(b[a := v], chain, token) ==
            AssetTotal(b, chain, token)
            + if a.chain == chain && a.token == token then v - Available(b, a) else 0
  {
    var held := map x | x in b && x.chain == chain && x.token == token :: b[x];
    var after := b[a := v];
    var heldAfter := map x | x in after && x.chain == chain && x.token == token :: after[x];
    if a.chain == chain && a.token == token {
      assert heldAfter == held[a := v];
      TotalUpdate(held, a, v);
    } else {
      assert heldAfter == held;
    }
  }

  /** A credit creates exactly its amount of exactly its own asset. */
  lemma CreditMoves(b: Balances, a: Account, amount: int, chain: int, token: string)
    requires 0 < amount
    ensures var r := Credit(b, a, amount);
            && r.Commit?
            && (NonNegative(b) ==> NonNegative(r.state))
            && AssetTotal(r.state, chain, token) ==
               AssetTotal(b, chain, token) + if a.chain == chain && a.token == token then amount else 0
  {
    WriteTotal(b, a, Available(b, a) + amount, chain, token);
  }

  /** A debit that commits destroys exactly its amount of its own asset and
      overdraws nobody; it aborts exactly when the amount is not positive or
      exceeds the balance. */
  lemma DebitMoves(b: Balances, a: Account, amount: int, chain: int, token: string)
    ensures var r := Debit(b, a, amount);
            && (r.Commit? <==> 0 < amount <= Available(b, a))
            && (r.Commit? ==>
                  && (NonNegative(b) ==> NonNegative(r.state))
                  && AssetTotal(r.state, chain, token) ==
                     AssetTotal(b, chain, token) - if a.chain == chain && a.token == token then amount else 0)
  {
    WriteTotal(b, a, Available(b, a) - amount, chain, token);
  }

  /** The stored rows. A debit or credit runs inside its caller's transaction, so
      the caller restores `available` when a later step aborts. */
  class Ledger {
    var available: Balances

    constructor (initial: Balances)
      ensures available == initial
    {
      available := initial;
    }

    /** Applies a change to one row, creating the row at zero when it is absent.
        `delta` is what the update function adds; `guarded` is the debit's check. */
    method Mutate(a: Account, delta: int, guarded: bool) returns (r: Outcome<LedgerError>)
      modifies this
      ensures guarded && Available(old(available), a) + delta < 0 ==>
                r == Fail(InsufficientBalance) && available == old(available)
      ensures !(guarded && Available(old(available), a) + delta < 0) ==>
                r == Pass && available == old(available)[a := Available(old(available), a) + delta]
    {
      var row := 0;
      if a in available {
        row := available[a];
      }
      if guarded && row + delta < 0 {
        return Fail(InsufficientBalance);
      }
      available := available[a := row + delta];
      r := Pass;
    }

    method CreditWithin(a: Account, amount: int) returns (r: Outcome<LedgerError>)
      modifies this
      ensures Follows(Credit(old(available), a, amount), old(available), r, available)
    {
      if amount <= 0 {
        return Fail(NotPositive);
      }
      r := Mutate(a, amount, false);
    }

    method DebitWithin(a: Account, amount: int) returns (r: Outcome<LedgerError>)
      modifies this
      ensures Follows(Debit(old(available), a, amount), old(available), r, available)
    {
      if amount <= 0 {
        return Fail(NotPositive);
      }
      r := Mutate(a, -amount, true);
    }
  }
}
