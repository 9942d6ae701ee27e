/** The farm handlers in place: rows are rewritten one by one inside a transaction, and
    a failed transaction puts every row back. */
module FarmService {
  import opened Outcomes
  import opened Ledgers
  import opened FarmAccumulator
  import opened FarmRuns

  class Service {
    const ledger: Ledger
    var farm: Farm
    var books: seq<Book>
    var stakes: map<string, int>

    constructor (ledger: Ledger, farm: Farm, streams: seq<Stream>)
      ensures this.ledger == ledger
      ensures Rows() == State(farm, seq(|streams|, i requires 0 <= i < |streams| => Book(streams[i], map[])),
                              map[], ledger.available)
    {
      this.ledger := ledger;
      this.farm := farm;
      this.books := seq(|streams|, i requires 0 <= i < |streams| => Book(streams[i], map[]));
      this.stakes := map[];
    }

    function Rows(): State
      reads this, ledger
    {
      State(farm, books, stakes, ledger.available)
    }

    method RollBack(saved: State)
      modifies this, ledger
      ensures Rows() == saved
    {
      farm, books, stakes := saved.farm, saved.books, saved.stakes;
      ledger.available := saved.balances;
    }

    /** The end of a transaction: kept if its last ledger step passed, undone otherwise. */
    method Finish(saved: State, paid: Outcome<LedgerError>) returns (r: Outcome<FarmError>)
      modifies this, ledger
      ensures paid.Pass? ==> r == Pass && Rows() == old(Rows())
      ensures paid.Fail? ==> r == Fail(Money(paid.error)) && Rows() == saved
    {
      if paid.Fail? {
        RollBack(saved);
        return Fail(Money(paid.error));
      }
      r := Pass;
    }

    method AdvanceReward(i: nat, now: int)
      requires i < |books|
      modifies this`books
      ensures books == old(books)[i := old(books)[i].(stream :=
                FarmAccumulator.AdvanceReward(old(books)[i].stream, farm.totalStaked, now, farm.end))]
    {
      var reward := books[i].stream;
      var checkpoint := if farm.end < now then farm.end else now;
      if checkpoint < reward.last {
        checkpoint := reward.last;
      }
      var step := RewardStep(reward, farm.totalStaked, checkpoint, farm.end);
      if reward.last == ZERO_TIME || checkpoint == reward.last {
        books := books[i := books[i].(stream := reward.(last := checkpoint))];
        return;
      }
      reward := reward.(acc := step.acc, distributed := step.distributed, last := checkpoint);
      books := books[i := books[i].(stream := reward)];
    }

    method SettleMark(i: nat, user: string, oldEffective: int, newEffective: int)
      requires i < |books|
      modifies this`books
      ensures books == old(books)[i := old(books)[i].(marks := old(books)[i].marks[user :=
                AccrueMark(old(books)[i], user, oldEffective, newEffective, old(books)[i].stream.acc)])]
    {
      var b := books[i];
      var nextDebt := (newEffective * b.stream.acc) / SCALE;
      if user !in b.marks {
        books := books[i := b.(marks := b.marks[user := Mark(nextDebt, 0, 0)])];
        return;
      }
      var m := b.marks[user];
      var accrued := m.accrued + PendingFor(oldEffective, b.stream.acc, m.debt);
      books := books[i := b.(marks := b.marks[user := m.(accrued := accrued, debt := nextDebt)])];
    }

    method AccrueStake(user: string, oldEffective: int, newEffective: int, now: int)
      modifies this`books
      ensures books == FarmRuns.AccrueStake(old(books), farm, user, oldEffective, newEffective, now)
    {
      ghost var settled := FarmRuns.AccrueStake(books, farm, user, oldEffective, newEffective, now);
      var i := 0;
      while i < |books|
        invariant 0 <= i <= |books| == |settled|
        invariant forall j :: 0 <= j < i ==> books[j] == settled[j]
        invariant forall j :: i <= j < |books| ==> books[j] == old(books)[j]
      {
        AdvanceReward(i, now);
        SettleMark(i, user, oldEffective, newEffective);
        i := i + 1;
      }
    }

    method FindStream(token: string) returns (i: nat)
      ensures i == StreamIndex(books, token)
    {
      i := 0;
      while i < |books| && books[i].stream.token != token
        invariant 0 <= i <= |books|
        invariant forall j :: 0 <= j < i ==> books[j].stream.token != token
      {
        i := i + 1;
      }
    }

    method Fund(user: string, token: string, amount: int) returns (r: Outcome<FarmError>)
      modifies this, ledger
      ensures Follows(FarmRuns.Fund(old(Rows()), user, token, amount), old(Rows()), r, Rows())
    {
      if amount <= 0 {
        return Fail(BadAmount);
      }
      var i := FindStream(token);
      if i == |books| {
        return Fail(NoStream);
      }
      var saved := Rows();
      var paid := ledger.DebitWithin(Account(user, farm.chain, token), amount);
      if paid.Fail? {
        RollBack(saved);
        return Fail(Money(paid.error));
      }
      var reward := books[i].stream;
      books := books[i := books[i].(stream := reward.(totalReward := reward.totalReward + amount))];
      r := Pass;
    }

    method Stake(user: string, amount: int, now: int) returns (r: Outcome<FarmError>)
      modifies this, ledger
      ensures Follows(FarmRuns.Stake(old(Rows()), user, amount, now), old(Rows()), r, Rows())
    {
      if amount <= 0 {
        return Fail(BadAmount);
      }
      if farm.status != Active || now < farm.start || farm.end <= now {
        return Fail(NotOpen);
      }
      var saved := Rows();
      var paid := ledger.DebitWithin(Account(user, farm.chain, farm.stakingToken), amount);
      if paid.Fail? {
        RollBack(saved);
        return Fail(Money(paid.error));
      }
      var oldAmount := 0;
      if user in stakes {
        oldAmount := stakes[user];
      }
      var newAmount := oldAmount + amount;
      AccrueStake(user, Share(oldAmount), Share(newAmount), now);
      stakes := stakes[user := newAmount];
      farm := farm.(totalStaked := farm.totalStaked + amount);
      r := Pass;
    }

    method Unstake(user: string, amount: int, now: int) returns (r: Outcome<FarmError>)
      modifies this, ledger
      ensures Follows(FarmRuns.Unstake(old(Rows()), user, amount, now), old(Rows()), r, Rows())
    {
      if amount <= 0 {
        return Fail(BadAmount);
      }
      if user !in stakes {
        return Fail(NoStake);
      }
      var current := stakes[user];
      if current < amount {
        return Fail(Money(InsufficientBalance));
      }
      var saved := Rows();
      AccrueStake(user, Share(current), Share(current - amount), now);
      stakes := stakes[user := current - amount];
      var totalStaked := farm.totalStaked - amount;
      if totalStaked < 0 {
        totalStaked := 0;
      }
      farm := farm.(totalStaked := totalStaked);
      var paid := ledger.CreditWithin(Account(user, farm.chain, farm.stakingToken), amount);
      r := Finish(saved, paid);
    }

    /** Pays one settled stream out. The credit is of a positive amount, so it lands. */
    method PayStream(i: nat, user: string, only: Option<string>)
      requires i < |books|
      modifies this`books, ledger
      ensures books == old(books)[i := PayBook(old(books)[i], user, only)]
      ensures var paid := Payable(old(books)[i], user, only);
              var a := Account(user, farm.chain, old(books)[i].stream.token);
              ledger.available ==
              if paid <= 0 then old(ledger.available) else Credit(old(ledger.available), a, paid).state
    {
      var b := books[i];
      if user !in b.marks || (only.Some? && only.value != b.stream.token) {
        return;
      }
      var m := b.marks[user];
      if m.accrued <= 0 {
        return;
      }
      books := books[i := b.(marks := b.marks[user := m.(accrued := 0, claimed := m.claimed + m.accrued)])];
      var paid := ledger.CreditWithin(Account(user, farm.chain, b.stream.token), m.accrued);
      assert paid == Pass;
    }

    method PayStreams(user: string, only: Option<string>)
      modifies this`books, ledger
      ensures books == PayBooks(old(books), user, only)
      ensures ledger.available ==
              PayOut(old(ledger.available), old(books), |old(books)|, user, farm.chain, only)
    {
      var i := 0;
      while i < |books|
        invariant 0 <= i <= |books| == |old(books)|
        invariant forall j :: 0 <= j < i ==> books[j] == PayBook(old(books)[j], user, only)
        invariant forall j :: i <= j < |books| ==> books[j] == old(books)[j]
        invariant ledger.available == PayOut(old(ledger.available), old(books), i, user, farm.chain, only)
      {
        PayStream(i, user, only);
        i := i + 1;
      }
    }

    method Claim(user: string, only: Option<string>, now: int) returns (r: Outcome<FarmError>)
      modifies this, ledger
      ensures Follows(FarmRuns.Claim(old(Rows()), user, only, now), old(Rows()), r, Rows())
    {
      if user !in stakes {
        return Fail(NoStake);
      }
      var effective := Share(stakes[user]);
      AccrueStake(user, effective, effective, now);
      PayStreams(user, only);
      r := Pass;
    }
  }
}
