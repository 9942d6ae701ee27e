/** What whole marketplace runs keep: the escrow bijection, money conservation, and
    exactly when sales and offers are honoured. */
module NftRuns {
  import opened Outcomes
  import opened Sums
  import opened Ledgers
  import opened NftMarket

  // ---- Invariant ----

  /** A token is with the escrow sentinel exactly while it records a listing, and
      that listing is live and sells this token. */
  ghost predicate TokenEscrowed(k: TokenKey, t: Token, listings: map<string, Listing>)
  {
    && (t.owner == ESCROW <==> t.escrow.Some?)
    && (t.escrow.Some? ==>
          && t.escrow.value in listings
          && listings[t.escrow.value].status == Active
          && listings[t.escrow.value].token == k)
  }

  /** A live listing's token exists and records that listing. */
  ghost predicate ListingHolds(id: string, l: Listing, tokens: map<TokenKey, Token>)
  {
    && l.token in tokens && 0 < l.price && 0 <= l.feeBps <= MAX_FEE_BPS
    && (l.status == Active ==> tokens[l.token].escrow == Some(id))
  }

  ghost predicate EscrowSound(tokens: map<TokenKey, Token>, listings: map<string, Listing>)
  {
    && (forall k :: k in tokens ==> TokenEscrowed(k, tokens[k], listings))
    && (forall id :: id in listings ==> ListingHolds(id, listings[id], tokens))
  }

  ghost predicate OffersSound(offers: map<string, Offer>, tokens: map<TokenKey, Token>)
  {
    forall id :: id in offers ==>
      && offers[id].token in tokens && 0 < offers[id].amount && 0 <= offers[id].feeBps <= MAX_FEE_BPS
  }

  /** Every token's collection row exists, deleted or not, and every id is positive and
      at most its collection's total supply. */
  ghost predicate IdsSound(tokens: map<TokenKey, Token>, collections: map<string, Collection>)
  {
    && (forall c :: c in collections ==> 0 <= collections[c].totalSupply <= MAX_INT64)
    && (forall k :: k in tokens ==>
          k.collection in collections && 0 < k.id <= collections[k.collection].totalSupply)
  }

  ghost predicate Valid(s: State)
  {
    && EscrowSound(s.tokens, s.listings)
    && OffersSound(s.offers, s.tokens)
    && IdsSound(s.tokens, s.collections)
    && 0 <= s.feeBps <= MAX_FEE_BPS
    && NonNegative(s.balances)
  }

  ghost predicate Genesis(s: State)
  {
    && s.collections == map[] && s.tokens == map[] && s.listings == map[] && s.offers == map[]
    && 0 <= s.feeBps <= MAX_FEE_BPS && NonNegative(s.balances)
  }

  // ---- Money ----

  function ChainOf(s: State, k: TokenKey): int
  {
    if k.collection in s.collections then s.collections[k.collection].chain else 0
  }

  /** What an offer holds in escrow of one asset. */
  function EscrowedBy(s: State, o: Offer, chain: int, payment: string): int
  {
    if o.status == Active && ChainOf(s, o.token) == chain && o.payment == payment then o.amount else 0
  }

  ghost function OfferEscrow(s: State, chain: int, payment: string): map<string, int>
  {
    map id | id in s.offers :: EscrowedBy(s, s.offers[id], chain, payment)
  }

  /** Ledger and offer escrow of one asset together. */
  ghost function Supply(s: State, chain: int, payment: string): int
  {
    AssetTotal(s.balances, chain, payment) + Total(OfferEscrow(s, chain, payment))
  }

  /** Paying a sale out creates exactly the price, and cannot fail within the fee
      ceiling. */
  lemma PaySaleMoves(b: Balances, seller: Account, fees: Account, price: int, feeBps: int, chain: int, token: string)
    requires 0 < price && 0 <= feeBps <= MAX_FEE_BPS
    requires seller.chain == fees.chain && seller.token == fees.token
    ensures var r := PaySale(b, seller, fees, NftFee(price, feeBps));
            && r.Commit?
            && (NonNegative(b) ==> NonNegative(r.state))
            && AssetTotal(r.state, chain, token) ==
               AssetTotal(b, chain, token) + if seller.chain == chain && seller.token == token then price else 0
  {
    FeeLeavesProceeds(price, feeBps);
    var split := NftFee(price, feeBps);
    CreditMoves(b, seller, split.proceeds, chain, token);
    if 0 < split.fee {
      CreditMoves(Credit(b, seller, split.proceeds).state, fees, split.fee, chain, token);
    }
  }

  lemma SettleSaleMoves(b: Balances, buyer: Account, seller: Account, fees: Account, price: int, feeBps: int,
                        chain: int, token: string)
    requires 0 < price && 0 <= feeBps <= MAX_FEE_BPS
    requires buyer.chain == seller.chain == fees.chain && buyer.token == seller.token == fees.token
    ensures var r := SettleSale(b, buyer, seller, fees, price, NftFee(price, feeBps));
            && (r.Commit? <==> price <= Available(b, buyer))
            && (r.Commit? ==>
                  && (NonNegative(b) ==> NonNegative(r.state))
                  && AssetTotal(r.state, chain, token) == AssetTotal(b, chain, token))
  {
    DebitMoves(b, buyer, price, chain, token);
    if price <= Available(b, buyer) {
      PaySaleMoves(Debit(b, buyer, price).state, seller, fees, price, feeBps, chain, token);
    }
  }

  /** What one step keeps. */
  ghost predicate Keeps(s: State, t: State, chain: int, payment: string)
  {
    Valid(t) && Supply(t, chain, payment) == Supply(s, chain, payment)
  }

  lemma SameOffers(s: State, t: State, chain: int, payment: string)
    requires t.offers == s.offers
    requires forall id :: id in s.offers ==> ChainOf(t, s.offers[id].token) == ChainOf(s, s.offers[id].token)
    ensures OfferEscrow(t, chain, payment) == OfferEscrow(s, chain, payment)
  {
  }

  lemma OfferWritten(s: State, t: State, id: string, chain: int, payment: string)
    requires t.collections == s.collections && id in t.offers && t.offers == s.offers[id := t.offers[id]]
    ensures Total(OfferEscrow(t, chain, payment)) ==
            Total(OfferEscrow(s, chain, payment)) + EscrowedBy(t, t.offers[id], chain, payment)
            - if id in s.offers then EscrowedBy(s, s.offers[id], chain, payment) else 0
  {
    var v := EscrowedBy(t, t.offers[id], chain, payment);
    assert OfferEscrow(t, chain, payment) == OfferEscrow(s, chain, payment)[id := v];
    TotalUpdate(OfferEscrow(s, chain, payment), id, v);
  }

  lemma CollectionSound(s: State, op: Op)
    requires Valid(s) && (op.CreateOp? || op.StatusOp? || op.DeleteOp?) && Attempted(s, op).Commit?
    ensures Valid(Apply(s, op))
  {
  }

  lemma CollectionKeeps(s: State, op: Op, chain: int, payment: string)
    requires Valid(s) && (op.CreateOp? || op.StatusOp? || op.DeleteOp?) && Attempted(s, op).Commit?
    ensures Keeps(s, Apply(s, op), chain, payment)
  {
    CollectionSound(s, op);
    SameOffers(s, Apply(s, op), chain, payment);
  }

  lemma MintSound(s: State, collection: string, owner: User, explicit: Option<TokenId>)
    requires Valid(s) && Mint(s, collection, owner, explicit, true).Commit?
    ensures Valid(Mint(s, collection, owner, explicit, true).state)
  {
  }

  lemma MintKeeps(s: State, collection: string, owner: User, explicit: Option<TokenId>, chain: int, payment: string)
    requires Valid(s) && Mint(s, collection, owner, explicit, true).Commit?
    ensures Keeps(s, Mint(s, collection, owner, explicit, true).state, chain, payment)
  {
    MintSound(s, collection, owner, explicit);
    SameOffers(s, Mint(s, collection, owner, explicit, true).state, chain, payment);
  }

  lemma ListSound(s: State, op: Op)
    requires Valid(s) && op.ListOp? && Attempted(s, op).Commit?
    ensures EscrowSound(Apply(s, op).tokens, Apply(s, op).listings)
  {
    var t := Apply(s, op);
    forall k | k in t.tokens ensures TokenEscrowed(k, t.tokens[k], t.listings) {
      assert TokenEscrowed(k, s.tokens[k], s.listings);
    }
    forall id | id in t.listings ensures ListingHolds(id, t.listings[id], t.tokens) {
      if id != op.id { assert ListingHolds(id, s.listings[id], s.tokens); }
    }
  }

  lemma ListKeeps(s: State, op: Op, chain: int, payment: string)
    requires Valid(s) && op.ListOp? && Attempted(s, op).Commit?
    ensures Keeps(s, Apply(s, op), chain, payment)
  {
    ListSound(s, op);
    SameOffers(s, Apply(s, op), chain, payment);
  }

  /** Closing a listing and handing its token to an account. */
  lemma DeliverSound(s: State, id: string, owner: User, status: Status)
    requires Valid(s) && id in s.listings && s.listings[id].status == Active && status != Active
    ensures var l := s.listings[id];
            && EscrowSound(Deliver(s.tokens, l.token, owner), s.listings[id := l.(status := status)])
            && OffersSound(s.offers, Deliver(s.tokens, l.token, owner))
            && IdsSound(Deliver(s.tokens, l.token, owner), s.collections)
  {
    var l := s.listings[id];
    var tokens, listings := Deliver(s.tokens, l.token, owner), s.listings[id := l.(status := status)];
    assert ListingHolds(id, l, s.tokens);
    forall k | k in tokens ensures TokenEscrowed(k, tokens[k], listings) {
      assert TokenEscrowed(k, s.tokens[k], s.listings);
    }
    forall i | i in listings ensures ListingHolds(i, listings[i], tokens) {
      assert ListingHolds(i, s.listings[i], s.tokens);
    }
  }

  lemma BuyKeeps(s: State, op: Op, chain: int, payment: string)
    requires Valid(s) && op.BuyOp? && Attempted(s, op).Commit?
    ensures Keeps(s, Apply(s, op), chain, payment)
  {
    var l := s.listings[op.id];
    assert ListingHolds(op.id, l, s.tokens);
    var c := s.collections[l.token.collection].chain;
    DeliverSound(s, op.id, op.user, Sold);
    SettleSaleMoves(s.balances, Account(op.user, c, l.payment), Account(l.seller, c, l.payment),
                    Account(s.feeAccount, c, l.payment), l.price, l.feeBps, chain, payment);
    SameOffers(s, Apply(s, op), chain, payment);
  }

  lemma CancelKeeps(s: State, op: Op, chain: int, payment: string)
    requires Valid(s) && op.CancelOp? && Attempted(s, op).Commit?
    ensures Keeps(s, Apply(s, op), chain, payment)
  {
    DeliverSound(s, op.id, s.listings[op.id].seller, Canceled);
    SameOffers(s, Apply(s, op), chain, payment);
  }

  lemma EditKeeps(s: State, op: Op, chain: int, payment: string)
    requires Valid(s) && op.EditOp? && Attempted(s, op).Commit?
    ensures Keeps(s, Apply(s, op), chain, payment)
  {
    var t := Apply(s, op);
    forall k | k in t.tokens ensures TokenEscrowed(k, t.tokens[k], t.listings) {
      assert TokenEscrowed(k, s.tokens[k], s.listings);
    }
    forall i | i in t.listings ensures ListingHolds(i, t.listings[i], t.tokens) {
      assert ListingHolds(i, s.listings[i], s.tokens);
    }
    SameOffers(s, t, chain, payment);
  }

  lemma OfferKeeps(s: State, op: Op, chain: int, payment: string)
    requires Valid(s) && op.OfferOp? && Attempted(s, op).Commit?
    ensures Keeps(s, Apply(s, op), chain, payment)
  {
    var c := s.collections[op.key.collection].chain;
    DebitMoves(s.balances, Account(op.user, c, op.payment), op.amount, chain, payment);
    OfferWritten(s, Apply(s, op), op.id, chain, payment);
  }

  /** Changing the owner of a free token to an account. */
  lemma RehomeSound(s: State, key: TokenKey, owner: User)
    requires Valid(s) && key in s.tokens && s.tokens[key].escrow == None
    ensures var tokens := s.tokens[key := s.tokens[key].(owner := owner)];
            && EscrowSound(tokens, s.listings) && OffersSound(s.offers, tokens) && IdsSound(tokens, s.collections)
  {
    var tokens := s.tokens[key := s.tokens[key].(owner := owner)];
    forall k | k in tokens ensures TokenEscrowed(k, tokens[k], s.listings) {
      assert TokenEscrowed(k, s.tokens[k], s.listings);
    }
    forall i | i in s.listings ensures ListingHolds(i, s.listings[i], tokens) {
      assert ListingHolds(i, s.listings[i], s.tokens);
    }
  }

  lemma AcceptMoney(s: State, id: string, user: User, key: TokenKey, now: int, chain: int, payment: string)
    requires Valid(s) && AcceptOffer(s, id, user, key, now).Commit?
    ensures var t := AcceptOffer(s, id, user, key, now).state;
            NonNegative(t.balances) && Supply(t, chain, payment) == Supply(s, chain, payment)
  {
    var o := s.offers[id];
    var c := s.collections[key.collection].chain;
    PaySaleMoves(s.balances, Account(user, c, o.payment), Account(s.feeAccount, c, o.payment),
                 o.amount, o.feeBps, chain, payment);
    OfferWritten(s, AcceptOffer(s, id, user, key, now).state, id, chain, payment);
  }

  lemma AcceptKeeps(s: State, id: string, user: User, key: TokenKey, now: int, chain: int, payment: string)
    requires Valid(s) && AcceptOffer(s, id, user, key, now).Commit?
    ensures Keeps(s, AcceptOffer(s, id, user, key, now).state, chain, payment)
  {
    AcceptMoney(s, id, user, key, now, chain, payment);
    RehomeSound(s, key, s.offers[id].buyer);
  }

  lemma WithdrawKeeps(s: State, id: string, user: User, chain: int, payment: string)
    requires Valid(s) && CancelOffer(s, id, user).Commit?
    ensures Keeps(s, CancelOffer(s, id, user).state, chain, payment)
  {
    var o := s.offers[id];
    var c := s.collections[o.token.collection].chain;
    CreditMoves(s.balances, Account(user, c, o.payment), o.amount, chain, payment);
    OfferWritten(s, CancelOffer(s, id, user).state, id, chain, payment);
  }

  lemma ApplyKeeps(s: State, op: Op, chain: int, payment: string)
    requires Valid(s)
    ensures Keeps(s, Apply(s, op), chain, payment)
  {
    if Attempted(s, op).Commit? {
      match op
      case CreateOp(_, _, _) => CollectionKeeps(s, op, chain, payment);
      case StatusOp(_, _) => CollectionKeeps(s, op, chain, payment);
      case DeleteOp(_, _) => CollectionKeeps(s, op, chain, payment);
      case MintOp(c, owner, explicit, _) => MintKeeps(s, c, owner, explicit, chain, payment);
      case ListOp(_, _, _, _, _, _, _, _) => ListKeeps(s, op, chain, payment);
      case BuyOp(_, _, _) => BuyKeeps(s, op, chain, payment);
      case CancelOp(_, _) => CancelKeeps(s, op, chain, payment);
      case EditOp(_, _, _, _, _, _) => EditKeeps(s, op, chain, payment);
      case OfferOp(_, _, _, _, _, _, _, _) => OfferKeeps(s, op, chain, payment);
      case AcceptOp(id, u, k, now) => AcceptKeeps(s, id, u, k, now, chain, payment);
      case WithdrawOp(id, u) => WithdrawKeeps(s, id, u, chain, payment);
      case FeeOp(_) => SameOffers(s, Apply(s, op), chain, payment);
      case FeeAccountOp(_) => SameOffers(s, Apply(s, op), chain, payment);
    }
  }

  /** Over every run, ledger balances plus live offers hold a constant amount of each
      chain and payment token, and nothing goes negative. */
  lemma {:induction false} MoneyConserved(s: State, ops: seq<Op>, chain: int, payment: string)
    requires Genesis(s)
    ensures Valid(Run(s, ops))
    ensures Supply(Run(s, ops), chain, payment) == AssetTotal(s.balances, chain, payment)
    decreases |ops|
  {
    if ops == [] {
      assert OfferEscrow(s, chain, payment) == map[];
    } else {
      var front := ops[..|ops| - 1];
      MoneyConserved(s, front, chain, payment);
      ApplyKeeps(Run(s, front), ops[|ops| - 1], chain, payment);
    }
  }

  // ---- Escrow ----

  ghost predicate LiveListingOf(s: State, k: TokenKey, id: string)
  {
    id in s.listings && s.listings[id].status == Active && s.listings[id].token == k
  }

  /** The escrow bijection in every reachable state: a token is with the sentinel iff
      it records a listing iff it has a live listing, and then it has exactly one,
      the one it records. */
  lemma EscrowBijection(s: State, ops: seq<Op>, k: TokenKey)
    requires Genesis(s) && k in Run(s, ops).tokens
    ensures var t := Run(s, ops);
            && (t.tokens[k].owner == ESCROW <==> t.tokens[k].escrow.Some?)
            && (t.tokens[k].owner == ESCROW <==> exists id :: LiveListingOf(t, k, id))
            && (forall id :: LiveListingOf(t, k, id) <==> t.tokens[k].escrow == Some(id))
  {
    MoneyConserved(s, ops, 0, "");
    var t := Run(s, ops);
    assert TokenEscrowed(k, t.tokens[k], t.listings);
    forall id ensures LiveListingOf(t, k, id) <==> t.tokens[k].escrow == Some(id) {
      if LiveListingOf(t, k, id) { assert ListingHolds(id, t.listings[id], t.tokens); }
    }
    if t.tokens[k].escrow.Some? { assert LiveListingOf(t, k, t.tokens[k].escrow.value); }
  }

  /** No token is stranded: whatever happened before, the seller of the listing that
      holds a token can cancel it and gets the token back. */
  lemma NotStranded(s: State, ops: seq<Op>, k: TokenKey)
    requires Genesis(s) && k in Run(s, ops).tokens && Run(s, ops).tokens[k].owner == ESCROW
    ensures var t := Run(s, ops);
            && t.tokens[k].escrow.Some? && t.tokens[k].escrow.value in t.listings
            && var id := t.tokens[k].escrow.value;
            && CancelListing(t, id, t.listings[id].seller).Commit?
            && CancelListing(t, id, t.listings[id].seller).state.tokens ==
               t.tokens[k := Token(t.listings[id].seller, None)]
  {
    MoneyConserved(s, ops, 0, "");
    assert TokenEscrowed(k, Run(s, ops).tokens[k], Run(s, ops).listings);
  }

  /** What a sale moves on one account, whichever roles it plays. */
  function SaleShare(a: Account, buyer: Account, seller: Account, fees: Account, price: int, split: Split): int
  {
    (if a == seller then split.proceeds else 0) + (if a == fees then split.fee else 0)
    - (if a == buyer then price else 0)
  }

  lemma SaleBalances(b: Balances, buyer: Account, seller: Account, fees: Account, price: int, feeBps: int, a: Account)
    requires 0 < price && 0 <= feeBps <= MAX_FEE_BPS
    requires SettleSale(b, buyer, seller, fees, price, NftFee(price, feeBps)).Commit?
    ensures Available(SettleSale(b, buyer, seller, fees, price, NftFee(price, feeBps)).state, a) ==
            Available(b, a) + SaleShare(a, buyer, seller, fees, price, NftFee(price, feeBps))
  {
    FeeLeavesProceeds(price, feeBps);
  }

  lemma PayoutBalances(b: Balances, seller: Account, fees: Account, price: int, feeBps: int, a: Account)
    requires 0 < price && 0 <= feeBps <= MAX_FEE_BPS
    ensures var split := NftFee(price, feeBps);
            && PaySale(b, seller, fees, split).Commit?
            && Available(PaySale(b, seller, fees, split).state, a) ==
               Available(b, a) + (if a == seller then split.proceeds else 0) + if a == fees then split.fee else 0
  {
    FeeLeavesProceeds(price, feeBps);
  }

  /** A committed sale takes the price from the buyer, gives the seller the price less the
      fee and the fee account the fee, and touches no other balance. */
  lemma SaleMoves(s: State, ops: seq<Op>, id: string, user: User, now: int, a: Account)
    requires Genesis(s) && BuyListing(Run(s, ops), id, user, now).Commit?
    ensures var t := Run(s, ops);
            id in t.listings
            && var l := t.listings[id];
            var chain := ChainOf(t, l.token);
            Available(BuyListing(t, id, user, now).state.balances, a) == Available(t.balances, a)
            + SaleShare(a, Account(user, chain, l.payment), Account(l.seller, chain, l.payment),
                        Account(t.feeAccount, chain, l.payment), l.price, NftFee(l.price, l.feeBps))
  {
    MoneyConserved(s, ops, 0, "");
    var t := Run(s, ops);
    var l := t.listings[id];
    assert ListingHolds(id, l, t.tokens);
    var c := ChainOf(t, l.token);
    SaleBalances(t.balances, Account(user, c, l.payment), Account(l.seller, c, l.payment),
                 Account(t.feeAccount, c, l.payment), l.price, l.feeBps, a);
  }

  /** A committed acceptance gives the seller the escrowed amount less the fee and the fee
      account the fee, touches no other balance, and hands the token to the buyer. */
  lemma AcceptMoves(s: State, ops: seq<Op>, id: string, user: User, key: TokenKey, now: int, a: Account)
    requires Genesis(s) && AcceptOffer(Run(s, ops), id, user, key, now).Commit?
    ensures var t := Run(s, ops);
            id in t.offers
            && var o, u := t.offers[id], AcceptOffer(t, id, user, key, now).state;
            var chain, split := ChainOf(t, o.token), NftFee(o.amount, o.feeBps);
            && Available(u.balances, a) == Available(t.balances, a)
               + (if a == Account(user, chain, o.payment) then split.proceeds else 0)
               + (if a == Account(t.feeAccount, chain, o.payment) then split.fee else 0)
            && u.tokens == t.tokens[o.token := Token(o.buyer, None)]
            && u.offers == t.offers[id := o.(status := Sold)]
  {
    MoneyConserved(s, ops, 0, "");
    var t := Run(s, ops);
    var o := t.offers[id];
    var c := ChainOf(t, o.token);
    PayoutBalances(t.balances, Account(user, c, o.payment), Account(t.feeAccount, c, o.payment),
                   o.amount, o.feeBps, a);
  }

  /** A listing sells exactly when it is active and unexpired, its collection is not
      deleted, and the buyer is not its seller and has the price: no other check or
      ledger guard can stop it. */
  lemma SaleIff(s: State, ops: seq<Op>, id: string, user: User, now: int)
    requires Genesis(s) && id in Run(s, ops).listings
    ensures var t := Run(s, ops);
            var l := t.listings[id];
            && l.token.collection in t.collections
            && (BuyListing(t, id, user, now).Commit? <==>
                  && l.status == Active && now < l.deadline && l.seller != user && Live(t, l.token.collection)
                  && l.price <= Available(t.balances, Account(user, ChainOf(t, l.token), l.payment)))
            && (BuyListing(t, id, user, now).Commit? ==>
                  BuyListing(t, id, user, now).state.tokens == t.tokens[l.token := Token(user, None)])
  {
    MoneyConserved(s, ops, 0, "");
    var t := Run(s, ops);
    var l := t.listings[id];
    assert ListingHolds(id, l, t.tokens);
    var c := ChainOf(t, l.token);
    FeeLeavesProceeds(l.price, l.feeBps);
    SettleSaleMoves(t.balances, Account(user, c, l.payment), Account(l.seller, c, l.payment),
                    Account(t.feeAccount, c, l.payment), l.price, l.feeBps, c, l.payment);
  }

  /** An active offer is accepted exactly by the token's free owner before its deadline
      while the collection is not deleted, and refunded, in full, exactly while the
      collection is not deleted: no ledger guard can stop either. */
  lemma OfferHonoured(s: State, ops: seq<Op>, id: string, user: User, now: int)
    requires Genesis(s) && id in Run(s, ops).offers && Run(s, ops).offers[id].status == Active
    ensures var t := Run(s, ops);
            var o := t.offers[id];
            var refund := CancelOffer(t, id, o.buyer);
            var a := Account(o.buyer, ChainOf(t, o.token), o.payment);
            && o.token in t.tokens && o.token.collection in t.collections
            && (AcceptOffer(t, id, user, o.token, now).Commit? <==>
                  && now < o.deadline && t.tokens[o.token] == Token(user, None)
                  && Live(t, o.token.collection))
            && (refund.Commit? <==> Live(t, o.token.collection))
            && (refund.Commit? ==> Available(refund.state.balances, a) == Available(t.balances, a) + o.amount)
  {
    MoneyConserved(s, ops, 0, "");
    var t := Run(s, ops);
    var o := t.offers[id];
    var c := ChainOf(t, o.token);
    PaySaleMoves(t.balances, Account(user, c, o.payment), Account(t.feeAccount, c, o.payment),
                 o.amount, o.feeBps, c, o.payment);
  }

  // ---- A deleted collection ----

  /** An active offer on a token of a deleted collection. */
  ghost predicate Stuck(s: State, id: string)
  {
    && id in s.offers && s.offers[id].status == Active
    && s.offers[id].token.collection in s.collections
    && s.collections[s.offers[id].token.collection].deleted
  }

  lemma StepStuck(s: State, op: Op, id: string)
    requires Stuck(s, id)
    ensures Stuck(Apply(s, op), id) && Apply(s, op).offers[id] == s.offers[id]
  {
  }

  /** Once a collection is deleted, an offer still active in it holds its money for
      good: after any further steps nobody can accept it or take it back. */
  lemma {:induction false} StuckForever(s: State, ops: seq<Op>, id: string, user: User, key: TokenKey, now: int)
    requires Stuck(s, id)
    ensures var t := Run(s, ops);
            && Stuck(t, id) && t.offers[id] == s.offers[id]
            && CancelOffer(t, id, user).Abort? && AcceptOffer(t, id, user, key, now).Abort?
    decreases |ops|
  {
    if ops != [] {
      StuckForever(s, ops[..|ops| - 1], id, user, key, now);
      StepStuck(Run(s, ops[..|ops| - 1]), ops[|ops| - 1], id);
    }
  }

  // ---- Closed once ----

  predicate Closes(op: Op, id: string)
  {
    (op.BuyOp? || op.CancelOp?) && op.id == id
  }

  lemma StepTerminal(s: State, op: Op, id: string)
    requires id in s.listings
    ensures id in Apply(s, op).listings
    ensures s.listings[id].status != Active ==> Apply(s, op).listings[id].status == s.listings[id].status
  {
  }

  lemma {:induction false} RunTerminal(s: State, ops: seq<Op>, id: string)
    requires id in s.listings && s.listings[id].status != Active
    ensures id in Run(s, ops).listings && Run(s, ops).listings[id].status == s.listings[id].status
    decreases |ops|
  {
    if ops != [] {
      RunTerminal(s, ops[..|ops| - 1], id);
      StepTerminal(Run(s, ops[..|ops| - 1]), ops[|ops| - 1], id);
    }
  }

  /** A listing is sold or cancelled at most once: after either commits, every later
      attempt at either, after any further steps, aborts. */
  lemma ClosedOnce(s: State, op: Op, ops: seq<Op>, again: Op, id: string)
    requires Closes(op, id) && Attempted(s, op).Commit? && Closes(again, id)
    ensures Attempted(Run(Apply(s, op), ops), again) == Abort(NotActive)
  {
    RunTerminal(Apply(s, op), ops, id);
  }
}
