/** The marketplace handlers in place. Statuses and owners are written before any money
    moves; a failed payment puts every row back. */
module NftService {
  import opened Outcomes
  import opened Ledgers
  import opened NftMarket

  class Service {
    const ledger: Ledger
    var collections: map<string, Collection>
    var tokens: map<TokenKey, Token>
    var listings: map<string, Listing>
    var offers: map<string, Offer>
    var feeAccount: User
    var feeBps: int

    constructor (ledger: Ledger, feeAccount: User)
      ensures this.ledger == ledger
      ensures Rows() == State(map[], map[], map[], map[], feeAccount, DEFAULT_FEE_BPS, ledger.available)
    {
      this.ledger := ledger;
      this.collections := map[];
      this.tokens := map[];
      this.listings := map[];
      this.offers := map[];
      this.feeAccount := feeAccount;
      this.feeBps := DEFAULT_FEE_BPS;
    }

    function Rows(): State
      reads this, ledger
    {
      State(collections, tokens, listings, offers, feeAccount, feeBps, ledger.available)
    }

    method RollBack(saved: State)
      modifies this, ledger
      ensures Rows() == saved
    {
      collections, tokens, listings, offers := saved.collections, saved.tokens, saved.listings, saved.offers;
      feeAccount, feeBps := saved.feeAccount, saved.feeBps;
      ledger.available := saved.balances;
    }

    /** The end of a transaction: kept if its last ledger step passed, undone otherwise. */
    method Finish(saved: State, paid: Outcome<LedgerError>) returns (r: Outcome<NftError>)
      modifies this, ledger
      ensures paid.Pass? ==> r == Pass && Rows() == old(Rows())
      ensures paid.Fail? ==> r == Fail(Money(paid.error)) && Rows() == saved
    {
      if paid.Fail? {
        RollBack(saved);
        return Fail(Money(paid.error));
      }
      r := Pass;
    }

    method SetFeeBps(bps: int) returns (r: Outcome<NftError>)
      modifies this`feeBps
      ensures Follows(NftMarket.SetFeeBps(old(Rows()), bps), old(Rows()), r, Rows())
    {
      if bps < 0 || MAX_FEE_BPS < bps {
        return Fail(BadRequest);
      }
      feeBps := bps;
      r := Pass;
    }

    method Mint(collection: string, owner: User, explicit: Option<TokenId>, seenActive: bool)
      returns (r: Outcome<NftError>)
      modifies this`tokens, this`collections
      ensures Follows(NftMarket.Mint(old(Rows()), collection, owner, explicit, seenActive), old(Rows()), r, Rows())
    {
      if !seenActive {
        return Fail(CollectionOff);
      }
      if !Live(Rows(), collection) {
        return Fail(NotFound);
      }
      if owner == "" {
        return Fail(BadRequest);
      }
      var locked := collections[collection];
      if !locked.active {
        return Fail(CollectionOff);
      }
      var id := NextId(locked.totalSupply);
      if explicit.Some? {
        if explicit.value == 0 {
          return Fail(BadRequest);
        }
        id := explicit.value;
      }
      if MAX_INT64 < id {
        return Fail(OutOfRange);
      }
      if TokenKey(collection, id) in tokens {
        return Fail(TokenExists);
      }
      tokens := tokens[TokenKey(collection, id) := Token(owner, None)];
      var next := locked.totalSupply;
      if next < id {
        next := id;
      }
      collections := collections[collection := locked.(totalSupply := next)];
      r := Pass;
    }

    method ListNFT(id: string, user: User, key: TokenKey, payment: string, price: int, deadline: int,
                   seenActive: bool, now: int) returns (r: Outcome<NftError>)
      modifies this`listings, this`tokens
      ensures Follows(List(old(Rows()), id, user, key, payment, price, deadline, seenActive, now),
                      old(Rows()), r, Rows())
    {
      if key.id == 0 || price <= 0 || deadline <= now {
        return Fail(BadRequest);
      }
      if !seenActive {
        return Fail(CollectionOff);
      }
      if key !in tokens {
        return Fail(NotFound);
      }
      var token := tokens[key];
      if token.owner != user {
        return Fail(NotOwner);
      }
      if token.escrow.Some? {
        return Fail(InEscrow);
      }
      if id in listings {
        return Fail(IdTaken);
      }
      listings := listings[id := Listing(key, user, payment, price, feeBps, deadline, Active)];
      tokens := tokens[key := Token(ESCROW, Some(id))];
      r := Pass;
    }

    /** Moves a token out of escrow; an absent row is left absent. */
    method MoveToken(key: TokenKey, owner: User)
      modifies this`tokens
      ensures tokens == Deliver(old(tokens), key, owner)
    {
      if key in tokens {
        tokens := tokens[key := Token(owner, None)];
      }
    }

    method PaySeller(seller: Account, fees: Account, split: Split) returns (r: Outcome<LedgerError>)
      modifies ledger
      ensures match PaySale(old(ledger.available), seller, fees, split)
              case Commit(b) => r == Pass && ledger.available == b
              case Abort(e) => r == Fail(e)
    {
      r := ledger.CreditWithin(seller, split.proceeds);
      if r.Fail? {
        return;
      }
      if 0 < split.fee {
        r := ledger.CreditWithin(fees, split.fee);
      }
    }

    method BuyNFT(id: string, user: User, now: int) returns (r: Outcome<NftError>)
      modifies this, ledger
      ensures Follows(BuyListing(old(Rows()), id, user, now), old(Rows()), r, Rows())
    {
      if id !in listings {
        return Fail(NotFound);
      }
      var listing := listings[id];
      if listing.status != Active {
        return Fail(NotActive);
      }
      if listing.deadline <= now {
        return Fail(HasExpired);
      }
      if listing.seller == user {
        return Fail(SelfTrade);
      }
      if listing.price <= 0 {
        return Fail(BadRequest);
      }
      var split := NftFee(listing.price, listing.feeBps);
      if listing.price < split.fee {
        return Fail(FeeExceedsPrice);
      }
      if !Live(Rows(), listing.token.collection) {
        return Fail(NotFound);
      }
      var chain := collections[listing.token.collection].chain;
      var saved := Rows();
      listings := listings[id := listing.(status := Sold)];
      MoveToken(listing.token, user);
      var paid := ledger.DebitWithin(Account(user, chain, listing.payment), listing.price);
      if paid.Pass? {
        paid := PaySeller(Account(listing.seller, chain, listing.payment),
                          Account(feeAccount, chain, listing.payment), split);
      }
      r := Finish(saved, paid);
    }

    method CancelListing(id: string, user: User) returns (r: Outcome<NftError>)
      modifies this`listings, this`tokens
      ensures Follows(NftMarket.CancelListing(old(Rows()), id, user), old(Rows()), r, Rows())
    {
      if id !in listings {
        return Fail(NotFound);
      }
      var listing := listings[id];
      if listing.status != Active {
        return Fail(NotActive);
      }
      if listing.seller != user {
        return Fail(NotOwner);
      }
      listings := listings[id := listing.(status := Canceled)];
      MoveToken(listing.token, listing.seller);
      r := Pass;
    }

    method MakeOffer(id: string, user: User, key: TokenKey, payment: string, amount: int, deadline: int,
                     seenLive: bool, now: int) returns (r: Outcome<NftError>)
      modifies this, ledger
      ensures Follows(NftMarket.MakeOffer(old(Rows()), id, user, key, payment, amount, deadline, seenLive, now),
                      old(Rows()), r, Rows())
    {
      if key.id == 0 || amount <= 0 || deadline <= now {
        return Fail(BadRequest);
      }
      if !seenLive || key.collection !in collections || key !in tokens {
        return Fail(NotFound);
      }
      if tokens[key].owner == user {
        return Fail(SelfTrade);
      }
      if id in offers {
        return Fail(IdTaken);
      }
      var saved := Rows();
      offers := offers[id := Offer(key, user, payment, amount, feeBps, deadline, Active)];
      var paid := ledger.DebitWithin(Account(user, collections[key.collection].chain, payment), amount);
      r := Finish(saved, paid);
    }

    method AcceptOffer(id: string, user: User, key: TokenKey, now: int) returns (r: Outcome<NftError>)
      modifies this, ledger
      ensures Follows(NftMarket.AcceptOffer(old(Rows()), id, user, key, now), old(Rows()), r, Rows())
    {
      if id !in offers {
        return Fail(NotFound);
      }
      var offer := offers[id];
      if offer.status != Active {
        return Fail(NotActive);
      }
      if offer.token != key {
        return Fail(NotFound);
      }
      if offer.deadline <= now {
        return Fail(HasExpired);
      }
      if key !in tokens {
        return Fail(NotFound);
      }
      if tokens[key].escrow.Some? {
        return Fail(InEscrow);
      }
      if tokens[key].owner != user {
        return Fail(NotOwner);
      }
      if offer.amount <= 0 {
        return Fail(BadRequest);
      }
      if !Live(Rows(), key.collection) {
        return Fail(NotFound);
      }
      var chain := collections[key.collection].chain;
      var saved := Rows();
      offers := offers[id := offer.(status := Sold)];
      tokens := tokens[key := tokens[key].(owner := offer.buyer)];
      var paid := PaySeller(Account(user, chain, offer.payment), Account(feeAccount, chain, offer.payment),
                            NftFee(offer.amount, offer.feeBps));
      r := Finish(saved, paid);
    }

    method CancelOffer(id: string, user: User) returns (r: Outcome<NftError>)
      modifies this, ledger
      ensures Follows(NftMarket.CancelOffer(old(Rows()), id, user), old(Rows()), r, Rows())
    {
      if id !in offers {
        return Fail(NotFound);
      }
      var offer := offers[id];
      if offer.status != Active {
        return Fail(NotActive);
      }
      if offer.buyer != user {
        return Fail(NotOwner);
      }
      if offer.amount <= 0 {
        return Fail(BadRequest);
      }
      if !Live(Rows(), offer.token.collection) {
        return Fail(NotFound);
      }
      var saved := Rows();
      offers := offers[id := offer.(status := Canceled)];
      var chain := collections[offer.token.collection].chain;
      var paid := ledger.CreditWithin(Account(user, chain, offer.payment), offer.amount);
      r := Finish(saved, paid);
    }
  }
}
