/** The marketplace of backend/services/nft_service.go: minting, fixed-price listings
    that escrow tokens, and offers that escrow money, each transaction an atomic step. */
module NftMarket {
  import opened Outcomes
  import opened Ledgers
  import opened FixedPoint

  const ESCROW: string := "__nft_escrow__"
  const MAX_FEE_BPS: int := 500
  const DEFAULT_FEE_BPS: int := 250
  const MAX_INT64: int := 0x7FFF_FFFF_FFFF_FFFF
  const TWO_64: int := 0x1_0000_0000_0000_0000

  /** An authenticated account; the escrow sentinel is not one. */
  type User = s: string | s != ESCROW witness ""

  /** A uint64 token id. */
  type TokenId = n: int | 0 <= n < TWO_64

  datatype Status = Active | Sold | Canceled

  /** A collection row. Deletion is soft: the row stays and reads no longer find it. */
  datatype Collection = Collection(chain: int, active: bool, totalSupply: int, deleted: bool)

  datatype TokenKey = TokenKey(collection: string, id: TokenId)

  datatype Token = Token(owner: string, escrow: Option<string>)

  datatype Listing = Listing(token: TokenKey, seller: User, payment: string, price: int, feeBps: int,
                             deadline: int, status: Status)

  datatype Offer = Offer(token: TokenKey, buyer: User, payment: string, amount: int, feeBps: int,
                         deadline: int, status: Status)

  datatype State = State(
    collections: map<string, Collection>,
    tokens: map<TokenKey, Token>,
    listings: map<string, Listing>,
    offers: map<string, Offer>,
    feeAccount: User,
    feeBps: int,
    balances: Balances)

  datatype NftError =
    | BadRequest
    | NotFound
    | CollectionOff
    | TokenExists
    | IdTaken
    | NotOwner
    | InEscrow
    | NotActive
    | HasExpired
    | SelfTrade
    | FeeExceedsPrice
    | HasTokens
    | OutOfRange
    | Money(cause: LedgerError)

  // ---- Fee ----

  datatype Split = Split(fee: int, proceeds: int)

  function NftFee(price: int, feeBps: int): Split
  {
    if feeBps <= 0 then Split(0, price) else
      var raw := (price * feeBps) / 10_000;
      var fee := if price < raw then price else raw;
      Split(fee, price - fee)
  }

  /** Within the fee ceiling every split is complete, the fee is never more than its
      share, and the seller always receives something. */
  lemma FeeLeavesProceeds(price: int, feeBps: int)
    requires 0 < price && 0 <= feeBps <= MAX_FEE_BPS
    ensures var s := NftFee(price, feeBps);
            && s.fee + s.proceeds == price && 0 <= s.fee && 0 < s.proceeds
            && s.fee * 10_000 <= price * feeBps < (s.fee + 1) * 10_000
  {
    MulMono(feeBps, MAX_FEE_BPS, price);
    MulMono(0, feeBps, price);
    FloorSpec(price * feeBps, 10_000, (price * feeBps) / 10_000);
    FloorMono(0, price * feeBps, 10_000);
  }

  // ---- Transactions ----

  /** uint64(total_supply) + 1 */
  function NextId(supply: int): TokenId
  {
    (supply + 1) % TWO_64
  }

  /** Whether a read by id finds the collection. */
  predicate Live(s: State, collection: string)
  {
    collection in s.collections && !s.collections[collection].deleted
  }

  /** The collection's status is checked on an earlier read, `seenActive`, and again
      under lock. The id column is a signed 64-bit integer: the database refuses a
      larger id, whether it is looked up or inserted. */
  function Mint(s: State, collection: string, owner: User, explicit: Option<TokenId>, seenActive: bool)
    : Attempt<State, NftError>
  {
    if !seenActive then Abort(CollectionOff)
    else if !Live(s, collection) then Abort(NotFound)
    else if owner == "" then Abort(BadRequest)
    else
      var c := s.collections[collection];
      if !c.active then Abort(CollectionOff)
      else if explicit == Some(0) then Abort(BadRequest)
      else
        var id := if explicit.Some? then explicit.value else NextId(c.totalSupply);
        var key := TokenKey(collection, id);
        if MAX_INT64 < id then Abort(OutOfRange)
        else if key in s.tokens then Abort(TokenExists)
        else
          var supply := if c.totalSupply < id then id else c.totalSupply;
          Commit(s.(tokens := s.tokens[key := Token(owner, None)],
                    collections := s.collections[collection := c.(totalSupply := supply)]))
  }

  function CreateCollection(s: State, id: string, chain: int, active: bool): Attempt<State, NftError>
  {
    if id in s.collections then Abort(IdTaken)
    else Commit(s.(collections := s.collections[id := Collection(chain, active, 0, false)]))
  }

  function SetCollectionStatus(s: State, id: string, active: bool): Attempt<State, NftError>
  {
    if !Live(s, id) then Abort(NotFound)
    else Commit(s.(collections := s.collections[id := s.collections[id].(active := active)]))
  }

  /** The tokens are counted before the delete, without a lock: `seenEmpty` is what the
      count said, which may be as old as the collection. */
  function DeleteCollection(s: State, id: string, seenEmpty: bool): Attempt<State, NftError>
  {
    if !Live(s, id) then Abort(NotFound)
    else if !seenEmpty then Abort(HasTokens)
    else Commit(s.(collections := s.collections[id := s.collections[id].(deleted := true)]))
  }

  /** The collection is read before the transaction, so `seenActive` is what it was. */
  function List(s: State, id: string, user: User, key: TokenKey, payment: string, price: int, deadline: int,
                seenActive: bool, now: int): Attempt<State, NftError>
  {
    if key.id == 0 || price <= 0 || deadline <= now then Abort(BadRequest)
    else if !seenActive then Abort(CollectionOff)
    else if key !in s.tokens then Abort(NotFound)
    else if s.tokens[key].owner != user then Abort(NotOwner)
    else if s.tokens[key].escrow != None then Abort(InEscrow)
    else if id in s.listings then Abort(IdTaken)
    else
      Commit(s.(listings := s.listings[id := Listing(key, user, payment, price, s.feeBps, deadline, Active)],
                tokens := s.tokens[key := Token(ESCROW, Some(id))]))
  }

  /** Hands a token over, if its row exists. */
  function Deliver(tokens: map<TokenKey, Token>, key: TokenKey, owner: User): map<TokenKey, Token>
  {
    if key in tokens then tokens[key := Token(owner, None)] else tokens
  }

  /** Credits the seller and then the fee account. */
  function PaySale(b: Balances, seller: Account, fees: Account, split: Split): Attempt<Balances, LedgerError>
  {
    var paid :- Credit(b, seller, split.proceeds);
    if 0 < split.fee then Credit(paid, fees, split.fee) else Commit(paid)
  }

  function SettleSale(b: Balances, buyer: Account, seller: Account, fees: Account, price: int, split: Split)
    : Attempt<Balances, LedgerError>
  {
    var debited :- Debit(b, buyer, price);
    PaySale(debited, seller, fees, split)
  }

  function BuyListing(s: State, id: string, user: User, now: int): Attempt<State, NftError>
  {
    if id !in s.listings then Abort(NotFound)
    else
      var l := s.listings[id];
      if l.status != Active then Abort(NotActive)
      else if l.deadline <= now then Abort(HasExpired)
      else if l.seller == user then Abort(SelfTrade)
      else if l.price <= 0 then Abort(BadRequest)
      else
        var split := NftFee(l.price, l.feeBps);
        if l.price < split.fee then Abort(FeeExceedsPrice)
        else if !Live(s, l.token.collection) then Abort(NotFound)
        else
          var chain := s.collections[l.token.collection].chain;
          match SettleSale(s.balances, Account(user, chain, l.payment), Account(l.seller, chain, l.payment),
                           Account(s.feeAccount, chain, l.payment), l.price, split)
          case Abort(e) => Abort(Money(e))
          case Commit(balances) =>
            Commit(s.(listings := s.listings[id := l.(status := Sold)],
                      tokens := Deliver(s.tokens, l.token, user),
                      balances := balances))
  }

  function CancelListing(s: State, id: string, user: User): Attempt<State, NftError>
  {
    if id !in s.listings then Abort(NotFound)
    else
      var l := s.listings[id];
      if l.status != Active then Abort(NotActive)
      else if l.seller != user then Abort(NotOwner)
      else
        Commit(s.(listings := s.listings[id := l.(status := Canceled)],
                  tokens := Deliver(s.tokens, l.token, l.seller)))
  }

  /** The status is checked on an earlier read; the write is unconditional. */
  function UpdateListing(s: State, id: string, user: User, price: Option<int>, deadline: Option<int>,
                         seen: Status, now: int): Attempt<State, NftError>
  {
    if id !in s.listings then Abort(NotFound)
    else if seen != Active then Abort(NotActive)
    else if s.listings[id].seller != user then Abort(NotOwner)
    else if price.Some? && price.value <= 0 then Abort(BadRequest)
    else if deadline.Some? && deadline.value <= now then Abort(BadRequest)
    else if price.None? && deadline.None? then Abort(BadRequest)
    else
      var l := s.listings[id];
      Commit(s.(listings := s.listings[id := l.(
                  price := if price.Some? then price.value else l.price,
                  deadline := if deadline.Some? then deadline.value else l.deadline)]))
  }

  /** The collection is read before the transaction, so `seenLive` is whether it was
      there then; its chain never changes. */
  function MakeOffer(s: State, id: string, user: User, key: TokenKey, payment: string, amount: int,
                     deadline: int, seenLive: bool, now: int): Attempt<State, NftError>
  {
    if key.id == 0 || amount <= 0 || deadline <= now then Abort(BadRequest)
    else if !seenLive || key.collection !in s.collections || key !in s.tokens then Abort(NotFound)
    else if s.tokens[key].owner == user then Abort(SelfTrade)
    else if id in s.offers then Abort(IdTaken)
    else
      var chain := s.collections[key.collection].chain;
      match Debit(s.balances, Account(user, chain, payment), amount)
      case Abort(e) => Abort(Money(e))
      case Commit(balances) =>
        Commit(s.(offers := s.offers[id := Offer(key, user, payment, amount, s.feeBps, deadline, Active)],
                  balances := balances))
  }

  function AcceptOffer(s: State, id: string, user: User, key: TokenKey, now: int): Attempt<State, NftError>
  {
    if id !in s.offers then Abort(NotFound)
    else
      var o := s.offers[id];
      if o.status != Active then Abort(NotActive)
      else if o.token != key then Abort(NotFound)
      else if o.deadline <= now then Abort(HasExpired)
      else if key !in s.tokens then Abort(NotFound)
      else if s.tokens[key].escrow != None then Abort(InEscrow)
      else if s.tokens[key].owner != user then Abort(NotOwner)
      else if o.amount <= 0 then Abort(BadRequest)
      else if !Live(s, key.collection) then Abort(NotFound)
      else
        var chain := s.collections[key.collection].chain;
        match PaySale(s.balances, Account(user, chain, o.payment), Account(s.feeAccount, chain, o.payment),
                      NftFee(o.amount, o.feeBps))
        case Abort(e) => Abort(Money(e))
        case Commit(balances) =>
          Commit(s.(offers := s.offers[id := o.(status := Sold)],
                    tokens := s.tokens[key := s.tokens[key].(owner := o.buyer)],
                    balances := balances))
  }

  function CancelOffer(s: State, id: string, user: User): Attempt<State, NftError>
  {
    if id !in s.offers then Abort(NotFound)
    else
      var o := s.offers[id];
      if o.status != Active then Abort(NotActive)
      else if o.buyer != user then Abort(NotOwner)
      else if o.amount <= 0 then Abort(BadRequest)
      else if !Live(s, o.token.collection) then Abort(NotFound)
      else
        var chain := s.collections[o.token.collection].chain;
        match Credit(s.balances, Account(user, chain, o.payment), o.amount)
        case Abort(e) => Abort(Money(e))
        case Commit(balances) =>
          Commit(s.(offers := s.offers[id := o.(status := Canceled)], balances := balances))
  }

  function SetFeeBps(s: State, bps: int): Attempt<State, NftError>
  {
    if bps < 0 || MAX_FEE_BPS < bps then Abort(BadRequest) else Commit(s.(feeBps := bps))
  }

  function SetFeeAccount(s: State, account: User): State
  {
    s.(feeAccount := account)
  }

  // ---- Runs ----

  datatype Op =
    | CreateOp(id: string, chain: int, active: bool)
    | StatusOp(id: string, active: bool)
    | DeleteOp(id: string, seenEmpty: bool)
    | MintOp(collection: string, owner: User, explicit: Option<TokenId>, seenActive: bool)
    | ListOp(id: string, user: User, key: TokenKey, payment: string, price: int, deadline: int, seenActive: bool,
             now: int)
    | BuyOp(id: string, user: User, now: int)
    | CancelOp(id: string, user: User)
    | EditOp(id: string, user: User, newPrice: Option<int>, newDeadline: Option<int>, seen: Status, now: int)
    | OfferOp(id: string, user: User, key: TokenKey, payment: string, amount: int, deadline: int, seenLive: bool,
              now: int)
    | AcceptOp(id: string, user: User, key: TokenKey, now: int)
    | WithdrawOp(id: string, user: User)
    | FeeOp(bps: int)
    | FeeAccountOp(account: User)

  function Attempted(s: State, op: Op): Attempt<State, NftError>
  {
    match op
    case CreateOp(id, chain, active) => CreateCollection(s, id, chain, active)
    case StatusOp(id, active) => SetCollectionStatus(s, id, active)
    case DeleteOp(id, seenEmpty) => DeleteCollection(s, id, seenEmpty)
    case MintOp(c, owner, explicit, seen) => Mint(s, c, owner, explicit, seen)
    case ListOp(id, u, k, pay, price, d, seen, now) => List(s, id, u, k, pay, price, d, seen, now)
    case BuyOp(id, u, now) => BuyListing(s, id, u, now)
    case CancelOp(id, u) => CancelListing(s, id, u)
    case EditOp(id, u, price, d, seen, now) => UpdateListing(s, id, u, price, d, seen, now)
    case OfferOp(id, u, k, pay, amount, d, seen, now) => MakeOffer(s, id, u, k, pay, amount, d, seen, now)
    case AcceptOp(id, u, k, now) => AcceptOffer(s, id, u, k, now)
    case WithdrawOp(id, u) => CancelOffer(s, id, u)
    case FeeOp(bps) => SetFeeBps(s, bps)
    case FeeAccountOp(a) => Commit(SetFeeAccount(s, a))
  }

  function Apply(s: State, op: Op): State
  {
    var r := Attempted(s, op);
    if r.Commit? then r.state else s
  }

  function Run(s: State, ops: seq<Op>): State
  {
    if ops == [] then s else Apply(Run(s, ops[..|ops| - 1]), ops[|ops| - 1])
  }
}
