/** Marketplace runs that end where its comments say it cannot: a gap in the ids, an
    exhausted collection, and an offer whose money is stuck. */
module NftWitnesses {
  import opened Outcomes
  import opened Ledgers
  import opened NftMarket
  import opened NftRuns
  import opened NftIds

  lemma Snoc(s: State, ops: seq<Op>, op: Op, next: State)
    requires Apply(Run(s, ops), op) == next
    ensures Run(s, ops + [op]) == next
  {
    assert (ops + [op])[..|ops|] == ops;
  }

  function Opened(admin: User, balances: Balances): State
  {
    State(map[], map[], map[], map[], admin, DEFAULT_FEE_BPS, balances)
  }

  function Created(c: string, admin: User, balances: Balances): State
  {
    Opened(admin, balances).(collections := map[c := Collection(1, true, 0, false)])
  }

  /** One token minted, at the given id. */
  function Minted(c: string, admin: User, id: TokenId, balances: Balances): State
  {
    Opened(admin, balances).(collections := map[c := Collection(1, true, id, false)],
                             tokens := map[TokenKey(c, id) := Token(admin, None)])
  }

  lemma Creating(c: string, admin: User, balances: Balances)
    ensures Apply(Opened(admin, balances), CreateOp(c, 1, true)) == Created(c, admin, balances)
  {
  }

  lemma Minting(c: string, admin: User, explicit: Option<TokenId>, balances: Balances)
    requires admin != "" && (explicit.None? || 0 < explicit.value <= MAX_INT64)
    ensures var id := if explicit.Some? then explicit.value else 1;
            Apply(Created(c, admin, balances), MintOp(c, admin, explicit, true)) == Minted(c, admin, id, balances)
  {
    assert NextId(0) == 1;
  }

  /** A collection with one mint. */
  lemma OneMint(c: string, admin: User, explicit: Option<TokenId>, balances: Balances) returns (ops: seq<Op>)
    requires admin != "" && (explicit.None? || 0 < explicit.value <= MAX_INT64)
    ensures var id := if explicit.Some? then explicit.value else 1;
            Run(Opened(admin, balances), ops) == Minted(c, admin, id, balances)
  {
    var s := Opened(admin, balances);
    ops := [];
    Creating(c, admin, balances);
    Snoc(s, ops, CreateOp(c, 1, true), Created(c, admin, balances));
    ops := ops + [CreateOp(c, 1, true)];
    Minting(c, admin, explicit, balances);
    Snoc(s, ops, MintOp(c, admin, explicit, true),
         Minted(c, admin, if explicit.Some? then explicit.value else 1, balances));
    ops := ops + [MintOp(c, admin, explicit, true)];
  }

  /** Ids need not be gapless: one explicit mint of id two leaves id one unminted, with a
      total supply of two and a single token. */
  lemma GapLeft(c: string, admin: User) returns (s: State, ops: seq<Op>)
    requires admin != ""
    ensures Genesis(s) && c in Run(s, ops).collections && !Gapless(Run(s, ops), c)
    ensures Run(s, ops).collections[c].totalSupply == 2 && TokenKey(c, 1) !in Run(s, ops).tokens
    ensures |IdsOf(Run(s, ops), c)| == 1
  {
    s := Opened(admin, map[]);
    ops := OneMint(c, admin, Some(2), map[]);
    var t := Minted(c, admin, 2, map[]);
    assert TokenKey(c, 2) in t.tokens;
    assert IdsOf(t, c) == {2};
    assert !HasId(t, c, 1);
  }

  /** One explicit mint of the largest id exhausts a collection that stays active: from
      then on every default mint in it fails. */
  lemma DefaultMintBlocked(c: string, admin: User) returns (s: State, ops: seq<Op>)
    requires admin != ""
    ensures Genesis(s) && Live(Run(s, ops), c) && Run(s, ops).collections[c].active
    ensures Exhausted(Run(s, ops), c)
    ensures forall more, owner, seen :: Mint(Run(Run(s, ops), more), c, owner, None, seen).Abort?
  {
    s := Opened(admin, map[]);
    ops := OneMint(c, admin, Some(MAX_INT64), map[]);
    var t := Run(s, ops);
    forall more, owner, seen ensures Mint(Run(t, more), c, owner, None, seen).Abort? {
      ExhaustedForever(t, more, c, owner, seen);
    }
  }

  // ---- A stuck offer ----

  function Wallet(buyer: User, amount: int): Balances
  {
    map[Account(buyer, 1, "usdc") := amount]
  }

  function Offered(c: string, admin: User, buyer: User, amount: int): State
  {
    Minted(c, admin, 1, Wallet(buyer, 0)).(
      offers := map["offer" := Offer(TokenKey(c, 1), buyer, "usdc", amount, DEFAULT_FEE_BPS, 1, Active)])
  }

  function Gone(c: string, admin: User, buyer: User, amount: int): State
  {
    Offered(c, admin, buyer, amount).(collections := map[c := Collection(1, true, 1, true)])
  }

  function Bid(c: string, buyer: User, amount: int): Op
  {
    OfferOp("offer", buyer, TokenKey(c, 1), "usdc", amount, 1, true, 0)
  }

  lemma Offering(c: string, admin: User, buyer: User, amount: int)
    requires buyer != admin && 0 < amount
    ensures Apply(Minted(c, admin, 1, Wallet(buyer, amount)), Bid(c, buyer, amount)) == Offered(c, admin, buyer, amount)
  {
    var s := Minted(c, admin, 1, Wallet(buyer, amount));
    assert s.balances[Account(buyer, 1, "usdc") := 0] == Wallet(buyer, 0);
  }

  lemma Deleting(c: string, admin: User, buyer: User, amount: int)
    ensures Apply(Offered(c, admin, buyer, amount), DeleteOp(c, true)) == Gone(c, admin, buyer, amount)
  {
  }

  /** A delete that counted before the first mint: the mint and an offer land in
      between, and the buyer's escrowed money can never be refunded. */
  lemma RefundLost(c: string, admin: User, buyer: User, amount: int) returns (s: State, ops: seq<Op>)
    requires admin != "" && buyer != admin && 0 < amount
    ensures Genesis(s) && Available(s.balances, Account(buyer, 1, "usdc")) == amount
    ensures Stuck(Run(s, ops), "offer")
    ensures Run(s, ops).offers["offer"].buyer == buyer && Run(s, ops).offers["offer"].amount == amount
    ensures CancelOffer(Run(s, ops), "offer", buyer) == Abort(NotFound)
  {
    s := Opened(admin, Wallet(buyer, amount));
    ops := OneMint(c, admin, None, Wallet(buyer, amount));
    Offering(c, admin, buyer, amount);
    Snoc(s, ops, Bid(c, buyer, amount), Offered(c, admin, buyer, amount));
    ops := ops + [Bid(c, buyer, amount)];
    Deleting(c, admin, buyer, amount);
    Snoc(s, ops, DeleteOp(c, true), Gone(c, admin, buyer, amount));
    ops := ops + [DeleteOp(c, true)];
  }
}
