/** Token ids over whole runs: they never collide, exactly when they are gapless, and what
    exhausts them. */
module NftIds {
  import opened Outcomes
  import opened NftMarket
  import opened NftRuns

  // ---- Bounds and commits ----

  /** Every minted id is positive and at most its collection's total supply. */
  lemma IdsBounded(s: State, ops: seq<Op>, k: TokenKey)
    requires Genesis(s) && k in Run(s, ops).tokens
    ensures k.collection in Run(s, ops).collections
    ensures 0 < k.id <= Run(s, ops).collections[k.collection].totalSupply
  {
    MoneyConserved(s, ops, 0, "");
  }

  /** Minting in an active collection, in any reachable state: a default mint fails
      exactly when the supply is exhausted, so it never collides; an explicit mint
      fails exactly for a zero, oversized or taken id. */
  lemma MintIff(s: State, ops: seq<Op>, collection: string, owner: User, id: TokenId)
    requires Genesis(s) && owner != ""
    requires Live(Run(s, ops), collection) && Run(s, ops).collections[collection].active
    ensures var t := Run(s, ops);
            var supply := t.collections[collection].totalSupply;
            && 0 <= supply <= MAX_INT64
            && (Mint(t, collection, owner, None, true).Commit? <==> supply < MAX_INT64)
            && Mint(t, collection, owner, None, true) != Abort(TokenExists)
            && (Mint(t, collection, owner, Some(id), true).Commit? <==>
                  0 < id <= MAX_INT64 && TokenKey(collection, id) !in t.tokens)
  {
    MoneyConserved(s, ops, 0, "");
    DefaultMintIff(Run(s, ops), collection, owner);
  }

  lemma DefaultMintIff(t: State, collection: string, owner: User)
    requires Valid(t) && owner != "" && Live(t, collection) && t.collections[collection].active
    ensures var supply := t.collections[collection].totalSupply;
            && (Mint(t, collection, owner, None, true).Commit? <==> supply < MAX_INT64)
            && Mint(t, collection, owner, None, true) != Abort(TokenExists)
  {
    var supply := t.collections[collection].totalSupply;
    assert NextId(supply) == supply + 1;
  }

  // ---- Exhaustion ----

  ghost predicate Exhausted(s: State, collection: string)
  {
    collection in s.collections && s.collections[collection].totalSupply == MAX_INT64
  }

  /** The supply of an exhausted collection never falls. */
  lemma StepExhausted(s: State, op: Op, collection: string)
    requires Exhausted(s, collection)
    ensures Exhausted(Apply(s, op), collection)
  {
  }

  /** Once a collection's supply is the largest id, no default mint in it ever commits
      again, whatever follows. */
  lemma {:induction false} ExhaustedForever(s: State, ops: seq<Op>, collection: string, owner: User, seen: bool)
    requires Exhausted(s, collection)
    ensures Exhausted(Run(s, ops), collection)
    ensures Mint(Run(s, ops), collection, owner, None, seen).Abort?
    decreases |ops|
  {
    assert NextId(MAX_INT64) == MAX_INT64 + 1;
    if ops != [] {
      ExhaustedForever(s, ops[..|ops| - 1], collection, owner, seen);
      StepExhausted(Run(s, ops[..|ops| - 1]), ops[|ops| - 1], collection);
    }
  }

  // ---- Gaps ----

  /** The ids minted in a collection. */
  ghost function IdsOf(s: State, collection: string): set<int>
  {
    set k | k in s.tokens && k.collection == collection :: k.id
  }

  ghost predicate HasId(s: State, collection: string, n: int)
  {
    n in IdsOf(s, collection)
  }

  /** Every id from one to the total supply is minted. */
  ghost predicate Gapless(s: State, collection: string)
    requires collection in s.collections
  {
    forall n :: 1 <= n <= s.collections[collection].totalSupply ==> HasId(s, collection, n)
  }

  /** One to `n`. */
  ghost function Numbers(n: nat): (r: set<int>)
    ensures forall i :: i in r <==> 1 <= i <= n
    ensures |r| == n
  {
    if n == 0 then {} else Numbers(n - 1) + {n as int}
  }

  lemma SubsetCount(a: set<int>, b: set<int>)
    requires a <= b
    ensures |a| <= |b|
    ensures |a| == |b| <==> a == b
  {
    assert b == a + (b - a);
    assert |b| == |a| + |b - a|;
  }

  /** In a valid state the ids are among one to the supply, and gapless exactly when there
      are as many of them. */
  lemma GaplessCount(s: State, collection: string)
    requires Valid(s) && collection in s.collections
    ensures var supply := s.collections[collection].totalSupply;
            && |IdsOf(s, collection)| <= supply
            && (Gapless(s, collection) <==> |IdsOf(s, collection)| == supply)
  {
    var supply := s.collections[collection].totalSupply;
    var ids := IdsOf(s, collection);
    assert ids <= Numbers(supply);
    SubsetCount(ids, Numbers(supply));
    if Gapless(s, collection) {
      forall n | n in Numbers(supply) ensures n in ids {
        assert HasId(s, collection, n);
      }
    }
  }

  /** In every reachable state total_supply is at least the number of tokens, and ids are
      gapless if and only if it is that number. */
  lemma GaplessIff(s: State, ops: seq<Op>, collection: string)
    requires Genesis(s) && collection in Run(s, ops).collections
    ensures var t := Run(s, ops);
            var supply := t.collections[collection].totalSupply;
            && |IdsOf(t, collection)| <= supply
            && (Gapless(t, collection) <==> |IdsOf(t, collection)| == supply)
  {
    MoneyConserved(s, ops, 0, "");
    GaplessCount(Run(s, ops), collection);
  }

  /** How many ids up to the supply are not minted. */
  ghost function Gaps(s: State, collection: string): int
    requires collection in s.collections
  {
    s.collections[collection].totalSupply - |IdsOf(s, collection)|
  }

  /** The id a mint would use. */
  function MintedId(s: State, collection: string, explicit: Option<TokenId>): TokenId
    requires collection in s.collections
  {
    if explicit.Some? then explicit.value else NextId(s.collections[collection].totalSupply)
  }

  lemma MintedIds(s: State, collection: string, owner: User, explicit: Option<TokenId>)
    requires Mint(s, collection, owner, explicit, true).Commit?
    ensures var t := Mint(s, collection, owner, explicit, true).state;
            var id := MintedId(s, collection, explicit);
            id !in IdsOf(s, collection) && IdsOf(t, collection) == IdsOf(s, collection) + {id as int}
  {
    var t := Mint(s, collection, owner, explicit, true).state;
    var id := MintedId(s, collection, explicit);
    forall n | n in IdsOf(s, collection) + {id as int} ensures n in IdsOf(t, collection) {
      if n == id {
        assert TokenKey(collection, id) in t.tokens;
      } else {
        var k :| k in s.tokens && k.collection == collection && k.id == n;
        assert k in t.tokens;
      }
    }
  }

  /** What a committed mint does to the gaps, exactly: an id within the supply fills one,
      an id past it opens one for each id it skips. */
  lemma MintGaps(s: State, collection: string, owner: User, explicit: Option<TokenId>)
    requires Valid(s) && Mint(s, collection, owner, explicit, true).Commit?
    ensures var t := Mint(s, collection, owner, explicit, true).state;
            var supply, id := s.collections[collection].totalSupply, MintedId(s, collection, explicit);
            Gaps(t, collection) == Gaps(s, collection) + if id <= supply then -1 else id - supply - 1
  {
    MintedIds(s, collection, owner, explicit);
  }

  /** A committed mint in a gapless collection keeps it gapless if and only if it is a
      default mint or names the next id. */
  lemma KeepsGaplessIff(s: State, collection: string, owner: User, explicit: Option<TokenId>)
    requires Valid(s) && collection in s.collections && Gapless(s, collection)
    requires Mint(s, collection, owner, explicit, true).Commit?
    ensures var t := Mint(s, collection, owner, explicit, true).state;
            && collection in t.collections
            && (Gapless(t, collection) <==>
                  explicit.None? || explicit.value == s.collections[collection].totalSupply + 1)
  {
    var t := Mint(s, collection, owner, explicit, true).state;
    GaplessCount(s, collection);
    MintGaps(s, collection, owner, explicit);
    MintSound(s, collection, owner, explicit);
    GaplessCount(t, collection);
    var supply := s.collections[collection].totalSupply;
    assert explicit.None? ==> NextId(supply) == supply + 1;
    var id := MintedId(s, collection, explicit);
    MintedIds(s, collection, owner, explicit);
    assert 1 <= id <= supply ==> HasId(s, collection, id);
  }
}
