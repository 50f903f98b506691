/**
  What settlement does to every balance and to every total: it follows the amounts named by
  the messages, and rounding only ever takes less than one unit of the ninth decimal each time.
 */
module Accounting {
  import opened Settlement

  /** An amount posted to an account, negative for a debit. */
  datatype Post = Post(account: Account, asset: Asset, amount: int)

  /** What the posts add up to for one account and asset, and how many there are. */
  function Flow(posts: seq<Post>, x: Account, a: Asset): int {
    if posts == [] then 0
    else (if posts[0].account == x && posts[0].asset == a then posts[0].amount else 0) + Flow(posts[1..], x, a)
  }

  function Hits(posts: seq<Post>, x: Account, a: Asset): nat {
    if posts == [] then 0
    else (if posts[0].account == x && posts[0].asset == a then 1 else 0) + Hits(posts[1..], x, a)
  }

  /** The same over all accounts. */
  function AssetFlow(posts: seq<Post>, a: Asset): int {
    if posts == [] then 0
    else (if posts[0].asset == a then posts[0].amount else 0) + AssetFlow(posts[1..], a)
  }

  function AssetHits(posts: seq<Post>, a: Asset): nat {
    if posts == [] then 0
    else (if posts[0].asset == a then 1 else 0) + AssetHits(posts[1..], a)
  }

  lemma {:induction false} FlowConcat(p: seq<Post>, q: seq<Post>, x: Account, a: Asset)
    ensures Flow(p + q, x, a) == Flow(p, x, a) + Flow(q, x, a)
    ensures Hits(p + q, x, a) == Hits(p, x, a) + Hits(q, x, a)
    ensures AssetFlow(p + q, a) == AssetFlow(p, a) + AssetFlow(q, a)
    ensures AssetHits(p + q, a) == AssetHits(p, a) + AssetHits(q, a)
  {
    if p == [] {
      assert p + q == q;
    } else {
      FlowConcat(p[1..], q, x, a);
      assert (p + q)[1..] == p[1..] + q;
    }
  }

  /** Within n roundings of what was posted, and never above it. */
  ghost predicate Near(before: int, flow: int, after: int, n: nat) {
    after <= before + flow <= after + n * (ULP - 1)
  }

  /** For one account and asset, and for the asset's total, the new ledger follows the posts. */
  ghost predicate Follows(ledger: Ledger, posts: seq<Post>, after: Ledger, x: Account, a: Asset) {
    && Near(Balance(ledger, x, a), Flow(posts, x, a), Balance(after, x, a), Hits(posts, x, a))
    && Near(Total(ledger, a), AssetFlow(posts, a), Total(after, a), AssetHits(posts, a))
  }

  ghost predicate NonNegative(ledger: Ledger) {
    forall x, a | x in ledger && a in ledger[x] :: ledger[x][a] >= 0
  }

  /** No account is stored without a balance. */
  ghost predicate Occupied(ledger: Ledger) {
    forall x | x in ledger :: ledger[x] != map[]
  }

  lemma RoundOffBounds(x: int)
    ensures x >= 0 ==> 0 <= RoundOff(x) <= x && x - RoundOff(x) <= ULP - 1
  {
  }

  lemma OnePost(p: Post, x: Account, a: Asset)
    ensures Flow([p], x, a) == (if p.account == x && p.asset == a then p.amount else 0)
    ensures Hits([p], x, a) == (if p.account == x && p.asset == a then 1 else 0)
    ensures AssetFlow([p], a) == (if p.asset == a then p.amount else 0)
    ensures AssetHits([p], a) == (if p.asset == a then 1 else 0)
  {
  }

  /** Storing one balance within a rounding of the posted amount. */
  lemma StoreFollows(ledger: Ledger, p: Post, balance: int, x: Account, a: Asset)
    requires Near(Balance(ledger, p.account, p.asset), p.amount, balance, 1)
    ensures var entries := if p.account in ledger then ledger[p.account] else map[];
            Follows(ledger, [p], ledger[p.account := entries[p.asset := balance]], x, a)
  {
    var entries := if p.account in ledger then ledger[p.account] else map[];
    OnePost(p, x, a);
    TotalUpdate(ledger, a, p.account, entries[p.asset := balance]);
    hide Total, Flow, Hits, AssetFlow, AssetHits;
  }

  lemma CreditFollows(ledger: Ledger, p: Post, x: Account, a: Asset)
    requires NonNegative(ledger) && p.amount >= 0
    ensures var after := Credited(ledger, p.account, p.asset, p.amount);
            NonNegative(after) && Follows(ledger, [p], after, x, a)
  {
    var held := Balance(ledger, p.account, p.asset);
    RoundOffBounds(held + p.amount);
    hide RoundOff, Follows;
    var there := p.account in ledger && p.asset in ledger[p.account];
    StoreFollows(ledger, p, if there then RoundOff(held + p.amount) else p.amount, x, a);
  }

  lemma FollowsBoth(l0: Ledger, p: seq<Post>, l1: Ledger, q: seq<Post>, l2: Ledger, x: Account, a: Asset)
    requires Follows(l0, p, l1, x, a) && Follows(l1, q, l2, x, a)
    ensures Follows(l0, p + q, l2, x, a)
  {
    hide Total, Flow, Hits, AssetFlow, AssetHits, Balance;
    FlowConcat(p, q, x, a);
  }

  lemma FollowsNothing(ledger: Ledger, x: Account, a: Asset)
    ensures Follows(ledger, [], ledger, x, a)
  {
  }

  lemma DebitFollows(ledger: Ledger, account: Account, asset: Asset, amount: int, withdrawal: bool, x: Account,
                     a: Asset)
    requires NonNegative(ledger) && Debited(ledger, account, asset, amount, withdrawal).Done?
    ensures var debit := Debited(ledger, account, asset, amount, withdrawal).value;
            && NonNegative(debit.ledger) && Follows(ledger, [Post(account, asset, -debit.amount)], debit.ledger, x, a)
            && debit.amount <= amount && (debit.amount == amount || withdrawal)
  {
    var held := Balance(ledger, account, asset);
    var debit := Debited(ledger, account, asset, amount, withdrawal).value;
    RoundOffBounds(held - debit.amount);
    hide RoundOff, Follows;
    StoreFollows(ledger, Post(account, asset, -debit.amount), RoundOff(held - debit.amount), x, a);
  }

  // ------------------------------------------------------------------ trades

  /** Multiplying amounts gives an amount, and multiplying by a fraction of one does not increase it. */
  ghost predicate FairMul(mul: (int, int) -> int) {
    && (forall x, y | x >= 0 && y >= 0 :: mul(x, y) >= 0)
    && (forall x, f | x >= 0 && 0 <= f <= ONE :: mul(x, f) <= x)
  }

  ghost predicate FairTerms(terms: Terms) {
    FairMul(terms.mul) && 0 <= terms.makerFraction <= ONE && 0 <= terms.takerFraction <= ONE
  }

  function SidePosts(terms: Terms, trade: Trade, maker: bool): seq<Post> {
    var credit, debit := Credit(terms, trade, maker), DebitLeg(terms, trade, maker);
    var fee := terms.mul(credit.amount, if maker then terms.makerFraction else terms.takerFraction);
    [Post(credit.account, credit.asset, credit.amount - fee)] + [Post(terms.pot, credit.asset, fee)]
      + [Post(debit.account, debit.asset, -debit.amount)]
  }

  function TradePosts(terms: Terms, trade: Trade): seq<Post> {
    SidePosts(terms, trade, true) + SidePosts(terms, trade, false)
  }

  lemma FeeBounds(terms: Terms, trade: Trade, maker: bool)
    requires FairTerms(terms) && trade.price >= 0 && trade.amount >= 0
    ensures var credit := Credit(terms, trade, maker).amount;
            0 <= terms.mul(credit, if maker then terms.makerFraction else terms.takerFraction) <= credit
  {
  }

  lemma SideFollows(ledger: Ledger, terms: Terms, trade: Trade, maker: bool, x: Account, a: Asset)
    requires NonNegative(ledger) && FairTerms(terms) && trade.price >= 0 && trade.amount >= 0
    requires SideSettled(ledger, terms, trade, maker).Done?
    ensures var after := SideSettled(ledger, terms, trade, maker).value;
            NonNegative(after) && Follows(ledger, SidePosts(terms, trade, maker), after, x, a)
  {
    var credit, debit := Credit(terms, trade, maker), DebitLeg(terms, trade, maker);
    var fraction := if maker then terms.makerFraction else terms.takerFraction;
    var fee := terms.mul(credit.amount, fraction);
    hide Credited, Debited, Follows, NonNegative, FairTerms, Credit, DebitLeg;
    FeeBounds(terms, trade, maker);
    var p, q, r := Post(credit.account, credit.asset, credit.amount - fee), Post(terms.pot, credit.asset, fee),
                   Post(debit.account, debit.asset, -debit.amount);
    var paid := Credited(ledger, p.account, p.asset, p.amount);
    var potted := Credited(paid, q.account, q.asset, q.amount);
    var after := SideSettled(ledger, terms, trade, maker).value;
    CreditFollows(ledger, p, x, a);
    CreditFollows(paid, q, x, a);
    DebitFollows(potted, debit.account, debit.asset, debit.amount, false, x, a);
    FollowsBoth(ledger, [p], paid, [q], potted, x, a);
    FollowsBoth(ledger, [p] + [q], potted, [r], after, x, a);
  }

  lemma TradeFollows(ledger: Ledger, terms: Terms, trade: Trade, x: Account, a: Asset)
    requires NonNegative(ledger) && FairTerms(terms) && trade.price >= 0 && trade.amount >= 0
    requires Settled(ledger, terms, trade).Done?
    ensures var after := Settled(ledger, terms, trade).value;
            NonNegative(after) && Follows(ledger, TradePosts(terms, trade), after, x, a)
  {
    hide SideSettled, Follows, NonNegative, SidePosts, FairTerms;
    var half := SideSettled(ledger, terms, trade, true).value;
    SideFollows(ledger, terms, trade, true, x, a);
    SideFollows(half, terms, trade, false, x, a);
    FollowsBoth(ledger, SidePosts(terms, trade, true), half, SidePosts(terms, trade, false),
                Settled(ledger, terms, trade).value, x, a);
  }

  function If(c: bool, amount: int): int {
    if c then amount else 0
  }

  lemma SideFlow(terms: Terms, trade: Trade, maker: bool, x: Account, a: Asset)
    ensures var credit, debit := Credit(terms, trade, maker), DebitLeg(terms, trade, maker);
            var posts := SidePosts(terms, trade, maker);
            && AssetFlow(posts, a) == If(credit.asset == a, credit.amount) - If(debit.asset == a, debit.amount)
            && AssetHits(posts, a) == If(credit.asset == a, 2) + If(debit.asset == a, 1)
            && ((x != credit.account && x != terms.pot) || a !in {credit.asset, debit.asset} ==>
                  Flow(posts, x, a) == 0 && Hits(posts, x, a) == 0)
  {
    hide Flow, Hits, AssetFlow, AssetHits;
    var credit, debit := Credit(terms, trade, maker), DebitLeg(terms, trade, maker);
    var fee := terms.mul(credit.amount, if maker then terms.makerFraction else terms.takerFraction);
    var p, q, r := Post(credit.account, credit.asset, credit.amount - fee), Post(terms.pot, credit.asset, fee),
                   Post(debit.account, debit.asset, -debit.amount);
    OnePost(p, x, a);
    OnePost(q, x, a);
    OnePost(r, x, a);
    FlowConcat([p], [q], x, a);
    FlowConcat([p] + [q], [r], x, a);
  }

  /** A trade between a bid and an ask never increases the total of an asset and loses less than three units
      of the ninth decimal of each traded asset, or six if there is only one, also when maker, taker and fee pot
      coincide. */
  lemma TradeConserves(ledger: Ledger, terms: Terms, trade: Trade, a: Asset)
    requires NonNegative(ledger) && FairTerms(terms) && trade.price >= 0 && trade.amount >= 0
    requires Settled(ledger, terms, trade).Done?
    requires trade.maker.side != trade.taker.side
    ensures var after := Settled(ledger, terms, trade).value;
            && Total(after, a) <= Total(ledger, a)
            && Total(ledger, a) - 6 * ULP < Total(after, a)
            && (trade.maker.base != trade.maker.quote ==> Total(ledger, a) - 3 * ULP < Total(after, a))
            && (a != trade.maker.base && a != trade.maker.quote ==> Total(after, a) == Total(ledger, a))
  {
    hide Total, SideSettled, SidePosts, Flow, Hits, AssetFlow, AssetHits;
    TradeFollows(ledger, terms, trade, 0, a);
    SideFlow(terms, trade, true, 0, a);
    SideFlow(terms, trade, false, 0, a);
    FlowConcat(SidePosts(terms, trade, true), SidePosts(terms, trade, false), 0, a);
  }

  /** Accounts that are not the maker, the taker or the pot keep their balances, and so does everyone in
      every other asset. */
  lemma TradeLocal(ledger: Ledger, terms: Terms, trade: Trade, x: Account, a: Asset)
    requires NonNegative(ledger) && FairTerms(terms) && trade.price >= 0 && trade.amount >= 0
    requires Settled(ledger, terms, trade).Done?
    requires x !in {trade.maker.main, trade.taker.main, terms.pot} || a !in {trade.maker.base, trade.maker.quote}
    ensures Balance(Settled(ledger, terms, trade).value, x, a) == Balance(ledger, x, a)
  {
    hide Total, SideSettled, SidePosts, Flow, Hits, AssetFlow, AssetHits;
    TradeFollows(ledger, terms, trade, x, a);
    SideFlow(terms, trade, true, x, a);
    SideFlow(terms, trade, false, x, a);
    FlowConcat(SidePosts(terms, trade, true), SidePosts(terms, trade, false), x, a);
  }

  /** Nothing checks that one order is a bid and the other an ask. For a trade above rounding size,
      no total grows exactly when they are. */
  lemma ConservesIffOpposite(ledger: Ledger, terms: Terms, trade: Trade)
    requires NonNegative(ledger) && FairTerms(terms) && trade.price >= 0 && Settled(ledger, terms, trade).Done?
    requires trade.maker.base != trade.maker.quote
    requires trade.amount >= 2 * ULP && terms.mul(trade.price, trade.amount) >= 2 * ULP
    ensures (forall a :: Total(Settled(ledger, terms, trade).value, a) <= Total(ledger, a))
            <==> trade.maker.side != trade.taker.side
  {
    var after := Settled(ledger, terms, trade).value;
    if trade.maker.side != trade.taker.side {
      forall a
        ensures Total(after, a) <= Total(ledger, a)
      {
        TradeConserves(ledger, terms, trade, a);
      }
    } else {
      SameSideGrows(ledger, terms, trade);
    }
  }

  lemma SameSideGrows(ledger: Ledger, terms: Terms, trade: Trade)
    requires NonNegative(ledger) && FairTerms(terms) && trade.price >= 0 && Settled(ledger, terms, trade).Done?
    requires trade.maker.base != trade.maker.quote && trade.maker.side == trade.taker.side
    requires trade.amount >= 2 * ULP && terms.mul(trade.price, trade.amount) >= 2 * ULP
    ensures var a := Credit(terms, trade, true).asset;
            Total(Settled(ledger, terms, trade).value, a) > Total(ledger, a)
  {
    hide Total, SideSettled, SidePosts, Flow, Hits, AssetFlow, AssetHits;
    var a := Credit(terms, trade, true).asset;
    TradeFollows(ledger, terms, trade, 0, a);
    SideFlow(terms, trade, true, 0, a);
    SideFlow(terms, trade, false, 0, a);
    FlowConcat(SidePosts(terms, trade, true), SidePosts(terms, trade, false), 0, a);
  }

  /** Decimal multiplication cut off at the finest step. */
  function CutMul(x: int, y: int): int {
    x * y / ONE
  }

  lemma CutMulFair()
    ensures FairMul(CutMul)
  {
    forall x, y | x >= 0 && y >= 0
      ensures CutMul(x, y) >= 0
    {
      assert x * y >= 0;
    }
    forall x, f | x >= 0 && 0 <= f <= ONE
      ensures CutMul(x, f) <= x
    {
      assert x * f <= x * ONE;
    }
  }

  /** The account has the asset, and at least this much of it. */
  predicate Has(ledger: Ledger, account: Account, asset: Asset, amount: int) {
    account in ledger && asset in ledger[account] && amount <= ledger[account][asset]
  }

  lemma SideSucceeds(ledger: Ledger, terms: Terms, trade: Trade, maker: bool, x: Account)
    requires var debit := DebitLeg(terms, trade, maker);
             debit.asset != Credit(terms, trade, maker).asset && Has(ledger, debit.account, debit.asset, debit.amount)
    ensures SideSettled(ledger, terms, trade, maker).Done?
    ensures var debit := DebitLeg(terms, trade, maker);
            x != debit.account && Has(ledger, x, debit.asset, debit.amount) ==>
              Has(SideSettled(ledger, terms, trade, maker).value, x, debit.asset, debit.amount)
  {
    hide RoundOff;
  }

  const EXAMPLE_TERMS: Terms := Terms(CutMul, ONE / 1000, ONE / 1000, 3)
  const EXAMPLE_LEDGER: Ledger := map[1 := map[Token(1) := ONE], 2 := map[Token(1) := ONE]]

  /** Two orders on the same side. */
  const EXAMPLE_TRADE: Trade :=
    Trade(Order(1, Token(1), Polkadex, Ask, true), Order(2, Token(1), Polkadex, Ask, true), ONE, ONE)

  /** Two asks, each backed by one unit of the base asset, settle and leave some of the quote asset
      where there was none. */
  lemma TwoAsksSettle()
    ensures Settled(EXAMPLE_LEDGER, EXAMPLE_TERMS, EXAMPLE_TRADE).Done?
    ensures Total(EXAMPLE_LEDGER, Polkadex) == 0
         && Total(Settled(EXAMPLE_LEDGER, EXAMPLE_TERMS, EXAMPLE_TRADE).value, Polkadex) > 0
  {
    var ledger, terms, trade := EXAMPLE_LEDGER, EXAMPLE_TERMS, EXAMPLE_TRADE;
    assert terms.mul(ONE, ONE) == ONE && terms.mul(ONE, ONE / 1000) == ONE / 1000;
    hide SideSettled;
    SideSucceeds(ledger, terms, trade, true, 2);
    SideSucceeds(SideSettled(ledger, terms, trade, true).value, terms, trade, false, 2);
    EmptyTotal(ledger, Polkadex);
    CutMulFair();
    SameSideGrows(ledger, terms, trade);
  }

  lemma {:induction false} EmptyTotal(ledger: Ledger, a: Asset)
    requires forall x | x in ledger :: a !in ledger[x]
    ensures Total(ledger, a) == 0
    decreases |ledger|
  {
    if ledger != map[] {
      var x :| x in ledger;
      TotalWithout(ledger, a, x);
      EmptyTotal(ledger - {x}, a);
    }
  }
}
