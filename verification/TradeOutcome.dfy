/**
  What a trade takes and pays: when it settles, and what the asker, the bidder and the fee pot
  have afterwards.
 */
module TradeOutcome {
  import opened Settlement
  import opened Accounting

  /** The account of the order holds what its side gives away: the amount of the base asset for an ask, its price
      in the quote asset for a bid. */
  predicate Covers(ledger: Ledger, terms: Terms, trade: Trade, order: Order) {
    match order.side
    case Ask => Has(ledger, order.main, order.base, trade.amount)
    case Bid => Has(ledger, order.main, order.quote, terms.mul(trade.price, trade.amount))
  }

  lemma SideSettlesIff(ledger: Ledger, terms: Terms, trade: Trade, maker: bool)
    requires var order := if maker then trade.maker else trade.taker; order.base != order.quote
    ensures SideSettled(ledger, terms, trade, maker).Done?
            <==> Covers(ledger, terms, trade, if maker then trade.maker else trade.taker)
  {
    hide RoundOff;
  }

  /** A side is about its own account and the pot. */
  lemma SideLocal(ledger: Ledger, terms: Terms, trade: Trade, maker: bool, x: Account)
    requires SideSettled(ledger, terms, trade, maker).Done?
    requires x != terms.pot && x != (if maker then trade.maker else trade.taker).main
    ensures var after := SideSettled(ledger, terms, trade, maker).value;
            (x in after <==> x in ledger) && (x in ledger ==> after[x] == ledger[x])
  {
    hide RoundOff;
  }

  /** A trade settles exactly when both orders are signed, they are about one pair, and each account holds what its
      side gives away. The taker must be neither the maker nor the pot, which the first side credits. */
  lemma SettlesIff(ledger: Ledger, terms: Terms, trade: Trade)
    requires trade.maker.base != trade.maker.quote
    requires trade.taker.main != trade.maker.main && trade.taker.main != terms.pot
    ensures Settled(ledger, terms, trade).Done?
            <==> && trade.maker.verified && trade.taker.verified
                 && trade.maker.base == trade.taker.base && trade.maker.quote == trade.taker.quote
                 && Covers(ledger, terms, trade, trade.maker) && Covers(ledger, terms, trade, trade.taker)
  {
    hide SideSettled, Credit, DebitLeg;
    SideSettlesIff(ledger, terms, trade, true);
    var first := SideSettled(ledger, terms, trade, true);
    if first.Done? && trade.taker.base != trade.taker.quote {
      SideLocal(ledger, terms, trade, true, trade.taker.main);
      SideSettlesIff(first.value, terms, trade, false);
    }
  }

  /** The order with the given side, of a trade between an ask and a bid. */
  function Party(trade: Trade, side: Side): Order {
    if trade.maker.side == side then trade.maker else trade.taker
  }

  /** The fee of a party on what it receives: the maker's fraction if it made the trade, else the taker's. */
  function Fee(terms: Terms, trade: Trade, side: Side, received: int): int {
    terms.mul(received, if trade.maker.side == side then terms.makerFraction else terms.takerFraction)
  }

  /** The asker gives the amount and receives its price less a fee, the bidder gives the price and receives the
      amount less a fee, and the pot receives both fees. */
  function Exchange(terms: Terms, trade: Trade): seq<Post> {
    var asker, bidder, cost := Party(trade, Ask), Party(trade, Bid), terms.mul(trade.price, trade.amount);
    var askFee, bidFee := Fee(terms, trade, Ask, cost), Fee(terms, trade, Bid, trade.amount);
    [Post(asker.main, asker.quote, cost - askFee)] + [Post(terms.pot, asker.quote, askFee)]
    + [Post(asker.main, asker.base, -trade.amount)]
    + ([Post(bidder.main, bidder.base, trade.amount - bidFee)] + [Post(terms.pot, bidder.base, bidFee)]
       + [Post(bidder.main, bidder.quote, -cost)])
  }

  lemma PostsAreExchange(terms: Terms, trade: Trade, x: Account, a: Asset)
    requires trade.maker.side != trade.taker.side
    ensures var p, q := TradePosts(terms, trade), Exchange(terms, trade);
            && Flow(p, x, a) == Flow(q, x, a) && Hits(p, x, a) == Hits(q, x, a)
            && AssetFlow(p, a) == AssetFlow(q, a) && AssetHits(p, a) == AssetHits(q, a)
  {
    var first, second := SidePosts(terms, trade, true), SidePosts(terms, trade, false);
    assert Exchange(terms, trade) == if trade.maker.side == Ask then first + second else second + first;
    hide Flow, Hits, AssetFlow, AssetHits, SidePosts, Exchange;
    FlowConcat(first, second, x, a);
    FlowConcat(second, first, x, a);
  }

  /** Whoever the three accounts are, every balance and every total follows the exchange within roundings. */
  lemma TradeExchanges(ledger: Ledger, terms: Terms, trade: Trade, x: Account, a: Asset)
    requires NonNegative(ledger) && FairTerms(terms) && trade.price >= 0 && trade.amount >= 0
    requires Settled(ledger, terms, trade).Done? && trade.maker.side != trade.taker.side
    ensures Follows(ledger, Exchange(terms, trade), Settled(ledger, terms, trade).value, x, a)
  {
    hide Settled, NonNegative, FairTerms, TradePosts, Exchange, Flow, Hits, AssetFlow, AssetHits, Total;
    TradeFollows(ledger, terms, trade, x, a);
    PostsAreExchange(terms, trade, x, a);
  }

  lemma ExchangeFlow(terms: Terms, trade: Trade, x: Account, a: Asset)
    requires trade.maker.side != trade.taker.side
    ensures var asker, bidder, cost := Party(trade, Ask), Party(trade, Bid), terms.mul(trade.price, trade.amount);
            var askFee, bidFee := Fee(terms, trade, Ask, cost), Fee(terms, trade, Bid, trade.amount);
            && Flow(Exchange(terms, trade), x, a)
               == If(x == asker.main && a == asker.quote, cost - askFee)
                   + If(x == terms.pot && a == asker.quote, askFee)
                  + If(x == asker.main && a == asker.base, -trade.amount)
                  + If(x == bidder.main && a == bidder.base, trade.amount - bidFee)
                  + If(x == terms.pot && a == bidder.base, bidFee) + If(x == bidder.main && a == bidder.quote, -cost)
            && Hits(Exchange(terms, trade), x, a)
               == If(x == asker.main && a == asker.quote, 1) + If(x == terms.pot && a == asker.quote, 1)
                  + If(x == asker.main && a == asker.base, 1) + If(x == bidder.main && a == bidder.base, 1)
                  + If(x == terms.pot && a == bidder.base, 1) + If(x == bidder.main && a == bidder.quote, 1)
  {
    hide Flow, Hits, AssetFlow, AssetHits;
    var asker, bidder, cost := Party(trade, Ask), Party(trade, Bid), terms.mul(trade.price, trade.amount);
    var askFee, bidFee := Fee(terms, trade, Ask, cost), Fee(terms, trade, Bid, trade.amount);
    ThreePosts(Post(asker.main, asker.quote, cost - askFee), Post(terms.pot, asker.quote, askFee),
               Post(asker.main, asker.base, -trade.amount), x, a);
    ThreePosts(Post(bidder.main, bidder.base, trade.amount - bidFee), Post(terms.pot, bidder.base, bidFee),
               Post(bidder.main, bidder.quote, -cost), x, a);
    FlowConcat([Post(asker.main, asker.quote, cost - askFee)] + [Post(terms.pot, asker.quote, askFee)]
               + [Post(asker.main, asker.base, -trade.amount)],
               [Post(bidder.main, bidder.base, trade.amount - bidFee)] + [Post(terms.pot, bidder.base, bidFee)]
               + [Post(bidder.main, bidder.quote, -cost)], x, a);
  }

  lemma ThreePosts(p: Post, q: Post, r: Post, x: Account, a: Asset)
    ensures Flow([p] + [q] + [r], x, a)
            == If(x == p.account && a == p.asset, p.amount) + If(x == q.account && a == q.asset, q.amount)
               + If(x == r.account && a == r.asset, r.amount)
    ensures Hits([p] + [q] + [r], x, a)
            == If(x == p.account && a == p.asset, 1) + If(x == q.account && a == q.asset, 1)
               + If(x == r.account && a == r.asset, 1)
  {
    hide Flow, Hits, AssetFlow, AssetHits;
    OnePost(p, x, a);
    OnePost(q, x, a);
    OnePost(r, x, a);
    FlowConcat([p], [q], x, a);
    FlowConcat([p] + [q], [r], x, a);
  }

  /** For three different accounts, what each of them has afterwards, to one rounding. */
  lemma TradePays(ledger: Ledger, terms: Terms, trade: Trade)
    requires NonNegative(ledger) && FairTerms(terms) && trade.price >= 0 && trade.amount >= 0
    requires Settled(ledger, terms, trade).Done? && trade.maker.side != trade.taker.side
    requires trade.maker.main != trade.taker.main && terms.pot != trade.maker.main && terms.pot != trade.taker.main
    requires trade.maker.base != trade.maker.quote
    ensures var after := Settled(ledger, terms, trade).value;
            var asker, bidder, pot := Party(trade, Ask).main, Party(trade, Bid).main, terms.pot;
            var base, quote, cost := trade.maker.base, trade.maker.quote, terms.mul(trade.price, trade.amount);
            var askFee, bidFee := Fee(terms, trade, Ask, cost), Fee(terms, trade, Bid, trade.amount);
            && Near(Balance(ledger, asker, quote), cost - askFee, Balance(after, asker, quote), 1)
            && Near(Balance(ledger, asker, base), -trade.amount, Balance(after, asker, base), 1)
            && Near(Balance(ledger, bidder, base), trade.amount - bidFee, Balance(after, bidder, base), 1)
            && Near(Balance(ledger, bidder, quote), -cost, Balance(after, bidder, quote), 1)
            && Near(Balance(ledger, pot, quote), askFee, Balance(after, pot, quote), 1)
            && Near(Balance(ledger, pot, base), bidFee, Balance(after, pot, base), 1)
  {
    var asker, bidder, base, quote := Party(trade, Ask).main, Party(trade, Bid).main, trade.maker.base,
        trade.maker.quote;
    assert trade.taker.base == base && trade.taker.quote == quote;
    hide Settled, NonNegative, FairTerms, Exchange, Fee, Balance, Near, Party;
    PaidOf(ledger, terms, trade, asker, quote);
    PaidOf(ledger, terms, trade, asker, base);
    PaidOf(ledger, terms, trade, bidder, base);
    PaidOf(ledger, terms, trade, bidder, quote);
    PaidOf(ledger, terms, trade, terms.pot, quote);
    PaidOf(ledger, terms, trade, terms.pot, base);
  }

  /** What one of three different accounts gets of one of two different assets. */
  function Share(terms: Terms, trade: Trade, x: Account, a: Asset): int {
    var cost, base := terms.mul(trade.price, trade.amount), a == trade.maker.base;
    if x == Party(trade, Ask).main then
      if base then -trade.amount else cost - Fee(terms, trade, Ask, cost)
    else if x == Party(trade, Bid).main then
      if base then trade.amount - Fee(terms, trade, Bid, trade.amount) else -cost
    else if base then Fee(terms, trade, Bid, trade.amount) else Fee(terms, trade, Ask, cost)
  }

  lemma PaidOf(ledger: Ledger, terms: Terms, trade: Trade, x: Account, a: Asset)
    requires NonNegative(ledger) && FairTerms(terms) && trade.price >= 0 && trade.amount >= 0
    requires Settled(ledger, terms, trade).Done? && trade.maker.side != trade.taker.side
    requires trade.maker.main != trade.taker.main && terms.pot != trade.maker.main && terms.pot != trade.taker.main
    requires trade.maker.base != trade.maker.quote
    requires x in {trade.maker.main, trade.taker.main, terms.pot} && a in {trade.maker.base, trade.maker.quote}
    ensures Near(Balance(ledger, x, a), Share(terms, trade, x, a), Balance(Settled(ledger, terms, trade).value, x, a),
                 1)
  {
    assert trade.taker.base == trade.maker.base && trade.taker.quote == trade.maker.quote;
    hide Settled, NonNegative, FairTerms, Exchange, Fee, Flow, Hits, Total, Balance, AssetFlow, AssetHits, Near;
    TradeExchanges(ledger, terms, trade, x, a);
    ExchangeFlow(terms, trade, x, a);
  }
}
