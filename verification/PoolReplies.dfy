/**
  Liquidity taken out of a pool. The amounts freed are worked out for the market of the ingress
  message, but taken from the market that the engine's reply names, and nothing compares the two.
 */
module PoolReplies {
  import opened Settlement
  import opened Accounting
  import opened BatchReplay
  import opened Inflow

  /** No balance of an asset outside the market has changed. */
  ghost predicate OnlyMarket(ledger: Ledger, market: Market, after: Ledger) {
    forall x, a | a != market.base && a != market.quote :: Balance(after, x, a) == Balance(ledger, x, a)
  }

  /** Taking the amount from the asset cannot be seen outside the market: the asset belongs to it, or nothing is
      taken from a balance that has no more than nine decimals. */
  predicate Unseen(ledger: Ledger, msg: Ingress, asset: Asset, amount: int)
    requires msg.RemoveLiquidity?
  {
    asset == msg.market.base || asset == msg.market.quote
        || (amount == 0 && Balance(ledger, msg.pool, asset) % ULP == 0)
  }

  lemma RoundOffKeepsIff(held: int, amount: int)
    requires 0 <= amount <= held
    ensures 0 <= RoundOff(held - amount) <= held
    ensures RoundOff(held - amount) == held <==> amount == 0 && held % ULP == 0
  {
  }

  lemma DebitKeepsIff(ledger: Ledger, x: Account, asset: Asset, amount: int)
    requires NonNegative(ledger) && amount >= 0 && Debited(ledger, x, asset, amount, false).Done?
    ensures var after := Debited(ledger, x, asset, amount, false).value.ledger; var held := Balance(ledger, x, asset);
            && NonNegative(after) && 0 <= Balance(after, x, asset) <= held
            && (Balance(after, x, asset) == held <==> amount == 0 && held % ULP == 0)
            && forall y: Account, b: Asset | y != x || b != asset :: Balance(after, y, b) == Balance(ledger, y, b)
  {
    RoundOffKeepsIff(Balance(ledger, x, asset), amount);
    hide RoundOff;
  }

  /** What the two debits of a removal do to any balance. */
  lemma RemovalTakes(env: Env, ledger: Ledger, msg: Ingress, engine: Engine, mid: Ledger)
    requires NonNegative(ledger) && FairTerms(env.terms) && msg.RemoveLiquidity? && FairFraction(msg)
    requires LiquidityRemoved(env, ledger, msg, engine).Done? && engine[msg].RemoveLiquidityResult?
    requires mid == Debited(ledger, msg.pool, engine[msg].market.quote, engine[msg].quote, false).value.ledger
    ensures var reply, after := engine[msg], LiquidityRemoved(env, ledger, msg, engine).value.ledger;
            && reply.quote >= 0 && reply.base >= 0 && NonNegative(mid)
            && Debited(mid, msg.pool, reply.market.base, reply.base, false).Done?
            && after == Debited(mid, msg.pool, reply.market.base, reply.base, false).value.ledger
  {
    BalanceNotNegative(ledger, msg.pool, msg.market.base);
    BalanceNotNegative(ledger, msg.pool, msg.market.quote);
    DebitKeepsIff(ledger, msg.pool, engine[msg].market.quote, engine[msg].quote);
    hide Debited, NonNegative, Balance;
  }

  /** A removal touches nothing outside the message's market exactly when neither asset of the reply's market
      gives it away. */
  lemma RemovalStaysIff(env: Env, ledger: Ledger, msg: Ingress, engine: Engine)
    requires NonNegative(ledger) && FairTerms(env.terms) && msg.RemoveLiquidity? && FairFraction(msg)
    requires LiquidityRemoved(env, ledger, msg, engine).Done? && engine[msg].RemoveLiquidityResult?
    ensures var reply := engine[msg];
            OnlyMarket(ledger, msg.market, LiquidityRemoved(env, ledger, msg, engine).value.ledger)
            <==> Unseen(ledger, msg, reply.market.base, reply.base)
                 && Unseen(ledger, msg, reply.market.quote, reply.quote)
  {
    var reply, after := engine[msg], LiquidityRemoved(env, ledger, msg, engine).value.ledger;
    var mid := Debited(ledger, msg.pool, reply.market.quote, reply.quote, false).value.ledger;
    RemovalTakes(env, ledger, msg, engine, mid);
    DebitKeepsIff(ledger, msg.pool, reply.market.quote, reply.quote);
    DebitKeepsIff(mid, msg.pool, reply.market.base, reply.base);
    hide Debited, LiquidityRemoved, Balance, NonNegative;
    assert Balance(after, msg.pool, reply.market.quote) <= Balance(mid, msg.pool, reply.market.quote);
    assert Balance(mid, msg.pool, reply.market.base) <= Balance(ledger, msg.pool, reply.market.base);
  }

  /** When the reply names the message's market, each of its two assets loses the burnt fraction and nothing else
      changes. */
  lemma RemovalAsAsked(env: Env, ledger: Ledger, msg: Ingress, engine: Engine)
    requires NonNegative(ledger) && FairTerms(env.terms) && msg.RemoveLiquidity? && FairFraction(msg)
    requires LiquidityRemoved(env, ledger, msg, engine).Done? && engine[msg].RemoveLiquidityResult?
    requires engine[msg].market == msg.market && msg.market.base != msg.market.quote
    ensures var after := LiquidityRemoved(env, ledger, msg, engine).value.ledger; var mul := env.terms.mul;
            var base, quote := Balance(ledger, msg.pool, msg.market.base), Balance(ledger, msg.pool, msg.market.quote);
            && Balance(after, msg.pool, msg.market.base) == RoundOff(base - mul(msg.burnFraction, base))
            && Balance(after, msg.pool, msg.market.quote) == RoundOff(quote - mul(msg.burnFraction, quote))
            && OnlyMarket(ledger, msg.market, after)
            && forall x, a | x != msg.pool :: Balance(after, x, a) == Balance(ledger, x, a)
  {
    hide RoundOff;
  }

  /** Half of what a pool holds of one market, asked for and worked out, is taken from another market it holds. */
  lemma ReplyMarketTaken(env: Env, ledger: Ledger, msg: Ingress, engine: Engine, held: Balances)
    requires held == map[Token(1) := 2 * ONE, Polkadex := 2 * ONE, Token(2) := 2 * ONE, Token(3) := 2 * ONE]
    requires ledger == map[7 := held] && env.terms.mul(ONE / 2, 2 * ONE) == ONE
    requires msg == RemoveLiquidity(Market(Token(1), Polkadex), 7, 9, ONE / 2, 2 * ONE)
    requires engine == map[msg := RemoveLiquidityResult(Market(Token(2), Token(3)), 7, 9, ONE, ONE)]
    ensures var r := LiquidityRemoved(env, ledger, msg, engine);
            && r.Done?
            && Balance(r.value.ledger, 7, Token(1)) == 2 * ONE && Balance(r.value.ledger, 7, Polkadex) == 2 * ONE
            && Balance(r.value.ledger, 7, Token(2)) == ONE && Balance(r.value.ledger, 7, Token(3)) == ONE
  {
    assert RoundOff(ONE) == ONE;
    hide RoundOff;
  }

  /** A fraction of minus one, which no quotient of amounts is, would double what the pool holds. */
  lemma NegativeFractionCredits(env: Env, ledger: Ledger, msg: Ingress, engine: Engine)
    requires ledger == map[7 := map[Token(1) := ONE, Polkadex := ONE]] && env.terms.mul(-ONE, ONE) == -ONE
    requires msg == RemoveLiquidity(Market(Token(1), Polkadex), 7, 9, -ONE, ONE)
    requires engine == map[msg := RemoveLiquidityResult(Market(Token(1), Polkadex), 7, 9, -ONE, -ONE)]
    ensures var r := LiquidityRemoved(env, ledger, msg, engine);
            r.Done? && Balance(r.value.ledger, 7, Token(1)) == 2 * ONE
                && Balance(r.value.ledger, 7, Polkadex) == 2 * ONE
  {
    assert RoundOff(2 * ONE) == 2 * ONE;
    hide RoundOff;
  }
}
