/**
  What replaying batches guarantees: balances and totals follow the messages, blocks and
  batches come in order, and a failed batch leaves no trace.
 */
module ReplayProperties {
  import opened ByteStrings
  import opened Settlement
  import opened Accounting
  import opened BatchReplay

  // ------------------------------------------------------------------ the amounts messages name

  function IngressPosts(msg: Ingress): seq<Post> {
    match msg
    case Deposit(_, main, asset, amount) => [Post(main, asset, amount)]
    case AddLiquidity(market, pool, _, _, base, quote) =>
      [Post(pool, market.base, base)] + [Post(pool, market.quote, quote)]
    case _ => []
  }

  /** Fees leave the pot only for the assets that are looked at. */
  function FeePosts(pot: Account, assets: seq<Asset>, fees: map<Asset, int>): seq<Post> {
    if assets == [] then []
    else
      var asset := assets[|assets| - 1];
      FeePosts(pot, assets[..|assets| - 1], fees) + (if asset in fees then [Post(pot, asset, -fees[asset])] else [])
  }

  function EgressPosts(env: Env, msg: Egress): seq<Post> {
    match msg
    case RemoveLiquidityResult(market, pool, _, base, quote) =>
      [Post(pool, market.quote, -quote)] + [Post(pool, market.base, -base)]
    case PoolForceClosed(market, pool, base, quote) =>
      [Post(pool, market.base, -base)] + [Post(pool, market.quote, -quote)]
    case TradingFees(fees) => FeePosts(env.terms.pot, env.allowlist, fees)
    case _ => []
  }

  function AllIngressPosts(msgs: seq<Ingress>): seq<Post> {
    if msgs == [] then [] else AllIngressPosts(msgs[..|msgs| - 1]) + IngressPosts(msgs[|msgs| - 1])
  }

  function AllEgressPosts(env: Env, msgs: seq<Egress>): seq<Post> {
    if msgs == [] then [] else AllEgressPosts(env, msgs[..|msgs| - 1]) + EgressPosts(env, msgs[|msgs| - 1])
  }

  function WithdrawalPosts(ws: seq<Withdrawal>): seq<Post> {
    if ws == [] then []
    else
      var w := ws[|ws| - 1];
      WithdrawalPosts(ws[..|ws| - 1]) + [Post(w.main, w.asset, -w.amount)]
  }

  function AllTradePosts(terms: Terms, trades: seq<Trade>): seq<Post> {
    if trades == [] then []
    else AllTradePosts(terms, trades[..|trades| - 1]) + TradePosts(terms, trades[|trades| - 1])
  }

  /** What the actions themselves name: trades, and the ingress messages of imported blocks. */
  function ActionPosts(env: Env, action: Action): seq<Post> {
    match action
    case Trades(trades) => AllTradePosts(env.terms, trades)
    case BlockImport(block, _, _) => AllIngressPosts(env.ingressAt(block))
    case _ => []
  }

  function AllActionPosts(env: Env, actions: seq<Action>): seq<Post> {
    if actions == [] then []
    else AllActionPosts(env, actions[..|actions| - 1]) + ActionPosts(env, actions[|actions| - 1])
  }

  /** Everything a batch names: its actions, and the withdrawals and egress messages it returns. */
  function BatchPosts(env: Env, actions: seq<Action>, p: Progress): seq<Post> {
    AllActionPosts(env, actions) + WithdrawalPosts(p.withdrawals) + AllEgressPosts(env, p.egress)
  }

  // ------------------------------------------------------------------ sums do not depend on order

  ghost predicate SameSums(p: seq<Post>, q: seq<Post>, x: Account, a: Asset) {
    && Flow(p, x, a) == Flow(q, x, a) && Hits(p, x, a) == Hits(q, x, a)
    && AssetFlow(p, a) == AssetFlow(q, a) && AssetHits(p, a) == AssetHits(q, a)
  }

  lemma FollowsSame(ledger: Ledger, p: seq<Post>, q: seq<Post>, after: Ledger, x: Account, a: Asset)
    requires Follows(ledger, p, after, x, a) && SameSums(p, q, x, a)
    ensures Follows(ledger, q, after, x, a)
  {
  }

  /** New posts of each of the three kinds can be moved to the end of their kind. */
  lemma Regroup(p: seq<Post>, q: seq<Post>, r: seq<Post>, p': seq<Post>, q': seq<Post>, r': seq<Post>, x: Account,
                a: Asset)
    ensures SameSums((p + q + r) + (p' + q' + r'), (p + p') + (q + q') + (r + r'), x, a)
  {
    hide Flow, Hits, AssetFlow, AssetHits;
    FlowConcat(p + q + r, p' + q' + r', x, a);
    FlowConcat(p + q, r, x, a);
    FlowConcat(p, q, x, a);
    FlowConcat(p' + q', r', x, a);
    FlowConcat(p', q', x, a);
    FlowConcat((p + p') + (q + q'), r + r', x, a);
    FlowConcat(p + p', q + q', x, a);
    FlowConcat(p, p', x, a);
    FlowConcat(q, q', x, a);
    FlowConcat(r, r', x, a);
  }

  lemma {:induction false} EgressPostsConcat(env: Env, p: seq<Egress>, q: seq<Egress>)
    ensures AllEgressPosts(env, p + q) == AllEgressPosts(env, p) + AllEgressPosts(env, q)
    decreases |q|
  {
    if q == [] {
      ConcatNothing(p);
      ConcatNothing(AllEgressPosts(env, p));
    } else {
      var before, last := q[..|q| - 1], q[|q| - 1];
      EgressPostsConcat(env, p, before);
      assert (p + q)[..|p + q| - 1] == p + before;
      ConcatAssociates(AllEgressPosts(env, p), AllEgressPosts(env, before), EgressPosts(env, last));
    }
  }

  lemma OneEgress(env: Env, msg: Egress)
    ensures AllEgressPosts(env, [msg]) == EgressPosts(env, msg)
  {
    assert [msg][..0] == [];
    ConcatNothing(EgressPosts(env, msg));
  }

  // ------------------------------------------------------------------ one message

  /** Amounts credited from the chain are not negative. */
  ghost predicate SoundIngress(msg: Ingress) {
    && (msg.Deposit? ==> msg.amount >= 0)
    && (msg.AddLiquidity? ==> msg.base >= 0 && msg.quote >= 0)
  }

  lemma {:induction false} FeesFollow(ledger: Ledger, pot: Account, assets: seq<Asset>, fees: map<Asset, int>,
                                      x: Account, a: Asset)
    requires NonNegative(ledger) && FeesTaken(ledger, pot, assets, fees).Done?
    ensures var after := FeesTaken(ledger, pot, assets, fees).value;
            NonNegative(after) && Follows(ledger, FeePosts(pot, assets, fees), after, x, a)
    decreases |assets|
  {
    hide Debited, Follows, NonNegative, RoundOff;
    if assets == [] {
      FollowsNothing(ledger, x, a);
    } else {
      var rest, asset := assets[..|assets| - 1], assets[|assets| - 1];
      FeesFollow(ledger, pot, rest, fees, x, a);
      var before := FeesTaken(ledger, pot, rest, fees).value;
      if asset in fees {
        FeeDebited(before, pot, asset);
        DebitFollows(before, pot, asset, fees[asset], true, x, a);
        FollowsBoth(ledger, FeePosts(pot, rest, fees), before, [Post(pot, asset, -fees[asset])],
                    FeesTaken(ledger, pot, assets, fees).value, x, a);
      } else {
        ConcatNothing(FeePosts(pot, rest, fees));
      }
    }
  }

  /** The pot's own balance, cut to nine decimals, can always be taken in full. */
  lemma FeeDebited(ledger: Ledger, pot: Account, asset: Asset)
    requires NonNegative(ledger)
    ensures var r := Debited(ledger, pot, asset, RoundOff(Balance(ledger, pot, asset)), true);
            r.Done? ==> r.value.amount == RoundOff(Balance(ledger, pot, asset))
  {
    RoundOffBounds(Balance(ledger, pot, asset));
    hide RoundOff;
  }

  lemma LiquidityAddedFollows(env: Env, ledger: Ledger, msg: Ingress, engine: Engine, x: Account, a: Asset)
    requires NonNegative(ledger) && msg.AddLiquidity? && SoundIngress(msg)
             && LiquidityAdded(env, ledger, msg, engine).Done?
    ensures var out := LiquidityAdded(env, ledger, msg, engine).value;
            NonNegative(out.ledger) && Follows(ledger, IngressPosts(msg), out.ledger, x, a)
            && AllEgressPosts(env, out.egress) == []
  {
    hide Credited, Follows, NonNegative;
    var p, q := Post(msg.pool, msg.market.base, msg.base), Post(msg.pool, msg.market.quote, msg.quote);
    var mid := Credited(ledger, p.account, p.asset, p.amount);
    CreditFollows(ledger, p, x, a);
    CreditFollows(mid, q, x, a);
    FollowsBoth(ledger, [p], mid, [q], Credited(mid, q.account, q.asset, q.amount), x, a);
    OneEgress(env, engine[msg]);
  }

  lemma DebitsFollow(ledger: Ledger, pool: Account, first: Asset, m: int, second: Asset, n: int, x: Account, a: Asset)
    requires NonNegative(ledger) && Debited(ledger, pool, first, m, false).Done?
    requires Debited(Debited(ledger, pool, first, m, false).value.ledger, pool, second, n, false).Done?
    ensures var mid := Debited(ledger, pool, first, m, false).value.ledger;
            var after := Debited(mid, pool, second, n, false).value.ledger;
            NonNegative(after) && Follows(ledger, [Post(pool, first, -m)] + [Post(pool, second, -n)], after, x, a)
  {
    hide Debited, Follows, NonNegative;
    var mid := Debited(ledger, pool, first, m, false).value.ledger;
    DebitFollows(ledger, pool, first, m, false, x, a);
    DebitFollows(mid, pool, second, n, false, x, a);
    FollowsBoth(ledger, [Post(pool, first, -m)], mid, [Post(pool, second, -n)],
                Debited(mid, pool, second, n, false).value.ledger, x, a);
  }

  lemma LiquidityRemovedFollows(env: Env, ledger: Ledger, msg: Ingress, engine: Engine, x: Account, a: Asset)
    requires NonNegative(ledger) && msg.RemoveLiquidity? && LiquidityRemoved(env, ledger, msg, engine).Done?
    ensures var out := LiquidityRemoved(env, ledger, msg, engine).value;
            NonNegative(out.ledger) && Follows(ledger, AllEgressPosts(env, out.egress), out.ledger, x, a)
  {
    hide Debited, Follows, NonNegative;
    var reply := engine[msg];
    OneEgress(env, reply);
    if reply.RemoveLiquidityResult? {
      DebitsFollow(ledger, msg.pool, reply.market.quote, reply.quote, reply.market.base, reply.base, x, a);
    } else {
      FollowsNothing(ledger, x, a);
    }
  }

  lemma PoolClosedFollows(env: Env, ledger: Ledger, market: Market, pool: Account, x: Account, a: Asset)
    requires NonNegative(ledger) && PoolClosed(ledger, market, pool).Done?
    ensures var out := PoolClosed(ledger, market, pool).value;
            NonNegative(out.ledger) && Follows(ledger, AllEgressPosts(env, out.egress), out.ledger, x, a)
  {
    hide Debited, Follows, NonNegative, Balance;
    var base, quote := Balance(ledger, pool, market.base), Balance(ledger, pool, market.quote);
    OneEgress(env, PoolForceClosed(market, pool, base, quote));
    DebitsFollow(ledger, pool, market.base, base, market.quote, quote, x, a);
  }

  lemma FeesWithdrawnFollows(env: Env, ledger: Ledger, engine: Engine, x: Account, a: Asset)
    requires NonNegative(ledger) && FeesWithdrawn(env, ledger, engine).Done?
    ensures var out := FeesWithdrawn(env, ledger, engine).value;
            NonNegative(out.ledger) && Follows(ledger, AllEgressPosts(env, out.egress), out.ledger, x, a)
  {
    hide Follows, NonNegative, FeesTaken, FeePosts;
    var reply := engine[WithdrawTradingFees];
    OneEgress(env, reply);
    FeesFollow(ledger, env.terms.pot, env.allowlist, reply.fees, x, a);
  }

  lemma MessageFollows(env: Env, ledger: Ledger, msg: Ingress, engine: Engine, x: Account, a: Asset)
    requires NonNegative(ledger) && SoundIngress(msg) && MessageImported(env, ledger, msg, engine).Done?
    ensures var out := MessageImported(env, ledger, msg, engine).value;
            NonNegative(out.ledger)
            && Follows(ledger, IngressPosts(msg) + AllEgressPosts(env, out.egress), out.ledger, x, a)
  {
    hide Follows, NonNegative, Credited, LiquidityAdded, LiquidityRemoved, PoolClosed, FeesWithdrawn, EgressPosts;
    var out := MessageImported(env, ledger, msg, engine).value;
    ConcatNothing(IngressPosts(msg));
    ConcatNothing(AllEgressPosts(env, out.egress));
    match msg
    case Deposit(_, main, asset, amount) => CreditFollows(ledger, Post(main, asset, amount), x, a);
    case AddLiquidity(_, _, _, _, _, _) => LiquidityAddedFollows(env, ledger, msg, engine, x, a);
    case RemoveLiquidity(_, _, _, _, _) => LiquidityRemovedFollows(env, ledger, msg, engine, x, a);
    case ForceClosePool(market, pool) => PoolClosedFollows(env, ledger, market, pool, x, a);
    case WithdrawTradingFees => FeesWithdrawnFollows(env, ledger, engine, x, a);
    case _ => FollowsNothing(ledger, x, a);
  }

  lemma {:induction false} MessagesFollow(env: Env, ledger: Ledger, msgs: seq<Ingress>, engine: Engine, x: Account,
                                          a: Asset)
    requires NonNegative(ledger) && (forall i | 0 <= i < |msgs| :: SoundIngress(msgs[i]))
    requires MessagesImported(env, ledger, msgs, engine).Done?
    ensures var out := MessagesImported(env, ledger, msgs, engine).value;
            NonNegative(out.ledger)
            && Follows(ledger, AllIngressPosts(msgs) + AllEgressPosts(env, out.egress), out.ledger, x, a)
    decreases |msgs|
  {
    hide Follows, NonNegative, MessageImported, IngressPosts, EgressPosts, SoundIngress;
    if msgs == [] {
      FollowsNothing(ledger, x, a);
      assert AllIngressPosts(msgs) + AllEgressPosts(env, []) == [];
    } else {
      var rest, msg := msgs[..|msgs| - 1], msgs[|msgs| - 1];
      MessagesFollow(env, ledger, rest, engine, x, a);
      var before := MessagesImported(env, ledger, rest, engine).value;
      var last := MessageImported(env, before.ledger, msg, engine).value;
      MessageFollows(env, before.ledger, msg, engine, x, a);
      FollowsBoth(ledger, AllIngressPosts(rest) + AllEgressPosts(env, before.egress), before.ledger,
                  IngressPosts(msg) + AllEgressPosts(env, last.egress), last.ledger, x, a);
      EgressPostsConcat(env, before.egress, last.egress);
      Regroup2(AllIngressPosts(rest), AllEgressPosts(env, before.egress), IngressPosts(msg),
               AllEgressPosts(env, last.egress), x, a);
      FollowsSame(ledger,
                  (AllIngressPosts(rest) + AllEgressPosts(env, before.egress))
                      + (IngressPosts(msg) + AllEgressPosts(env, last.egress)),
                  AllIngressPosts(msgs) + AllEgressPosts(env, before.egress + last.egress), last.ledger, x, a);
    }
  }

  lemma Regroup2(p: seq<Post>, r: seq<Post>, p': seq<Post>, r': seq<Post>, x: Account, a: Asset)
    ensures SameSums((p + r) + (p' + r'), (p + p') + (r + r'), x, a)
  {
    hide Flow, Hits, AssetFlow, AssetHits;
    FlowConcat(p + r, p' + r', x, a);
    FlowConcat(p, r, x, a);
    FlowConcat(p', r', x, a);
    FlowConcat(p + p', r + r', x, a);
    FlowConcat(p, p', x, a);
    FlowConcat(r, r', x, a);
  }

  // ------------------------------------------------------------------ actions and batches

  ghost predicate SoundTrades(trades: seq<Trade>) {
    forall i | 0 <= i < |trades| :: trades[i].price >= 0 && trades[i].amount >= 0
  }

  /** No trade and no imported message names a negative amount. */
  ghost predicate SoundAction(env: Env, action: Action) {
    match action
    case Trades(trades) => SoundTrades(trades)
    case BlockImport(block, _, _) => forall i | 0 <= i < |env.ingressAt(block)| :: SoundIngress(env.ingressAt(block)[i])
    case _ => true
  }

  ghost predicate SoundActions(env: Env, actions: seq<Action>) {
    forall i | 0 <= i < |actions| :: SoundAction(env, actions[i])
  }

  lemma {:induction false} TradesFollow(env: Env, ledger: Ledger, trades: seq<Trade>, x: Account, a: Asset)
    requires NonNegative(ledger) && FairTerms(env.terms) && SoundTrades(trades)
             && TradesSettled(env, ledger, trades).Done?
    ensures var after := TradesSettled(env, ledger, trades).value;
            NonNegative(after) && Follows(ledger, AllTradePosts(env.terms, trades), after, x, a)
    decreases |trades|
  {
    hide Follows, NonNegative, Settled, TradePosts, FairTerms;
    if trades == [] {
      FollowsNothing(ledger, x, a);
    } else {
      var rest, trade := trades[..|trades| - 1], trades[|trades| - 1];
      TradesFollow(env, ledger, rest, x, a);
      var before := TradesSettled(env, ledger, rest).value;
      TradeFollows(before, env.terms, trade, x, a);
      FollowsBoth(ledger, AllTradePosts(env.terms, rest), before, TradePosts(env.terms, trade),
                  TradesSettled(env, ledger, trades).value, x, a);
    }
  }

  /** What one action adds to the batch's results. */
  ghost predicate Extends(p: Progress, q: Progress, ws: seq<Withdrawal>, es: seq<Egress>) {
    q.withdrawals == p.withdrawals + ws && q.egress == p.egress + es
  }

  lemma WithdrawnFollows(env: Env, p: Progress, request: Request, stid: nat, x: Account, a: Asset)
    returns (ws: seq<Withdrawal>)
    requires NonNegative(p.ledger) && Withdrawn(p, request, stid).Done?
    ensures var q := Withdrawn(p, request, stid).value;
            NonNegative(q.ledger) && Extends(p, q, ws, [])
            && Follows(p.ledger, WithdrawalPosts(ws), q.ledger, x, a)
  {
    hide Follows, NonNegative, Debited;
    var paid := RequestPaid(p.ledger, request, stid).value;
    var w := paid.withdrawal;
    ws := [w];
    DebitFollows(p.ledger, request.main, request.asset, request.amount.value, true, x, a);
    ConcatNothing([Post(w.main, w.asset, -w.amount)]);
    assert ws[..0] == [];
    ConcatNothing(p.egress);
  }

  lemma BlockFollows(env: Env, p: Progress, block: BlockNumber, engine: Engine, prices: map<(Asset, Asset), int>,
                     x: Account, a: Asset)
    returns (es: seq<Egress>)
    requires NonNegative(p.ledger) && SoundAction(env, BlockImport(block, engine, prices))
    requires ActionDone(env, p, BlockImport(block, engine, prices)).Done?
    ensures var q := ActionDone(env, p, BlockImport(block, engine, prices)).value;
            NonNegative(q.ledger) && Extends(p, q, [], es)
            && Follows(p.ledger, AllIngressPosts(env.ingressAt(block)) + AllEgressPosts(env, es), q.ledger, x, a)
  {
    hide Follows, NonNegative, MessagesImported, SoundIngress, EgressPosts;
    MessagesFollow(env, p.ledger, env.ingressAt(block), engine, x, a);
    var out := MessagesImported(env, p.ledger, env.ingressAt(block), engine).value;
    es := out.egress + [PriceOracle(prices)];
    ConcatAssociates(p.egress, out.egress, [PriceOracle(prices)]);
    ConcatNothing(p.withdrawals);
    EgressPostsConcat(env, out.egress, [PriceOracle(prices)]);
    OneEgress(env, PriceOracle(prices));
    PricesPostNothing(env, prices);
    ConcatNothing(AllEgressPosts(env, out.egress));
  }

  lemma PricesPostNothing(env: Env, prices: map<(Asset, Asset), int>)
    ensures EgressPosts(env, PriceOracle(prices)) == []
  {
  }

  /** One action: the ledger follows what the action names, what it pays out and what it releases. */
  lemma ActionFollows(env: Env, p: Progress, action: Action, x: Account, a: Asset)
    returns (ws: seq<Withdrawal>, es: seq<Egress>)
    requires NonNegative(p.ledger) && FairTerms(env.terms) && SoundAction(env, action)
             && ActionDone(env, p, action).Done?
    ensures var q := ActionDone(env, p, action).value;
            NonNegative(q.ledger) && Extends(p, q, ws, es)
            && Follows(p.ledger, ActionPosts(env, action) + WithdrawalPosts(ws) + AllEgressPosts(env, es), q.ledger,
                       x, a)
  {
    hide Follows, NonNegative, TradesSettled, MessagesImported, AllTradePosts, AllIngressPosts, FairTerms;
    ws, es := [], [];
    ConcatNothing(p.withdrawals);
    ConcatNothing(p.egress);
    ConcatNothing(ActionPosts(env, action));
    match action
    case Trades(trades) =>
      TradesFollow(env, p.ledger, trades, x, a);
    case Withdraw(request) =>
      ws := WithdrawnFollows(env, p, request, 0, x, a);
      ConcatNothing(WithdrawalPosts(ws));
    case WithdrawV1(request, stid) =>
      ws := WithdrawnFollows(env, p, request, stid, x, a);
      ConcatNothing(WithdrawalPosts(ws));
    case BlockImport(block, engine, prices) =>
      es := BlockFollows(env, p, block, engine, prices, x, a);
    case _ =>
      FollowsNothing(p.ledger, x, a);
  }

  lemma {:induction false} WithdrawalPostsConcat(p: seq<Withdrawal>, q: seq<Withdrawal>)
    ensures WithdrawalPosts(p + q) == WithdrawalPosts(p) + WithdrawalPosts(q)
    decreases |q|
  {
    if q == [] {
      ConcatNothing(p);
      ConcatNothing(WithdrawalPosts(p));
    } else {
      var before, w := q[..|q| - 1], q[|q| - 1];
      WithdrawalPostsConcat(p, before);
      assert (p + q)[..|p + q| - 1] == p + before;
      ConcatAssociates(WithdrawalPosts(p), WithdrawalPosts(before), [Post(w.main, w.asset, -w.amount)]);
    }
  }

  /** Every balance and every total follows the batch's posts, and no balance goes negative. */
  lemma {:induction false} ActionsFollow(env: Env, ledger: Ledger, info: Info, actions: seq<Action>, x: Account,
                                         a: Asset)
    requires NonNegative(ledger) && FairTerms(env.terms) && SoundActions(env, actions)
    requires ActionsDone(env, Progress(ledger, info, [], []), actions).Done?
    ensures var p := ActionsDone(env, Progress(ledger, info, [], []), actions).value;
            NonNegative(p.ledger) && Follows(ledger, BatchPosts(env, actions, p), p.ledger, x, a)
    decreases |actions|
  {
    hide Follows, NonNegative, ActionDone, ActionPosts, SoundAction, FairTerms;
    var start := Progress(ledger, info, [], []);
    if actions == [] {
      FollowsNothing(ledger, x, a);
      assert BatchPosts(env, actions, start) == [];
    } else {
      var rest, action := actions[..|actions| - 1], actions[|actions| - 1];
      assert SoundActions(env, rest);
      ActionsFollow(env, ledger, info, rest, x, a);
      var p := ActionsDone(env, start, rest).value;
      var q := ActionDone(env, p, action).value;
      var ws, es := ActionFollows(env, p, action, x, a);
      var p1, p2, p3 := AllActionPosts(env, rest), WithdrawalPosts(p.withdrawals), AllEgressPosts(env, p.egress);
      var q1, q2, q3 := ActionPosts(env, action), WithdrawalPosts(ws), AllEgressPosts(env, es);
      FollowsBoth(ledger, p1 + p2 + p3, p.ledger, q1 + q2 + q3, q.ledger, x, a);
      Regroup(p1, p2, p3, q1, q2, q3, x, a);
      WithdrawalPostsConcat(p.withdrawals, ws);
      EgressPostsConcat(env, p.egress, es);
      FollowsSame(ledger, (p1 + p2 + p3) + (q1 + q2 + q3), (p1 + q1) + (p2 + q2) + (p3 + q3), q.ledger, x, a);
    }
  }

  // ------------------------------------------------------------------ conservation, asset by asset

  function IngressCredit(msg: Ingress, a: Asset): int {
    match msg
    case Deposit(_, _, asset, amount) => If(asset == a, amount)
    case AddLiquidity(market, _, _, _, base, quote) => If(market.base == a, base) + If(market.quote == a, quote)
    case _ => 0
  }

  function IngressCredits(msgs: seq<Ingress>, a: Asset): int {
    if msgs == [] then 0 else IngressCredits(msgs[..|msgs| - 1], a) + IngressCredit(msgs[|msgs| - 1], a)
  }

  /** What the ingress messages of the imported blocks bring in. */
  function BroughtIn(env: Env, actions: seq<Action>, a: Asset): int {
    if actions == [] then 0
    else
      var last := actions[|actions| - 1];
      BroughtIn(env, actions[..|actions| - 1], a)
      + (if last.BlockImport? then IngressCredits(env.ingressAt(last.block), a) else 0)
  }

  function PaidOut(ws: seq<Withdrawal>, a: Asset): int {
    if ws == [] then 0
    else PaidOut(ws[..|ws| - 1], a) + If(ws[|ws| - 1].asset == a, ws[|ws| - 1].amount)
  }

  /** What an egress message releases of an asset; trading fees are checked for allowlisted assets only. */
  function Release(msg: Egress, a: Asset, listed: bool): int {
    match msg
    case RemoveLiquidityResult(market, _, _, base, quote) => If(market.base == a, base) + If(market.quote == a, quote)
    case PoolForceClosed(market, _, base, quote) => If(market.base == a, base) + If(market.quote == a, quote)
    case TradingFees(fees) => if listed && a in fees then fees[a] else 0
    case _ => 0
  }

  function Released(msgs: seq<Egress>, a: Asset, listed: bool): int {
    if msgs == [] then 0 else Released(msgs[..|msgs| - 1], a, listed) + Release(msgs[|msgs| - 1], a, listed)
  }

  ghost predicate Distinct(assets: seq<Asset>) {
    forall i, j | 0 <= i < j < |assets| :: assets[i] != assets[j]
  }

  lemma {:induction false} FeeFlow(pot: Account, assets: seq<Asset>, fees: map<Asset, int>, a: Asset)
    requires Distinct(assets)
    ensures AssetFlow(FeePosts(pot, assets, fees), a) == (if a in assets && a in fees then -fees[a] else 0)
    decreases |assets|
  {
    if assets != [] {
      var rest, asset := assets[..|assets| - 1], assets[|assets| - 1];
      FeeFlow(pot, rest, fees, a);
      hide AssetFlow, Flow, Hits, AssetHits;
      if asset in fees {
        FlowConcat(FeePosts(pot, rest, fees), [Post(pot, asset, -fees[asset])], 0, a);
        OnePost(Post(pot, asset, -fees[asset]), 0, a);
      } else {
        ConcatNothing(FeePosts(pot, rest, fees));
      }
      assert a in assets <==> a in rest || a == asset;
    }
  }

  lemma TwoPosts(p: Post, q: Post, a: Asset)
    ensures AssetFlow([p] + [q], a) == If(p.asset == a, p.amount) + If(q.asset == a, q.amount)
  {
    hide AssetFlow;
    FlowConcat([p], [q], 0, a);
    OnePost(p, 0, a);
    OnePost(q, 0, a);
  }

  lemma IngressFlow(msg: Ingress, a: Asset)
    ensures AssetFlow(IngressPosts(msg), a) == IngressCredit(msg, a)
  {
    match msg
    case AddLiquidity(market, pool, _, _, base, quote) =>
      TwoPosts(Post(pool, market.base, base), Post(pool, market.quote, quote), a);
    case _ =>
  }

  lemma EgressFlow(env: Env, msg: Egress, a: Asset)
    requires Distinct(env.allowlist)
    ensures AssetFlow(EgressPosts(env, msg), a) == -Release(msg, a, a in env.allowlist)
  {
    match msg
    case RemoveLiquidityResult(market, pool, _, base, quote) =>
      TwoPosts(Post(pool, market.quote, -quote), Post(pool, market.base, -base), a);
    case PoolForceClosed(market, pool, base, quote) =>
      TwoPosts(Post(pool, market.base, -base), Post(pool, market.quote, -quote), a);
    case TradingFees(fees) => FeeFlow(env.terms.pot, env.allowlist, fees, a);
    case _ =>
  }

  lemma {:induction false} AllIngressFlow(msgs: seq<Ingress>, a: Asset)
    ensures AssetFlow(AllIngressPosts(msgs), a) == IngressCredits(msgs, a)
  {
    if msgs != [] {
      var rest, msg := msgs[..|msgs| - 1], msgs[|msgs| - 1];
      AllIngressFlow(rest, a);
      IngressFlow(msg, a);
      FlowConcat(AllIngressPosts(rest), IngressPosts(msg), 0, a);
    }
  }

  lemma {:induction false} AllEgressFlow(env: Env, msgs: seq<Egress>, a: Asset)
    requires Distinct(env.allowlist)
    ensures AssetFlow(AllEgressPosts(env, msgs), a) == -Released(msgs, a, a in env.allowlist)
    decreases |msgs|
  {
    hide EgressPosts, Release;
    if msgs != [] {
      var rest, msg := msgs[..|msgs| - 1], msgs[|msgs| - 1];
      AllEgressFlow(env, rest, a);
      EgressFlow(env, msg, a);
      FlowConcat(AllEgressPosts(env, rest), EgressPosts(env, msg), 0, a);
    }
  }

  lemma {:induction false} WithdrawalFlow(ws: seq<Withdrawal>, a: Asset)
    ensures AssetFlow(WithdrawalPosts(ws), a) == -PaidOut(ws, a)
  {
    if ws != [] {
      var rest, w := ws[..|ws| - 1], ws[|ws| - 1];
      WithdrawalFlow(rest, a);
      OnePost(Post(w.main, w.asset, -w.amount), 0, a);
      FlowConcat(WithdrawalPosts(rest), [Post(w.main, w.asset, -w.amount)], 0, a);
    }
  }

  ghost predicate OppositeTrades(trades: seq<Trade>) {
    forall i | 0 <= i < |trades| :: trades[i].maker.side != trades[i].taker.side
  }

  /** Every trade is between a bid and an ask. */
  ghost predicate OppositeSides(actions: seq<Action>) {
    forall i | 0 <= i < |actions| :: actions[i].Trades? ==> OppositeTrades(actions[i].trades)
  }

  lemma TradeFlow(terms: Terms, trade: Trade, a: Asset)
    requires Verified(trade) && trade.maker.side != trade.taker.side
    ensures AssetFlow(TradePosts(terms, trade), a) == 0
  {
    hide SidePosts, AssetFlow;
    SideFlow(terms, trade, true, 0, a);
    SideFlow(terms, trade, false, 0, a);
    FlowConcat(SidePosts(terms, trade, true), SidePosts(terms, trade, false), 0, a);
  }

  lemma {:induction false} AllTradeFlow(env: Env, ledger: Ledger, trades: seq<Trade>, a: Asset)
    requires OppositeTrades(trades) && TradesSettled(env, ledger, trades).Done?
    ensures AssetFlow(AllTradePosts(env.terms, trades), a) == 0
    decreases |trades|
  {
    hide TradePosts, SideSettled;
    if trades != [] {
      var rest, trade := trades[..|trades| - 1], trades[|trades| - 1];
      AllTradeFlow(env, ledger, rest, a);
      TradeFlow(env.terms, trade, a);
      FlowConcat(AllTradePosts(env.terms, rest), TradePosts(env.terms, trade), 0, a);
    }
  }

  lemma {:induction false} AllActionFlow(env: Env, p: Progress, actions: seq<Action>, a: Asset)
    requires OppositeSides(actions) && ActionsDone(env, p, actions).Done?
    ensures AssetFlow(AllActionPosts(env, actions), a) == BroughtIn(env, actions, a)
    decreases |actions|
  {
    hide AllTradePosts, AllIngressPosts, AssetFlow, OppositeTrades, IngressCredits;
    if actions == [] {
      NoFlow(a);
    } else {
      var rest, last := actions[..|actions| - 1], actions[|actions| - 1];
      AllActionFlow(env, p, rest, a);
      FlowConcat(AllActionPosts(env, rest), ActionPosts(env, last), 0, a);
      match last
      case Trades(trades) => AllTradeFlow(env, ActionsDone(env, p, rest).value.ledger, trades, a);
      case BlockImport(block, _, _) => AllIngressFlow(env.ingressAt(block), a);
      case _ => NoFlow(a);
    }
  }

  lemma NoFlow(a: Asset)
    ensures AssetFlow([], a) == 0
  {
  }

  /** After a successful batch the total of every asset is at most the old one plus what ingress messages brought
      in, less what was paid out and what was released, and falls short of that only by roundings. A request for
      a negative amount counts as a negative payment. */
  lemma BatchConserves(env: Env, ledger: Ledger, info: Info, batch: Batch, a: Asset)
    requires NonNegative(ledger) && FairTerms(env.terms) && Distinct(env.allowlist)
    requires SoundActions(env, batch.actions) && OppositeSides(batch.actions)
    requires BatchDone(env, ledger, info, batch).Done?
    ensures var p := BatchDone(env, ledger, info, batch).value;
            var expected := Total(ledger, a) + BroughtIn(env, batch.actions, a) - PaidOut(p.withdrawals, a)
                            - Released(p.egress, a, a in env.allowlist);
            && NonNegative(p.ledger)
            && Total(p.ledger, a) <= expected <= Total(p.ledger, a)
               + AssetHits(BatchPosts(env, batch.actions, p), a) * (ULP - 1)
  {
    var p := BatchDone(env, ledger, info, batch).value;
    var p1, p2, p3 := AllActionPosts(env, batch.actions), WithdrawalPosts(p.withdrawals), AllEgressPosts(env, p.egress);
    hide AssetFlow, Flow, Hits, AssetHits, ActionsDone, AllActionPosts, WithdrawalPosts, AllEgressPosts, Total,
         NonNegative,
         BroughtIn, PaidOut, Released, SoundActions, OppositeSides;
    ActionsFollow(env, ledger, info, batch.actions, 0, a);
    AllActionFlow(env, Progress(ledger, info, [], []), batch.actions, a);
    WithdrawalFlow(p.withdrawals, a);
    AllEgressFlow(env, p.egress, a);
    FlowConcat(p1, p2, 0, a);
    FlowConcat(p1 + p2, p3, 0, a);
  }

  /** A fee reply is not checked for an asset that is not allowlisted: it passes and releases fees that no
      balance gives up. */
  lemma UnlistedFeesUnchecked(env: Env, ledger: Ledger, info: Info, a: Asset, fee: int)
    requires env.allowlist == [] && env.ingressAt(1) == [WithdrawTradingFees] && info.lastBlock == 0
    ensures var engine := map[WithdrawTradingFees := TradingFees(map[a := fee])];
            var batch := Batch([BlockImport(1, engine, map[])], info.stid + 1, 0, true);
            var r := BatchDone(env, ledger, info, batch);
            r.Done? && TradingFees(map[a := fee]) in r.value.egress && r.value.ledger == ledger
  {
    var engine: Engine := map[WithdrawTradingFees := TradingFees(map[a := fee])];
    var action := BlockImport(1, engine, map[]);
    var start := Progress(ledger, info, [], []);
    assert [WithdrawTradingFees][..0] == [];
    assert MessagesImported(env, ledger, [], engine) == Done(Imported(ledger, []));
    assert MessageImported(env, ledger, WithdrawTradingFees, engine)
           == Done(Imported(ledger, [engine[WithdrawTradingFees]]));
    assert [action][..0] == [];
    assert ActionsDone(env, start, []) == Done(start);
  }

  lemma {:induction false} NoFeeHits(pot: Account, assets: seq<Asset>, fees: map<Asset, int>, a: Asset)
    requires a !in assets
    ensures AssetHits(FeePosts(pot, assets, fees), a) == 0
    decreases |assets|
  {
    if assets != [] {
      var rest, asset := assets[..|assets| - 1], assets[|assets| - 1];
      NoFeeHits(pot, rest, fees, a);
      hide AssetFlow, Flow, Hits, AssetHits;
      if asset in fees {
        FlowConcat(FeePosts(pot, rest, fees), [Post(pot, asset, -fees[asset])], 0, a);
        OnePost(Post(pot, asset, -fees[asset]), 0, a);
      } else {
        ConcatNothing(FeePosts(pot, rest, fees));
      }
    }
  }

  /** An accepted fee reply is backed for an asset, in that balances give up at least the fee it names, exactly when
      the asset is allowlisted or the fee is not positive. */
  lemma FeesBackedIff(env: Env, ledger: Ledger, engine: Engine, a: Asset)
    requires NonNegative(ledger) && Distinct(env.allowlist) && FeesWithdrawn(env, ledger, engine).Done?
    requires a in engine[WithdrawTradingFees].fees
    ensures var fee := engine[WithdrawTradingFees].fees[a];
            Total(FeesWithdrawn(env, ledger, engine).value.ledger, a) <= Total(ledger, a) - fee
            <==> a in env.allowlist || fee <= 0
  {
    hide Total, FeesTaken, NonNegative, FeePosts, AssetFlow, AssetHits, Flow, Hits;
    var fees := engine[WithdrawTradingFees].fees;
    FeesFollow(ledger, env.terms.pot, env.allowlist, fees, 0, a);
    FeeFlow(env.terms.pot, env.allowlist, fees, a);
    if a !in env.allowlist {
      NoFeeHits(env.terms.pot, env.allowlist, fees, a);
    }
  }

  // ------------------------------------------------------------------ withdrawals of negative amounts

  /** An accepted request raises no balance exactly when its amount is not negative, or so little below zero that
      rounding swallows it. Nothing checks the sign. */
  lemma RaisesNothingIff(ledger: Ledger, request: Request, stid: nat)
    requires NonNegative(ledger) && RequestPaid(ledger, request, stid).Done?
    ensures var after := RequestPaid(ledger, request, stid).value.ledger;
            var v := request.amount.value; var held := Balance(ledger, request.main, request.asset);
            (forall x, b :: Balance(after, x, b) <= Balance(ledger, x, b)) <==> v >= 0 || RoundOff(held - v) <= held
  {
    var after := RequestPaid(ledger, request, stid).value.ledger;
    var v, held := request.amount.value, Balance(ledger, request.main, request.asset);
    var taken := if held < v then held else v;
    RoundOffBounds(held - taken);
    hide RoundOff;
    assert held >= 0;
    assert Balance(after, request.main, request.asset) == RoundOff(held - taken);
    assert forall x, b | x != request.main || b != request.asset :: Balance(after, x, b) == Balance(ledger, x, b);
  }

  /** One verified request for minus five units makes a batch that credits five units. */
  lemma NegativeRequestCredits(env: Env, info: Info, x: Account, a: Asset, actions: seq<Action>)
    requires actions == [Withdraw(Request(x, a, Some(-5 * ULP), true))]
    ensures var ledger: Ledger := map[x := map[a := 0]];
            var r := BatchDone(env, ledger, info, Batch(actions, info.stid + 1, 0, true));
            SoundActions(env, actions) && OppositeSides(actions) && NonNegative(ledger)
            && r.Done? && Balance(r.value.ledger, x, a) == 5 * ULP
  {
    var ledger: Ledger := map[x := map[a := 0]];
    var start := Progress(ledger, info, [], []);
    assert actions[..0] == [];
    assert ActionsDone(env, start, []) == Done(start);
    assert RoundOff(5 * ULP) == 5 * ULP;
  }

  /** No request of the batch is for a negative amount. */
  ghost predicate FairRequests(actions: seq<Action>) {
    forall i | 0 <= i < |actions| && (actions[i].Withdraw? || actions[i].WithdrawV1?)
        && actions[i].request.amount.Some? ::
      actions[i].request.amount.value >= 0
  }

  /** Then no payment is negative either. */
  lemma {:induction false} PaymentsNotNegative(env: Env, ledger: Ledger, info: Info, actions: seq<Action>, a: Asset)
    requires NonNegative(ledger) && FairTerms(env.terms) && SoundActions(env, actions) && FairRequests(actions)
    requires ActionsDone(env, Progress(ledger, info, [], []), actions).Done?
    ensures PaidOut(ActionsDone(env, Progress(ledger, info, [], []), actions).value.withdrawals, a) >= 0
    decreases |actions|
  {
    if actions != [] {
      hide NonNegative, FairTerms, SoundAction, ActionDone, PaidOut;
      var start, rest, last := Progress(ledger, info, [], []), actions[..|actions| - 1], actions[|actions| - 1];
      assert SoundActions(env, rest) && FairRequests(rest);
      PaymentsNotNegative(env, ledger, info, rest, a);
      ActionsFollow(env, ledger, info, rest, 0, a);
      ActionPays(env, ActionsDone(env, start, rest).value, last, a);
    } else {
      assert PaidOut([], a) == 0;
    }
  }

  lemma ActionPays(env: Env, p: Progress, action: Action, a: Asset)
    requires NonNegative(p.ledger) && ActionDone(env, p, action).Done?
    requires (action.Withdraw? || action.WithdrawV1?) && action.request.amount.Some?
             ==> action.request.amount.value >= 0
    ensures PaidOut(ActionDone(env, p, action).value.withdrawals, a) >= PaidOut(p.withdrawals, a)
  {
    hide NonNegative, TradesSettled, MessagesImported, RequestPaid;
    if action.Withdraw? {
      PaymentNotNegative(p.ledger, action.request, 0);
    } else if action.WithdrawV1? {
      PaymentNotNegative(p.ledger, action.request, action.stid);
    }
  }

  lemma PaymentNotNegative(ledger: Ledger, request: Request, stid: nat)
    requires NonNegative(ledger) && RequestPaid(ledger, request, stid).Done?
    ensures request.amount.Some? && (request.amount.value >= 0
                                     ==> RequestPaid(ledger, request, stid).value.withdrawal.amount >= 0)
  {
    hide RoundOff;
  }

  // ------------------------------------------------------------------ order

  /** The blocks that actions import, in order. */
  function Blocks(actions: seq<Action>): seq<BlockNumber> {
    if actions == [] then []
    else
      var last := actions[|actions| - 1];
      Blocks(actions[..|actions| - 1]) + (if last.BlockImport? then [last.block] else [])
  }

  function AllBlocks(batches: seq<Batch>): seq<BlockNumber> {
    if batches == [] then [] else AllBlocks(batches[..|batches| - 1]) + Blocks(batches[|batches| - 1].actions)
  }

  /** The last block once these are imported; None if one of them is refused. */
  function LastAfter(last: BlockNumber, blocks: seq<BlockNumber>): Option<BlockNumber> {
    if blocks == [] then Some(last)
    else
      var before :- LastAfter(last, blocks[..|blocks| - 1]);
      var block := blocks[|blocks| - 1];
      if before != 0 && block != Successor(before) then None else Some(block)
  }

  lemma {:induction false} LastAfterConcat(last: BlockNumber, a: seq<BlockNumber>, b: seq<BlockNumber>)
    requires LastAfter(last, a).Some?
    ensures LastAfter(last, a + b) == LastAfter(LastAfter(last, a).value, b)
    decreases |b|
  {
    if b == [] {
      ConcatNothing(a);
    } else {
      LastAfterConcat(last, a, b[..|b| - 1]);
      assert (a + b)[..|a + b| - 1] == a + b[..|b| - 1];
    }
  }

  /** Only importing a block changes the ids, and only to that block, if it is the next or the last one is 0. */
  lemma ActionImports(env: Env, p: Progress, action: Action)
    requires ActionDone(env, p, action).Done?
    ensures var q := ActionDone(env, p, action).value;
            if action.BlockImport? then q.info == p.info.(lastBlock := action.block)
                                        && (p.info.lastBlock == 0 || action.block == Successor(p.info.lastBlock))
            else q.info == p.info
  {
    hide TradesSettled, MessagesImported, RequestPaid;
  }

  /** A batch imports its blocks one by one, each as the last one allows. */
  lemma {:induction false} ActionsImport(env: Env, p: Progress, actions: seq<Action>)
    requires ActionsDone(env, p, actions).Done?
    ensures var q := ActionsDone(env, p, actions).value;
            LastAfter(p.info.lastBlock, Blocks(actions)) == Some(q.info.lastBlock) && q.info.stid == p.info.stid
    decreases |actions|
  {
    if actions != [] {
      hide ActionDone;
      var rest, last := actions[..|actions| - 1], actions[|actions| - 1];
      ActionsImport(env, p, rest);
      ActionImports(env, ActionsDone(env, p, rest).value, last);
      if last.BlockImport? {
        assert Blocks(actions)[..|Blocks(actions)| - 1] == Blocks(rest);
      } else {
        ConcatNothing(Blocks(rest));
      }
    }
  }

  function Capped(n: nat): BlockNumber {
    if n <= U32_MAX then n else U32_MAX
  }

  /** The blocks are the ones that follow `from`, one after the other. */
  ghost predicate Consecutive(from: nat, blocks: seq<BlockNumber>) {
    forall i | 0 <= i < |blocks| :: blocks[i] == Capped(from + 1 + i)
  }

  /** After a block other than block 0, exactly the following blocks are accepted. */
  lemma {:induction false} InOrderIff(last: BlockNumber, blocks: seq<BlockNumber>)
    requires 0 < last
    ensures LastAfter(last, blocks).Some? <==> Consecutive(last, blocks)
    ensures Consecutive(last, blocks) ==> LastAfter(last, blocks) == Some(Capped(last + |blocks|))
    decreases |blocks|
  {
    if blocks != [] {
      var rest, block := blocks[..|blocks| - 1], blocks[|blocks| - 1];
      InOrderIff(last, rest);
      assert Consecutive(last, blocks) <==> Consecutive(last, rest) && block == Capped(last + |blocks|) by {
        assert forall i | 0 <= i < |rest| :: rest[i] == blocks[i];
      }
      hide Consecutive;
    }
  }

  /** The number of blocks 0 at the start. */
  function Zeros(blocks: seq<BlockNumber>): (z: nat)
    ensures z <= |blocks| && (forall i | 0 <= i < z :: blocks[i] == 0) && (z < |blocks| ==> blocks[z] != 0)
  {
    if blocks == [] || blocks[0] != 0 then 0 else 1 + Zeros(blocks[1..])
  }

  lemma {:induction false} ZerosLeaveZero(blocks: seq<BlockNumber>)
    requires forall i | 0 <= i < |blocks| :: blocks[i] == 0
    ensures LastAfter(0, blocks) == Some(0 as BlockNumber)
  {
    if blocks != [] {
      ZerosLeaveZero(blocks[..|blocks| - 1]);
    }
  }

  /** A worker that has imported no block, or only block 0, accepts any: exactly the sequences of any number of
      blocks 0, then one block as it comes, then the ones after it in order. */
  lemma FreeIff(blocks: seq<BlockNumber>)
    ensures var z := Zeros(blocks);
            LastAfter(0, blocks).Some? <==> z == |blocks| || Consecutive(blocks[z], blocks[z + 1..])
    ensures LastAfter(0, blocks).Some? ==>
              var z := Zeros(blocks);
              LastAfter(0, blocks).value == if z == |blocks| then 0 else Capped(blocks[z] + (|blocks| - z - 1))
  {
    hide LastAfter, Consecutive, Zeros;
    var z := Zeros(blocks);
    ZerosLeaveZero(blocks[..z]);
    if z == |blocks| {
      assert blocks[..z] == blocks;
    } else {
      var zeros, first, rest := blocks[..z], blocks[z], blocks[z + 1..];
      FirstTaken(zeros, first);
      LastAfterConcat(0, zeros + [first], rest);
      assert blocks == zeros + [first] + rest;
      InOrderIff(first, rest);
    }
  }

  lemma FirstTaken(zeros: seq<BlockNumber>, first: BlockNumber)
    requires LastAfter(0, zeros) == Some(0 as BlockNumber)
    ensures LastAfter(0, zeros + [first]) == Some(first)
  {
    assert (zeros + [first])[..|zeros|] == zeros;
  }

  ghost predicate Different(blocks: seq<BlockNumber>) {
    forall i, j | 0 <= i < j < |blocks| :: blocks[i] != blocks[j]
  }

  /** A block and the ones imported after it are different exactly while the counter is not exhausted. */
  lemma DifferentIff(from: BlockNumber, blocks: seq<BlockNumber>)
    requires Consecutive(from, blocks)
    ensures Different([from] + blocks) <==> from + |blocks| <= U32_MAX
  {
    var all := [from] + blocks;
    assert forall i | 0 < i < |all| :: all[i] == blocks[i - 1];
    assert forall i | 0 <= i < |all| :: all[i] == Capped(from + i);
    var n := |blocks|;
    if from + n > U32_MAX {
      assert all[n - 1] == all[n];
    }
  }

  lemma ZeroInFront(tail: seq<BlockNumber>)
    requires forall i | 0 <= i < |tail| :: tail[i] != 0
    ensures Different([0] + tail) <==> Different(tail)
  {
    var all: seq<BlockNumber> := [0] + tail;
    assert forall i | 0 < i < |all| :: all[i] == tail[i - 1];
    assert forall i | 0 <= i < |tail| :: tail[i] == all[i + 1];
    if Different(tail) {
      forall i, j | 0 <= i < j < |all|
        ensures all[i] != all[j]
      {
        assert i > 0 ==> tail[i - 1] != tail[j - 1];
      }
    }
  }

  lemma OneZeroAtMost(z: nat, first: BlockNumber, rest: seq<BlockNumber>, blocks: seq<BlockNumber>)
    requires z <= 1 && first != 0 && Consecutive(first, rest)
             && blocks == (if z == 0 then [] else [0]) + ([first] + rest)
    ensures Different(blocks) <==> first + |rest| <= U32_MAX
  {
    var tail := [first] + rest;
    DifferentIff(first, rest);
    assert forall i | 0 < i < |tail| :: tail[i] == rest[i - 1];
    hide Different;
    if z == 0 {
      assert blocks == tail;
    } else {
      ZeroInFront(tail);
    }
  }

  /** From a fresh start no block is imported twice exactly when block 0 is imported at most once and the 32-bit
      counter is not exhausted. */
  lemma EachBlockOnce(blocks: seq<BlockNumber>)
    requires LastAfter(0, blocks).Some?
    ensures var z := Zeros(blocks);
            Different(blocks) <==> z <= 1 && (z < |blocks| ==> blocks[z] + (|blocks| - z - 1) <= U32_MAX)
  {
    hide LastAfter, Zeros, Consecutive;
    FreeIff(blocks);
    var z := Zeros(blocks);
    if z > 1 {
      assert blocks[0] == blocks[1];
    } else if z < |blocks| {
      hide Different;
      assert blocks == (if z == 0 then [] else [0]) + ([blocks[z]] + blocks[z + 1..]);
      OneZeroAtMost(z, blocks[z], blocks[z + 1..], blocks);
    }
  }

  /** Block 0 does not move the counter off 0, so it can be imported again: its deposit is credited twice. */
  lemma BlockZeroTwice(env: Env, info: Info, x: Account, a: Asset, actions: seq<Action>)
    requires info.lastBlock == 0 && env.ingressAt(0) == [Deposit(0, x, a, ULP)] && env.ingressAt(77) == []
    requires actions == [BlockImport(0, map[], map[]), BlockImport(0, map[], map[]), BlockImport(77, map[], map[])]
    ensures var r := ActionsDone(env, Progress(map[], info, [], []), actions);
            && Blocks(actions) == [0, 0, 77] && r.Done? && r.value.info.lastBlock == 77
            && Balance(r.value.ledger, x, a) == 2 * ULP
  {
    var p := Progress(map[], info, [], []);
    var one, two := actions[..1], actions[..2];
    assert one[..0] == [] && two[..1] == one && actions[..2] == two;
    assert ActionsDone(env, p, []) == Done(p);
    assert Blocks(one) == [0] && Blocks(two) == [0, 0];
    hide ActionDone, Blocks, Credited;
    ImportsZero(env, p, x, a);
    var q := ActionsDone(env, p, one).value;
    ImportsZero(env, q, x, a);
    ImportsNothing(env, ActionsDone(env, p, two).value);
    CreditedTwice(x, a);
  }

  lemma CreditedTwice(x: Account, a: Asset)
    ensures Balance(Credited(Credited(map[], x, a, ULP), x, a, ULP), x, a) == 2 * ULP
  {
  }

  lemma ImportsZero(env: Env, p: Progress, x: Account, a: Asset)
    requires p.info.lastBlock == 0 && env.ingressAt(0) == [Deposit(0, x, a, ULP)]
    ensures var r := ActionDone(env, p, BlockImport(0, map[], map[]));
            r.Done? && r.value.ledger == Credited(p.ledger, x, a, ULP) && r.value.info.lastBlock == 0
  {
    ImportsDeposit(env, p.ledger, x, a);
    hide MessagesImported;
  }

  lemma ImportsNothing(env: Env, p: Progress)
    requires p.info.lastBlock == 0 && env.ingressAt(77) == []
    ensures var r := ActionDone(env, p, BlockImport(77, map[], map[]));
            r.Done? && r.value.ledger == p.ledger && r.value.info.lastBlock == 77
  {
    assert MessagesImported(env, p.ledger, [], map[]) == Done(Imported(p.ledger, []));
  }

  lemma ImportsDeposit(env: Env, ledger: Ledger, x: Account, a: Asset)
    requires env.ingressAt(0) == [Deposit(0, x, a, ULP)]
    ensures MessagesImported(env, ledger, env.ingressAt(0), map[]) == Done(Imported(Credited(ledger, x, a, ULP), []))
  {
    var msgs, none: Engine := env.ingressAt(0), map[];
    assert msgs[..|msgs| - 1] == [] && msgs[|msgs| - 1] == Deposit(0, x, a, ULP);
    assert MessagesImported(env, ledger, [], none) == Done(Imported(ledger, []));
    var nothing: seq<Egress> := [];
    assert nothing + nothing == nothing;
    assert MessageImported(env, ledger, msgs[|msgs| - 1], none) == Done(Imported(Credited(ledger, x, a, ULP), nothing));
    assert MessagesImported(env, ledger, msgs, none) == Done(Imported(Credited(ledger, x, a, ULP), nothing));
  }

  /** The id before that of a batch. */
  ghost function IdBefore(from: nat, batches: seq<Batch>, i: nat): nat
    requires i < |batches|
  {
    if i == 0 then from else batches[i - 1].stid
  }

  /** Ids grow from batch to batch. */
  ghost predicate Increasing(from: nat, batches: seq<Batch>) {
    forall i: nat | i < |batches| :: batches[i].stid > IdBefore(from, batches, i)
  }

  lemma {:induction false} AllBlocksCons(batch: Batch, rest: seq<Batch>)
    ensures AllBlocks([batch] + rest) == Blocks(batch.actions) + AllBlocks(rest)
    decreases |rest|
  {
    var all := [batch] + rest;
    if rest == [] {
      assert all[..0] == [];
      ConcatNothing(Blocks(batch.actions));
    } else {
      var before, last := rest[..|rest| - 1], rest[|rest| - 1];
      AllBlocksCons(batch, before);
      assert all[..|all| - 1] == [batch] + before;
      ConcatAssociates(Blocks(batch.actions), AllBlocks(before), Blocks(last.actions));
    }
  }

  /** The first accepted batch and the rest. */
  lemma SyncStep(env: Env, stored: Stored, batches: seq<Batch>)
    requires batches != [] && BatchStored(env, stored, batches[0]).Done?
    ensures var next := BatchStored(env, stored, batches[0]).value;
            var rest := SyncedThrough(env, next, batches[1..]); var r := SyncedThrough(env, stored, batches);
            && r == Synced(rest.stored, rest.accepted + 1)
            && batches[..r.accepted] == [batches[0]] + batches[1..][..rest.accepted]
  {
  }

  /** Accepted batches have strictly increasing ids. */
  lemma {:induction false} SyncIncreasing(env: Env, stored: Stored, batches: seq<Batch>)
    ensures var r := SyncedThrough(env, stored, batches); var accepted := batches[..r.accepted];
            && Increasing(stored.info.stid, accepted)
            && r.stored.info.stid == (if accepted == [] then stored.info.stid else accepted[|accepted| - 1].stid)
    decreases |batches|
  {
    hide ActionsDone;
    if batches != [] && BatchStored(env, stored, batches[0]).Done? {
      var next := BatchStored(env, stored, batches[0]).value;
      SyncIncreasing(env, next, batches[1..]);
      SyncStep(env, stored, batches);
      hide SyncedThrough;
    }
  }

  /** Over any run the accepted batches import their blocks one by one, each as the last one allows. */
  lemma {:induction false} SyncImports(env: Env, stored: Stored, batches: seq<Batch>)
    ensures var r := SyncedThrough(env, stored, batches);
            LastAfter(stored.info.lastBlock, AllBlocks(batches[..r.accepted])) == Some(r.stored.info.lastBlock)
    decreases |batches|
  {
    hide ActionsDone, AllBlocks, Blocks, LastAfter;
    if batches != [] && BatchStored(env, stored, batches[0]).Done? {
      var next := BatchStored(env, stored, batches[0]).value;
      ActionsImport(env, Progress(stored.ledger, stored.info, [], []), batches[0].actions);
      SyncImports(env, next, batches[1..]);
      SyncStep(env, stored, batches);
      var tail := batches[1..][..SyncedThrough(env, next, batches[1..]).accepted];
      hide SyncedThrough;
      AllBlocksCons(batches[0], tail);
      LastAfterConcat(stored.info.lastBlock, Blocks(batches[0].actions), AllBlocks(tail));
    } else {
      NoBlocks(stored.info.lastBlock);
    }
  }

  lemma NoBlocks(last: BlockNumber)
    ensures AllBlocks([]) == [] && LastAfter(last, []) == Some(last)
  {
  }

  /** From a block other than 0, accepted batches import exactly the blocks that follow it, in order. */
  lemma SyncInOrder(env: Env, stored: Stored, batches: seq<Batch>)
    requires 0 < stored.info.lastBlock
    ensures var r := SyncedThrough(env, stored, batches); var blocks := AllBlocks(batches[..r.accepted]);
            && Consecutive(stored.info.lastBlock, blocks)
            && r.stored.info.lastBlock == Capped(stored.info.lastBlock + |blocks|)
  {
    hide SyncedThrough, AllBlocks, Consecutive, LastAfter;
    SyncImports(env, stored, batches);
    InOrderIff(stored.info.lastBlock, AllBlocks(batches[..SyncedThrough(env, stored, batches).accepted]));
  }

  /** From a fresh start they import blocks 0, then one block as it comes, then the ones after it; and no block twice
      exactly when there is at most one block 0 and the counter is not exhausted. */
  lemma SyncFromNothing(env: Env, stored: Stored, batches: seq<Batch>)
    requires stored.info.lastBlock == 0
    ensures var blocks := AllBlocks(batches[..SyncedThrough(env, stored, batches).accepted]); var z := Zeros(blocks);
            && (z == |blocks| || Consecutive(blocks[z], blocks[z + 1..]))
            && (Different(blocks) <==> z <= 1 && (z < |blocks| ==> blocks[z] + (|blocks| - z - 1) <= U32_MAX))
  {
    hide SyncedThrough, AllBlocks, Consecutive, LastAfter, Different;
    var blocks := AllBlocks(batches[..SyncedThrough(env, stored, batches).accepted]);
    SyncImports(env, stored, batches);
    FreeIff(blocks);
    EachBlockOnce(blocks);
  }

  /** A batch that fails leaves the persisted state as the batches before it left it. */
  lemma {:induction false} SyncAtomic(env: Env, stored: Stored, batches: seq<Batch>)
    ensures var r := SyncedThrough(env, stored, batches);
            && SyncedThrough(env, stored, batches[..r.accepted]) == r
            && (r.accepted < |batches| ==> BatchStored(env, r.stored, batches[r.accepted]).Failed?)
    decreases |batches|
  {
    hide BatchStored;
    if batches != [] && BatchStored(env, stored, batches[0]).Done? {
      var next := BatchStored(env, stored, batches[0]).value;
      SyncAtomic(env, next, batches[1..]);
      var rest := SyncedThrough(env, next, batches[1..]);
      assert batches[..rest.accepted + 1][1..] == batches[1..][..rest.accepted];
    }
  }

  // ------------------------------------------------------------------ conservation over a run

  /** What the batch has done, for a batch that is stored. */
  function Outcome(env: Env, stored: Stored, batch: Batch): Progress
    requires BatchStored(env, stored, batch).Done?
  {
    BatchDone(env, stored.ledger, stored.info, batch).value
  }

  /** Everything the accepted batches name. */
  ghost function RunPosts(env: Env, stored: Stored, batches: seq<Batch>): seq<Post>
    decreases |batches|
  {
    if batches == [] || BatchStored(env, stored, batches[0]).Failed? then []
    else BatchPosts(env, batches[0].actions, Outcome(env, stored, batches[0]))
         + RunPosts(env, BatchStored(env, stored, batches[0]).value, batches[1..])
  }

  ghost function RunPaidOut(env: Env, stored: Stored, batches: seq<Batch>, a: Asset): int
    decreases |batches|
  {
    if batches == [] || BatchStored(env, stored, batches[0]).Failed? then 0
    else PaidOut(Outcome(env, stored, batches[0]).withdrawals, a)
         + RunPaidOut(env, BatchStored(env, stored, batches[0]).value, batches[1..], a)
  }

  ghost function RunReleased(env: Env, stored: Stored, batches: seq<Batch>, a: Asset): int
    decreases |batches|
  {
    if batches == [] || BatchStored(env, stored, batches[0]).Failed? then 0
    else Released(Outcome(env, stored, batches[0]).egress, a, a in env.allowlist)
         + RunReleased(env, BatchStored(env, stored, batches[0]).value, batches[1..], a)
  }

  /** What the ingress messages of these blocks bring in. */
  ghost function BlockCredits(env: Env, blocks: seq<BlockNumber>, a: Asset): int {
    if blocks == [] then 0
    else BlockCredits(env, blocks[..|blocks| - 1], a) + IngressCredits(env.ingressAt(blocks[|blocks| - 1]), a)
  }

  lemma {:induction false} BlockCreditsConcat(env: Env, p: seq<BlockNumber>, q: seq<BlockNumber>, a: Asset)
    ensures BlockCredits(env, p + q, a) == BlockCredits(env, p, a) + BlockCredits(env, q, a)
    decreases |q|
  {
    hide IngressCredits;
    if q == [] {
      ConcatNothing(p);
    } else {
      BlockCreditsConcat(env, p, q[..|q| - 1], a);
      assert (p + q)[..|p + q| - 1] == p + q[..|q| - 1];
    }
  }

  lemma {:induction false} BroughtInByBlocks(env: Env, actions: seq<Action>, a: Asset)
    ensures BroughtIn(env, actions, a) == BlockCredits(env, Blocks(actions), a)
  {
    hide IngressCredits;
    if actions != [] {
      var rest, last := actions[..|actions| - 1], actions[|actions| - 1];
      BroughtInByBlocks(env, rest, a);
      if last.BlockImport? {
        assert Blocks(actions)[..|Blocks(actions)| - 1] == Blocks(rest);
      } else {
        ConcatNothing(Blocks(rest));
      }
    }
  }

  /** The same for the n blocks after `from`: each block, and so each deposit in it, counts once. */
  ghost function SpanCredits(env: Env, from: nat, n: nat, a: Asset): int {
    if n == 0 then 0 else SpanCredits(env, from, n - 1, a) + IngressCredits(env.ingressAt(from + n), a)
  }

  lemma {:induction false} ConsecutiveCredits(env: Env, from: nat, blocks: seq<BlockNumber>, a: Asset)
    requires Consecutive(from, blocks) && from + |blocks| <= U32_MAX
    ensures BlockCredits(env, blocks, a) == SpanCredits(env, from, |blocks|, a)
    decreases |blocks|
  {
    hide IngressCredits;
    if blocks != [] {
      var rest := blocks[..|blocks| - 1];
      assert forall i | 0 <= i < |rest| :: rest[i] == blocks[i];
      ConsecutiveCredits(env, from, rest, a);
    }
  }

  ghost predicate SoundBatches(env: Env, batches: seq<Batch>) {
    forall i | 0 <= i < |batches| :: SoundActions(env, batches[i].actions)
  }

  /** Every balance and every total follows what the accepted batches name, over any run. */
  lemma {:induction false} SyncFollows(env: Env, stored: Stored, batches: seq<Batch>, x: Account, a: Asset)
    requires NonNegative(stored.ledger) && FairTerms(env.terms) && SoundBatches(env, batches)
    ensures var after := SyncedThrough(env, stored, batches).stored.ledger;
            NonNegative(after) && Follows(stored.ledger, RunPosts(env, stored, batches), after, x, a)
    decreases |batches|
  {
    hide NonNegative, Follows, ActionsDone, SoundActions, FairTerms, BatchPosts;
    if batches != [] && BatchStored(env, stored, batches[0]).Done? {
      var next := BatchStored(env, stored, batches[0]).value;
      ActionsFollow(env, stored.ledger, stored.info, batches[0].actions, x, a);
      SyncFollows(env, next, batches[1..], x, a);
      FollowsBoth(stored.ledger, BatchPosts(env, batches[0].actions, Outcome(env, stored, batches[0])), next.ledger,
                  RunPosts(env, next, batches[1..]), SyncedThrough(env, next, batches[1..]).stored.ledger, x, a);
    } else {
      FollowsNothing(stored.ledger, x, a);
    }
  }

  lemma BatchFlow(env: Env, stored: Stored, batch: Batch, a: Asset)
    requires Distinct(env.allowlist) && OppositeSides(batch.actions) && BatchStored(env, stored, batch).Done?
    ensures var p := Outcome(env, stored, batch);
            AssetFlow(BatchPosts(env, batch.actions, p), a)
            == BlockCredits(env, Blocks(batch.actions), a) - PaidOut(p.withdrawals, a)
               - Released(p.egress, a, a in env.allowlist)
  {
    var p := Outcome(env, stored, batch);
    var p1, p2, p3 := AllActionPosts(env, batch.actions), WithdrawalPosts(p.withdrawals), AllEgressPosts(env, p.egress);
    hide AssetFlow, ActionsDone, AllActionPosts, WithdrawalPosts, AllEgressPosts, BroughtIn, PaidOut, Released,
         OppositeSides, Blocks;
    AllActionFlow(env, Progress(stored.ledger, stored.info, [], []), batch.actions, a);
    BroughtInByBlocks(env, batch.actions, a);
    WithdrawalFlow(p.withdrawals, a);
    AllEgressFlow(env, p.egress, a);
    FlowConcat(p1, p2, 0, a);
    FlowConcat(p1 + p2, p3, 0, a);
  }

  ghost predicate AllOpposite(batches: seq<Batch>) {
    forall i | 0 <= i < |batches| :: OppositeSides(batches[i].actions)
  }

  lemma {:induction false} RunFlow(env: Env, stored: Stored, batches: seq<Batch>, a: Asset)
    requires Distinct(env.allowlist) && AllOpposite(batches)
    ensures AssetFlow(RunPosts(env, stored, batches), a)
            == BlockCredits(env, AllBlocks(batches[..SyncedThrough(env, stored, batches).accepted]), a)
               - RunPaidOut(env, stored, batches, a) - RunReleased(env, stored, batches, a)
    decreases |batches|
  {
    hide AssetFlow, BatchPosts, PaidOut, Released, OppositeSides, AllBlocks, Blocks, BlockCredits, BatchStored,
         Distinct;
    if batches != [] && BatchStored(env, stored, batches[0]).Done? {
      var next := BatchStored(env, stored, batches[0]).value;
      BatchFlow(env, stored, batches[0], a);
      RunFlow(env, next, batches[1..], a);
      SyncStep(env, stored, batches);
      var tail := batches[1..][..SyncedThrough(env, next, batches[1..]).accepted];
      AllBlocksCons(batches[0], tail);
      BlockCreditsConcat(env, Blocks(batches[0].actions), AllBlocks(tail), a);
      FlowConcat(BatchPosts(env, batches[0].actions, Outcome(env, stored, batches[0])),
                 RunPosts(env, next, batches[1..]), 0, a);
    } else {
      NoFlow(a);
      NoCredits(env, a);
      assert batches[..0] == [];
    }
  }

  lemma NoCredits(env: Env, a: Asset)
    ensures BlockCredits(env, AllBlocks([]), a) == 0
  {
  }

  /** Over any run of batches, the total of every asset is at most the first one plus what the imported blocks'
      ingress messages bring in, less all withdrawals and releases, and falls short of it only by roundings.
      From a block other than 0 those are the blocks after it, each counted once. */
  lemma SyncConserves(env: Env, stored: Stored, batches: seq<Batch>, a: Asset)
    requires NonNegative(stored.ledger) && FairTerms(env.terms) && Distinct(env.allowlist)
    requires SoundBatches(env, batches) && AllOpposite(batches)
    ensures var r := SyncedThrough(env, stored, batches); var blocks := AllBlocks(batches[..r.accepted]);
            var expected := Total(stored.ledger, a) + BlockCredits(env, blocks, a)
                            - RunPaidOut(env, stored, batches, a) - RunReleased(env, stored, batches, a);
            && NonNegative(r.stored.ledger)
            && Total(r.stored.ledger, a) <= expected
            && expected <= Total(r.stored.ledger, a) + AssetHits(RunPosts(env, stored, batches), a) * (ULP - 1)
            && (0 < stored.info.lastBlock && stored.info.lastBlock + |blocks| <= U32_MAX ==>
                  BlockCredits(env, blocks, a) == SpanCredits(env, stored.info.lastBlock, |blocks|, a))
  {
    hide AssetFlow, Flow, Hits, AssetHits, Total, NonNegative, FairTerms, SoundBatches, AllOpposite, RunPosts,
         RunPaidOut, RunReleased,
         SyncedThrough, AllBlocks, BlockCredits, SpanCredits, Consecutive;
    SyncFollows(env, stored, batches, 0, a);
    RunFlow(env, stored, batches, a);
    if 0 < stored.info.lastBlock {
      SyncInOrder(env, stored, batches);
      var blocks := AllBlocks(batches[..SyncedThrough(env, stored, batches).accepted]);
      if stored.info.lastBlock + |blocks| <= U32_MAX {
        ConsecutiveCredits(env, stored.info.lastBlock, blocks, a);
      }
    }
  }
}
