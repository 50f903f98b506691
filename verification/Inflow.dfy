/**
  What can raise the total of an asset: with fair messages only what ingress brings in, and how
  that compares with what custody was paid.
 */
module Inflow {
  import opened ByteStrings
  import opened Settlement
  import opened Accounting
  import opened BatchReplay
  import opened ReplayProperties

  /** The fraction of a pool to burn is a quotient of amounts. */
  ghost predicate FairFraction(msg: Ingress) {
    msg.RemoveLiquidity? ==> msg.burnFraction >= 0
  }

  ghost predicate FairFractions(env: Env, actions: seq<Action>) {
    forall i | 0 <= i < |actions| && actions[i].BlockImport? :: AllFair(env.ingressAt(actions[i].block))
  }

  ghost predicate AllFair(msgs: seq<Ingress>) {
    forall i | 0 <= i < |msgs| :: FairFraction(msgs[i])
  }

  lemma {:induction false} FeesNotNegative(ledger: Ledger, pot: Account, assets: seq<Asset>, fees: map<Asset, int>,
                                           a: Asset)
    requires NonNegative(ledger) && FeesTaken(ledger, pot, assets, fees).Done? && a in assets && a in fees
    ensures fees[a] >= 0
    decreases |assets|
  {
    var rest, asset := assets[..|assets| - 1], assets[|assets| - 1];
    if asset == a {
      FeesFollow(ledger, pot, rest, fees, 0, a);
      var before := FeesTaken(ledger, pot, rest, fees).value;
      RoundOffBounds(Balance(before, pot, a));
      hide RoundOff, FeesTaken;
      BalanceNotNegative(before, pot, a);
    } else {
      hide RoundOff;
      FeesNotNegative(ledger, pot, rest, fees, a);
    }
  }

  lemma BalanceNotNegative(ledger: Ledger, x: Account, a: Asset)
    requires NonNegative(ledger)
    ensures Balance(ledger, x, a) >= 0
  {
  }

  lemma OneRelease(msg: Egress, a: Asset, listed: bool)
    ensures Released([msg], a, listed) == Release(msg, a, listed)
  {
    assert [msg][..0] == [];
  }

  lemma RemovalReleases(env: Env, ledger: Ledger, msg: Ingress, engine: Engine, a: Asset, listed: bool)
    requires NonNegative(ledger) && FairTerms(env.terms) && msg.RemoveLiquidity? && FairFraction(msg)
    requires LiquidityRemoved(env, ledger, msg, engine).Done?
    ensures Released(LiquidityRemoved(env, ledger, msg, engine).value.egress, a, listed) >= 0
  {
    BalanceNotNegative(ledger, msg.pool, msg.market.base);
    BalanceNotNegative(ledger, msg.pool, msg.market.quote);
    hide Debited, NonNegative, Balance;
    OneRelease(engine[msg], a, listed);
  }

  lemma ClosureReleases(ledger: Ledger, market: Market, pool: Account, a: Asset, listed: bool)
    requires NonNegative(ledger) && PoolClosed(ledger, market, pool).Done?
    ensures Released(PoolClosed(ledger, market, pool).value.egress, a, listed) >= 0
  {
    BalanceNotNegative(ledger, pool, market.base);
    BalanceNotNegative(ledger, pool, market.quote);
    hide Debited, NonNegative, Balance;
    OneRelease(PoolForceClosed(market, pool, Balance(ledger, pool, market.base), Balance(ledger, pool, market.quote)),
               a, listed);
  }

  lemma FeesRelease(env: Env, ledger: Ledger, engine: Engine, a: Asset)
    requires NonNegative(ledger) && FeesWithdrawn(env, ledger, engine).Done?
    ensures Released(FeesWithdrawn(env, ledger, engine).value.egress, a, a in env.allowlist) >= 0
  {
    hide FeesTaken, NonNegative;
    var reply := engine[WithdrawTradingFees];
    OneRelease(reply, a, a in env.allowlist);
    if a in env.allowlist && a in reply.fees {
      FeesNotNegative(ledger, env.terms.pot, env.allowlist, reply.fees, a);
    }
  }

  /** What a message releases is not negative. */
  lemma MessageReleases(env: Env, ledger: Ledger, msg: Ingress, engine: Engine, a: Asset)
    requires NonNegative(ledger) && FairTerms(env.terms) && FairFraction(msg)
             && MessageImported(env, ledger, msg, engine).Done?
    ensures Released(MessageImported(env, ledger, msg, engine).value.egress, a, a in env.allowlist) >= 0
  {
    hide Credited, NonNegative, FairTerms, FairFraction, LiquidityRemoved, PoolClosed, FeesWithdrawn;
    match msg
    case AddLiquidity(_, _, _, _, _, _) => OneRelease(engine[msg], a, a in env.allowlist);
    case RemoveLiquidity(_, _, _, _, _) => RemovalReleases(env, ledger, msg, engine, a, a in env.allowlist);
    case ForceClosePool(market, pool) => ClosureReleases(ledger, market, pool, a, a in env.allowlist);
    case WithdrawTradingFees => FeesRelease(env, ledger, engine, a);
    case _ =>
  }

  lemma {:induction false} ReleasedConcat(p: seq<Egress>, q: seq<Egress>, a: Asset, listed: bool)
    ensures Released(p + q, a, listed) == Released(p, a, listed) + Released(q, a, listed)
    decreases |q|
  {
    hide Release;
    if q == [] {
      ConcatNothing(p);
    } else {
      ReleasedConcat(p, q[..|q| - 1], a, listed);
      assert (p + q)[..|p + q| - 1] == p + q[..|q| - 1];
    }
  }

  lemma {:induction false} MessagesRelease(env: Env, ledger: Ledger, msgs: seq<Ingress>, engine: Engine, a: Asset)
    requires NonNegative(ledger) && FairTerms(env.terms) && (forall i | 0 <= i < |msgs| :: SoundIngress(msgs[i]))
             && AllFair(msgs)
    requires MessagesImported(env, ledger, msgs, engine).Done?
    ensures Released(MessagesImported(env, ledger, msgs, engine).value.egress, a, a in env.allowlist) >= 0
    decreases |msgs|
  {
    if msgs != [] {
      hide NonNegative, FairTerms, SoundIngress, FairFraction, MessageImported, Released, Follows;
      var rest := msgs[..|msgs| - 1];
      MessagesRelease(env, ledger, rest, engine, a);
      MessagesFollow(env, ledger, rest, engine, 0, a);
      var before := MessagesImported(env, ledger, rest, engine).value;
      MessageReleases(env, before.ledger, msgs[|msgs| - 1], engine, a);
      ReleasedConcat(before.egress, MessageImported(env, before.ledger, msgs[|msgs| - 1], engine).value.egress, a,
                     a in env.allowlist);
    }
  }

  lemma ActionReleases(env: Env, p: Progress, action: Action, a: Asset)
    requires NonNegative(p.ledger) && FairTerms(env.terms) && SoundAction(env, action)
             && ActionDone(env, p, action).Done?
    requires action.BlockImport? ==> AllFair(env.ingressAt(action.block))
    ensures Released(ActionDone(env, p, action).value.egress, a, a in env.allowlist)
            >= Released(p.egress, a, a in env.allowlist)
  {
    hide NonNegative, FairTerms, SoundIngress, AllFair, TradesSettled, MessagesImported, RequestPaid;
    if action.BlockImport? {
      var listed := a in env.allowlist;
      MessagesRelease(env, p.ledger, env.ingressAt(action.block), action.engine, a);
      var out := MessagesImported(env, p.ledger, env.ingressAt(action.block), action.engine).value;
      assert [PriceOracle(action.prices)][..0] == [];
      assert Released([PriceOracle(action.prices)], a, listed) == 0;
      hide Released;
      ReleasedConcat(p.egress, out.egress, a, listed);
      ReleasedConcat(p.egress + out.egress, [PriceOracle(action.prices)], a, listed);
    }
  }

  /** No release of a batch is negative. */
  lemma {:induction false} ReleasesNotNegative(env: Env, ledger: Ledger, info: Info, actions: seq<Action>, a: Asset)
    requires NonNegative(ledger) && FairTerms(env.terms) && SoundActions(env, actions) && FairFractions(env, actions)
    requires ActionsDone(env, Progress(ledger, info, [], []), actions).Done?
    ensures Released(ActionsDone(env, Progress(ledger, info, [], []), actions).value.egress, a, a in env.allowlist) >= 0
    decreases |actions|
  {
    if actions != [] {
      hide NonNegative, FairTerms, SoundAction, ActionDone, Released, AllFair, Follows;
      var rest := actions[..|actions| - 1];
      assert SoundActions(env, rest) && FairFractions(env, rest);
      ReleasesNotNegative(env, ledger, info, rest, a);
      ActionsFollow(env, ledger, info, rest, 0, a);
      ActionReleases(env, ActionsDone(env, Progress(ledger, info, [], []), rest).value, actions[|actions| - 1], a);
    }
  }

  /** Neither a request nor a fraction is negative. */
  ghost predicate FairActions(env: Env, actions: seq<Action>) {
    FairRequests(actions) && FairFractions(env, actions)
  }

  /** Then nothing but the ingress messages raises a total. */
  lemma OnlyIngressRaises(env: Env, ledger: Ledger, info: Info, batch: Batch, a: Asset)
    requires NonNegative(ledger) && FairTerms(env.terms) && Distinct(env.allowlist)
    requires SoundActions(env, batch.actions) && OppositeSides(batch.actions) && FairActions(env, batch.actions)
    requires BatchDone(env, ledger, info, batch).Done?
    ensures var p := BatchDone(env, ledger, info, batch).value;
            && PaidOut(p.withdrawals, a) >= 0 && Released(p.egress, a, a in env.allowlist) >= 0
            && Total(p.ledger, a) <= Total(ledger, a) + BroughtIn(env, batch.actions, a)
  {
    hide ActionsDone, Total, NonNegative, BroughtIn, PaidOut, Released, SoundActions, OppositeSides, FairTerms,
         Distinct, FairRequests, FairFractions, AssetHits;
    BatchConserves(env, ledger, info, batch, a);
    PaymentsNotNegative(env, ledger, info, batch.actions, a);
    ReleasesNotNegative(env, ledger, info, batch.actions, a);
  }

  ghost predicate FairBatches(env: Env, batches: seq<Batch>) {
    forall i | 0 <= i < |batches| :: FairActions(env, batches[i].actions)
  }

  lemma {:induction false} RunPaysForward(env: Env, stored: Stored, batches: seq<Batch>, a: Asset)
    requires NonNegative(stored.ledger) && FairTerms(env.terms) && Distinct(env.allowlist)
    requires SoundBatches(env, batches) && AllOpposite(batches) && FairBatches(env, batches)
    ensures RunPaidOut(env, stored, batches, a) >= 0 && RunReleased(env, stored, batches, a) >= 0
    decreases |batches|
  {
    if batches != [] && BatchStored(env, stored, batches[0]).Done? {
      hide ActionsDone, NonNegative, FairTerms, SoundActions, OppositeSides, FairActions, PaidOut, Released, Follows,
           Total, Distinct;
      OnlyIngressRaises(env, stored.ledger, stored.info, batches[0], a);
      ActionsFollow(env, stored.ledger, stored.info, batches[0].actions, 0, a);
      RunPaysForward(env, BatchStored(env, stored, batches[0]).value, batches[1..], a);
    }
  }

  /** Over any run of fair batches nothing but the ingress messages of the imported blocks raises a total. */
  lemma SyncOnlyIngressRaises(env: Env, stored: Stored, batches: seq<Batch>, a: Asset)
    requires NonNegative(stored.ledger) && FairTerms(env.terms) && Distinct(env.allowlist)
    requires SoundBatches(env, batches) && AllOpposite(batches) && FairBatches(env, batches)
    ensures var r := SyncedThrough(env, stored, batches);
            Total(r.stored.ledger, a) <= Total(stored.ledger, a)
                + BlockCredits(env, AllBlocks(batches[..r.accepted]), a)
  {
    hide Total, NonNegative, FairTerms, Distinct, SoundBatches, AllOpposite, FairBatches, RunPosts, RunPaidOut,
         RunReleased, SyncedThrough, AllBlocks, BlockCredits, AssetHits;
    SyncConserves(env, stored, batches, a);
    RunPaysForward(env, stored, batches, a);
  }

  // ------------------------------------------------------------------ what custody was paid

  /** The smallest amount on chain, in units of 10^-28: amounts there have twelve decimals. */
  const PLANCK: int := 10_000_000_000_000_000

  /** What is asked of the chain: a user's deposit, liquidity given to a pool, or anything that credits nothing. */
  datatype Call =
    | UserDeposit(id: nat, main: Account, asset: Asset, plancks: nat)
    | PoolDeposit(market: Market, pool: Account, lp: Account, totalShares: int, base: nat, quote: nat, baseId: nat,
                  quoteId: nat)
    | OtherCall(msg: Ingress)

  /** Decimal amounts are cut to whole plancks before they are transferred. */
  function Transferred(amount: nat): nat {
    amount / PLANCK * PLANCK
  }

  /** The ingress messages a call queues: giving liquidity deposits both amounts and then names them once more. */
  function Queued(call: Call): seq<Ingress> {
    match call
    case UserDeposit(id, main, asset, plancks) => [Deposit(id, main, asset, plancks * PLANCK)]
    case PoolDeposit(market, pool, lp, totalShares, base, quote, baseId, quoteId) =>
      [Deposit(baseId, pool, market.base, Transferred(base))]
      + [Deposit(quoteId, pool, market.quote, Transferred(quote))]
      + [AddLiquidity(market, pool, lp, totalShares, base, quote)]
    case OtherCall(msg) => if msg.Deposit? || msg.AddLiquidity? then [] else [msg]
  }

  function AllQueued(calls: seq<Call>): seq<Ingress> {
    if calls == [] then [] else AllQueued(calls[..|calls| - 1]) + Queued(calls[|calls| - 1])
  }

  /** What a call transfers to custody. */
  function PaidIn(call: Call, a: Asset): int {
    match call
    case UserDeposit(_, _, asset, plancks) => If(asset == a, plancks * PLANCK)
    case PoolDeposit(market, _, _, _, base, quote, _, _) =>
      If(market.base == a, Transferred(base)) + If(market.quote == a, Transferred(quote))
    case OtherCall(_) => 0
  }

  function AllPaidIn(calls: seq<Call>, a: Asset): int {
    if calls == [] then 0 else AllPaidIn(calls[..|calls| - 1], a) + PaidIn(calls[|calls| - 1], a)
  }

  /** The liquidity a call names. */
  function Liquidity(call: Call, a: Asset): nat {
    match call
    case PoolDeposit(market, _, _, _, base, quote, _, _) => If(market.base == a, base) + If(market.quote == a, quote)
    case _ => 0
  }

  function AllLiquidity(calls: seq<Call>, a: Asset): nat {
    if calls == [] then 0 else AllLiquidity(calls[..|calls| - 1], a) + Liquidity(calls[|calls| - 1], a)
  }

  lemma {:induction false} CreditsConcat(p: seq<Ingress>, q: seq<Ingress>, a: Asset)
    ensures IngressCredits(p + q, a) == IngressCredits(p, a) + IngressCredits(q, a)
    decreases |q|
  {
    hide IngressCredit;
    if q == [] {
      ConcatNothing(p);
    } else {
      CreditsConcat(p, q[..|q| - 1], a);
      assert (p + q)[..|p + q| - 1] == p + q[..|q| - 1];
    }
  }

  lemma OneCredit(msg: Ingress, a: Asset)
    ensures IngressCredits([msg], a) == IngressCredit(msg, a)
  {
    assert [msg][..0] == [];
  }

  lemma QueuedCredits(call: Call, a: Asset)
    ensures IngressCredits(Queued(call), a) == PaidIn(call, a) + Liquidity(call, a)
  {
    match call
    case UserDeposit(_, _, _, _) => OneCredit(Queued(call)[0], a);
    case OtherCall(msg) => OneCredit(msg, a);
    case PoolDeposit(market, pool, lp, totalShares, base, quote, baseId, quoteId) =>
      var p := Deposit(baseId, pool, market.base, Transferred(base));
      var q := Deposit(quoteId, pool, market.quote, Transferred(quote));
      var r := AddLiquidity(market, pool, lp, totalShares, base, quote);
      hide IngressCredits, Transferred;
      CreditsConcat([p] + [q], [r], a);
      CreditsConcat([p], [q], a);
      OneCredit(p, a);
      OneCredit(q, a);
      OneCredit(r, a);
  }

  /** What ingress credits is what custody was paid, and the liquidity once more: the two agree exactly when no
      call names liquidity in the asset. */
  lemma {:induction false} LiquidityCountsTwice(calls: seq<Call>, a: Asset)
    ensures IngressCredits(AllQueued(calls), a) == AllPaidIn(calls, a) + AllLiquidity(calls, a)
    ensures IngressCredits(AllQueued(calls), a) <= AllPaidIn(calls, a)
            <==> forall i | 0 <= i < |calls| :: Liquidity(calls[i], a) == 0
    decreases |calls|
  {
    hide Queued, PaidIn, Liquidity, IngressCredits;
    if calls == [] {
      assert IngressCredits([], a) == 0 by { EmptyCredits(a); }
    } else {
      var rest, last := calls[..|calls| - 1], calls[|calls| - 1];
      LiquidityCountsTwice(rest, a);
      CreditsConcat(AllQueued(rest), Queued(last), a);
      QueuedCredits(last, a);
      assert forall i | 0 <= i < |rest| :: rest[i] == calls[i];
      assert (forall i | 0 <= i < |calls| :: Liquidity(calls[i], a) == 0)
             <==> (forall i | 0 <= i < |rest| :: Liquidity(rest[i], a) == 0) && Liquidity(last, a) == 0;
    }
  }

  lemma EmptyCredits(a: Asset)
    ensures IngressCredits([], a) == 0
  {
  }

  /** The imported messages are what the calls made in those blocks queued. */
  ghost predicate Queues(env: Env, callsAt: nat -> seq<Call>) {
    forall n: nat :: env.ingressAt(n) == AllQueued(callsAt(n))
  }

  ghost function BlocksPaidIn(callsAt: nat -> seq<Call>, blocks: seq<BlockNumber>, a: Asset): int {
    if blocks == [] then 0
    else BlocksPaidIn(callsAt, blocks[..|blocks| - 1], a) + AllPaidIn(callsAt(blocks[|blocks| - 1]), a)
  }

  ghost function BlocksLiquidity(callsAt: nat -> seq<Call>, blocks: seq<BlockNumber>, a: Asset): nat {
    if blocks == [] then 0
    else BlocksLiquidity(callsAt, blocks[..|blocks| - 1], a) + AllLiquidity(callsAt(blocks[|blocks| - 1]), a)
  }

  lemma {:induction false} BlocksCredit(env: Env, callsAt: nat -> seq<Call>, blocks: seq<BlockNumber>, a: Asset)
    requires Queues(env, callsAt)
    ensures BlockCredits(env, blocks, a) == BlocksPaidIn(callsAt, blocks, a) + BlocksLiquidity(callsAt, blocks, a)
    decreases |blocks|
  {
    hide AllQueued, AllPaidIn, AllLiquidity, IngressCredits, Liquidity;
    if blocks != [] {
      BlocksCredit(env, callsAt, blocks[..|blocks| - 1], a);
      LiquidityCountsTwice(callsAt(blocks[|blocks| - 1]), a);
    }
  }

  /** Over any run of fair batches the total exceeds what custody was paid, less what the run paid out and
      released, by no more than the liquidity named; so with none named custody covers the total. */
  lemma CustodyCovers(env: Env, stored: Stored, batches: seq<Batch>, callsAt: nat -> seq<Call>, a: Asset)
    requires NonNegative(stored.ledger) && FairTerms(env.terms) && Distinct(env.allowlist)
    requires SoundBatches(env, batches) && AllOpposite(batches) && Queues(env, callsAt)
    ensures var r := SyncedThrough(env, stored, batches); var blocks := AllBlocks(batches[..r.accepted]);
            Total(r.stored.ledger, a) <= Total(stored.ledger, a) + BlocksPaidIn(callsAt, blocks, a)
              - RunPaidOut(env, stored, batches, a) - RunReleased(env, stored, batches, a)
              + BlocksLiquidity(callsAt, blocks, a)
  {
    hide Total, NonNegative, FairTerms, Distinct, SoundBatches, AllOpposite, Queues, RunPosts, RunPaidOut, RunReleased,
         SyncedThrough, AllBlocks, BlockCredits, BlocksPaidIn, BlocksLiquidity, AssetHits, SpanCredits;
    SyncConserves(env, stored, batches, a);
    BlocksCredit(env, callsAt, AllBlocks(batches[..SyncedThrough(env, stored, batches).accepted]), a);
  }

  /** One unit of each asset of a market is given to a pool: custody is paid one, ingress credits two. */
  lemma OnePoolDeposit(market: Market, pool: Account, lp: Account, call: Call)
    requires market.base != market.quote && call == PoolDeposit(market, pool, lp, 0, ONE, ONE, 1, 2)
    ensures PaidIn(call, market.base) == ONE && IngressCredits(Queued(call), market.base) == 2 * ONE
  {
    QueuedCredits(call, market.base);
    hide IngressCredits;
  }
}
