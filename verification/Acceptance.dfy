/**
  What the worker accepts, and what an accepted action pays: the conditions under which a block,
  a trade, a withdrawal, a pool's closure and a fee reply go through, and their outcome.
 */
module Acceptance {
  import opened ByteStrings
  import opened Settlement
  import opened Accounting
  import opened TradeOutcome
  import opened BatchReplay
  import opened ReplayProperties

  // ------------------------------------------------------------------ blocks

  /** Messages that need no reply: deposits, epoch notices and those that are passed over. */
  predicate Quiet(msg: Ingress) {
    msg.Deposit? || msg.NewLMPEpoch? || msg.OtherIngress?
  }

  predicate AllQuiet(msgs: seq<Ingress>) {
    forall i | 0 <= i < |msgs| :: Quiet(msgs[i])
  }

  /** What the messages deposit for an account, and how many times. */
  function DepositedBy(msgs: seq<Ingress>, x: Account, a: Asset): int {
    if msgs == [] then 0
    else
      var msg := msgs[|msgs| - 1];
      DepositedBy(msgs[..|msgs| - 1], x, a)
      + if msg.Deposit? && msg.main == x && msg.asset == a then msg.amount else 0
  }

  function DepositsBy(msgs: seq<Ingress>, x: Account, a: Asset): nat {
    if msgs == [] then 0
    else
      var msg := msgs[|msgs| - 1];
      DepositsBy(msgs[..|msgs| - 1], x, a) + If(msg.Deposit? && msg.main == x && msg.asset == a, 1)
  }

  ghost predicate AllSound(msgs: seq<Ingress>) {
    forall i | 0 <= i < |msgs| :: SoundIngress(msgs[i])
  }

  lemma {:induction false} QuietImported(env: Env, ledger: Ledger, msgs: seq<Ingress>, engine: Engine)
    requires AllQuiet(msgs)
    ensures var r := MessagesImported(env, ledger, msgs, engine); r.Done? && r.value.egress == []
    decreases |msgs|
  {
    hide Credited;
    if msgs != [] {
      QuietImported(env, ledger, msgs[..|msgs| - 1], engine);
    }
  }

  /** Quiet messages credit every deposit to its account, to a rounding each. */
  lemma {:induction false} QuietCredits(env: Env, ledger: Ledger, msgs: seq<Ingress>, engine: Engine, x: Account,
                                        a: Asset)
    requires AllQuiet(msgs) && AllSound(msgs) && NonNegative(ledger)
             && MessagesImported(env, ledger, msgs, engine).Done?
    ensures var after := MessagesImported(env, ledger, msgs, engine).value.ledger;
            && NonNegative(after)
            && Near(Balance(ledger, x, a), DepositedBy(msgs, x, a), Balance(after, x, a), DepositsBy(msgs, x, a))
    decreases |msgs|
  {
    hide Credited, NonNegative, Balance;
    if msgs != [] {
      var rest, msg := msgs[..|msgs| - 1], msgs[|msgs| - 1];
      QuietCredits(env, ledger, rest, engine, x, a);
      if msg.Deposit? {
        assert SoundIngress(msg);
        CreditNear(MessagesImported(env, ledger, rest, engine).value.ledger, msg.main, msg.asset, msg.amount, x, a);
      }
    }
  }

  lemma CreditNear(ledger: Ledger, account: Account, asset: Asset, amount: int, x: Account, a: Asset)
    requires NonNegative(ledger) && amount >= 0
    ensures var after := Credited(ledger, account, asset, amount); var hit := account == x && asset == a;
            NonNegative(after) && Near(Balance(ledger, x, a), If(hit, amount), Balance(after, x, a), If(hit, 1))
  {
    CreditFollows(ledger, Post(account, asset, amount), x, a);
    OnePost(Post(account, asset, amount), x, a);
    hide Flow, Hits, AssetFlow, AssetHits, Total, Credited, NonNegative, Balance;
  }

  /** A block of quiet messages is imported exactly when it is the next one, or the worker has imported none yet. */
  lemma BlockAcceptedIff(env: Env, p: Progress, block: BlockNumber, engine: Engine, prices: map<(Asset, Asset), int>)
    requires AllQuiet(env.ingressAt(block))
    ensures var r := ActionDone(env, p, BlockImport(block, engine, prices)); var last := p.info.lastBlock;
            && (r.Done? <==> last == 0 || block == (if last == U32_MAX then last else last + 1))
            && (r.Done? ==> && r.value.info == p.info.(lastBlock := block) && r.value.withdrawals == p.withdrawals
                            && r.value.egress == p.egress + [PriceOracle(prices)]
                            && r.value.ledger
                               == MessagesImported(env, p.ledger, env.ingressAt(block), engine).value.ledger)
  {
    QuietImported(env, p.ledger, env.ingressAt(block), engine);
    hide MessagesImported;
    ConcatNothing(p.egress);
  }

  /** A batch of nothing but quiet blocks, and of actions that do nothing. */
  ghost predicate QuietAction(env: Env, action: Action) {
    action.Reset? || action.OneMinLMPReport? || (action.BlockImport? && AllQuiet(env.ingressAt(action.block)))
  }

  ghost predicate QuietActions(env: Env, actions: seq<Action>) {
    forall i | 0 <= i < |actions| :: QuietAction(env, actions[i])
  }

  lemma BlocksNext(actions: seq<Action>)
    requires actions != []
    ensures var last := actions[|actions| - 1]; var rest := actions[..|actions| - 1];
            if last.BlockImport? then Blocks(actions) != [] && Blocks(actions)[..|Blocks(actions)| - 1] == Blocks(rest)
                                      && Blocks(actions)[|Blocks(actions)| - 1] == last.block
            else Blocks(actions) == Blocks(rest)
  {
    ConcatNothing(Blocks(actions[..|actions| - 1]));
  }

  /** Such a batch goes through exactly when its blocks come in order. */
  lemma {:induction false} ImportsIff(env: Env, p: Progress, actions: seq<Action>)
    requires QuietActions(env, actions)
    ensures ActionsDone(env, p, actions).Done? <==> LastAfter(p.info.lastBlock, Blocks(actions)).Some?
    decreases |actions|
  {
    hide ActionDone, QuietAction, Blocks;
    if actions == [] {
      NoneInOrder(p.info.lastBlock);
    } else {
      var rest, last := actions[..|actions| - 1], actions[|actions| - 1];
      BlocksNext(actions);
      assert QuietAction(env, last);
      ImportsIff(env, p, rest);
      if ActionsDone(env, p, rest).Done? {
        ActionsImport(env, p, rest);
        QuietDone(env, ActionsDone(env, p, rest).value, last);
      }
    }
  }

  lemma NoneInOrder(last: BlockNumber)
    ensures Blocks([]) == [] && LastAfter(last, []).Some?
  {
  }

  lemma QuietDone(env: Env, p: Progress, action: Action)
    requires QuietAction(env, action)
    ensures ActionDone(env, p, action).Done?
            <==> action.BlockImport? && p.info.lastBlock != 0 ==>
                   action.block == (if p.info.lastBlock == U32_MAX then U32_MAX else p.info.lastBlock + 1)
  {
    if action.BlockImport? {
      BlockAcceptedIff(env, p, action.block, action.engine, action.prices);
      hide MessagesImported;
    }
  }

  /** What the messages of these blocks deposit for an account, and how many times. */
  ghost function DepositedIn(env: Env, blocks: seq<BlockNumber>, x: Account, a: Asset): int {
    if blocks == [] then 0
    else DepositedIn(env, blocks[..|blocks| - 1], x, a) + DepositedBy(env.ingressAt(blocks[|blocks| - 1]), x, a)
  }

  ghost function DepositsIn(env: Env, blocks: seq<BlockNumber>, x: Account, a: Asset): nat {
    if blocks == [] then 0
    else DepositsIn(env, blocks[..|blocks| - 1], x, a) + DepositsBy(env.ingressAt(blocks[|blocks| - 1]), x, a)
  }

  /** Going from one ledger to the next credits what these blocks deposit. */
  ghost predicate Credits(env: Env, ledger: Ledger, blocks: seq<BlockNumber>, after: Ledger, x: Account, a: Asset) {
    Near(Balance(ledger, x, a), DepositedIn(env, blocks, x, a), Balance(after, x, a), DepositsIn(env, blocks, x, a))
  }

  lemma QuietActionCredits(env: Env, p: Progress, action: Action, x: Account, a: Asset)
    requires QuietAction(env, action) && SoundAction(env, action) && NonNegative(p.ledger)
    requires ActionDone(env, p, action).Done?
    ensures var q := ActionDone(env, p, action).value;
            && NonNegative(q.ledger) && q.withdrawals == p.withdrawals
            && (if action.BlockImport? then
                  Near(Balance(p.ledger, x, a), DepositedBy(env.ingressAt(action.block), x, a), Balance(q.ledger, x, a),
                       DepositsBy(env.ingressAt(action.block), x, a))
                else q.ledger == p.ledger)
  {
    hide NonNegative, Balance, DepositedBy, DepositsBy;
    if action.BlockImport? {
      BlockAcceptedIff(env, p, action.block, action.engine, action.prices);
      QuietImported(env, p.ledger, env.ingressAt(action.block), action.engine);
      hide MessagesImported;
      QuietCredits(env, p.ledger, env.ingressAt(action.block), action.engine, x, a);
    }
  }

  lemma {:induction false} QuietActionsCredit(env: Env, p: Progress, actions: seq<Action>, x: Account, a: Asset)
    requires QuietActions(env, actions) && SoundActions(env, actions) && NonNegative(p.ledger)
    requires ActionsDone(env, p, actions).Done?
    ensures var q := ActionsDone(env, p, actions).value;
            NonNegative(q.ledger) && q.withdrawals == p.withdrawals
                && Credits(env, p.ledger, Blocks(actions), q.ledger, x, a)
    decreases |actions|
  {
    hide ActionDone, QuietAction, SoundAction, NonNegative, Balance, Blocks, DepositedBy, DepositsBy;
    if actions == [] {
      NoneInOrder(p.info.lastBlock);
    } else {
      var rest, last := actions[..|actions| - 1], actions[|actions| - 1];
      BlocksNext(actions);
      QuietActionsCredit(env, p, rest, x, a);
      assert QuietAction(env, last) && SoundAction(env, last);
      QuietActionCredits(env, ActionsDone(env, p, rest).value, last, x, a);
    }
  }

  ghost predicate QuietBatches(env: Env, batches: seq<Batch>) {
    forall i | 0 <= i < |batches| :: QuietActions(env, batches[i].actions)
  }

  lemma {:induction false} DepositsConcat(env: Env, p: seq<BlockNumber>, q: seq<BlockNumber>, x: Account, a: Asset)
    ensures DepositedIn(env, p + q, x, a) == DepositedIn(env, p, x, a) + DepositedIn(env, q, x, a)
    ensures DepositsIn(env, p + q, x, a) == DepositsIn(env, p, x, a) + DepositsIn(env, q, x, a)
    decreases |q|
  {
    hide DepositedBy, DepositsBy;
    if q == [] {
      ConcatNothing(p);
    } else {
      DepositsConcat(env, p, q[..|q| - 1], x, a);
      assert (p + q)[..|p + q| - 1] == p + q[..|q| - 1];
    }
  }

  lemma CreditsBoth(env: Env, l0: Ledger, p: seq<BlockNumber>, l1: Ledger, q: seq<BlockNumber>, l2: Ledger, x: Account,
                    a: Asset)
    requires Credits(env, l0, p, l1, x, a) && Credits(env, l1, q, l2, x, a)
    ensures Credits(env, l0, p + q, l2, x, a)
  {
    hide DepositedIn, DepositsIn, Balance;
    DepositsConcat(env, p, q, x, a);
  }

  /** Signed batches of quiet blocks are all stored exactly when their ids increase and their blocks come in order. */
  lemma {:induction false} BatchesStoredIff(env: Env, stored: Stored, batches: seq<Batch>)
    requires QuietBatches(env, batches) && forall i | 0 <= i < |batches| :: batches[i].signed
    ensures SyncedThrough(env, stored, batches).accepted == |batches|
            <==> Increasing(stored.info.stid, batches) && LastAfter(stored.info.lastBlock, AllBlocks(batches)).Some?
    decreases |batches|
  {
    hide QuietActions, Blocks, AllBlocks, LastAfter, ActionsDone, Increasing;
    if batches == [] {
      NoBlocks(stored.info.lastBlock);
      NoneIncrease(stored.info.stid);
    } else {
      var batch, rest := batches[0], batches[1..];
      assert batches == [batch] + rest;
      AllBlocksCons(batch, rest);
      IncreasingCons(stored.info.stid, batch, rest);
      assert QuietActions(env, batch.actions) && batch.signed;
      var start := Progress(stored.ledger, stored.info, [], []);
      ImportsIff(env, start, batch.actions);
      LastAfterPart(stored.info.lastBlock, Blocks(batch.actions), AllBlocks(rest));
      var next := BatchStored(env, stored, batch);
      if next.Done? {
        ActionsImport(env, start, batch.actions);
        LastAfterConcat(stored.info.lastBlock, Blocks(batch.actions), AllBlocks(rest));
        BatchesStoredIff(env, next.value, rest);
      }
    }
  }

  /** A stored batch leaves its ids and what its actions leave; one that is not signed, or whose id is not greater, is
      refused. */
  lemma BatchStoredIs(env: Env, stored: Stored, batch: Batch)
    ensures var r := BatchStored(env, stored, batch);
            var p := ActionsDone(env, Progress(stored.ledger, stored.info, [], []), batch.actions);
            && (r.Done? <==> batch.signed && batch.stid > stored.info.stid && p.Done?)
            && (r.Done? ==> && r.value.ledger == p.value.ledger && r.value.info.lastBlock == p.value.info.lastBlock
                            && r.value.info.stid == batch.stid && r.value.info.snapshotId == batch.snapshotId)
  {
    hide ActionsDone;
  }

  lemma NoneIncrease(from: nat)
    ensures Increasing(from, [])
  {
  }

  lemma IncreasingCons(from: nat, batch: Batch, rest: seq<Batch>)
    ensures Increasing(from, [batch] + rest) <==> batch.stid > from && Increasing(batch.stid, rest)
  {
    var all := [batch] + rest;
    assert forall i: nat | i < |rest| ::
             rest[i] == all[i + 1] && IdBefore(batch.stid, rest, i) == IdBefore(from, all, i + 1);
    assert forall i: nat | 0 < i < |all| :: all[i] == rest[i - 1];
    assert IdBefore(from, all, 0) == from;
    if batch.stid > from && Increasing(batch.stid, rest) {
      forall i: nat | i < |all|
        ensures all[i].stid > IdBefore(from, all, i)
      {
        assert i > 0 ==> rest[i - 1].stid > IdBefore(batch.stid, rest, i - 1);
      }
    }
  }

  lemma {:induction false} LastAfterPart(last: BlockNumber, a: seq<BlockNumber>, b: seq<BlockNumber>)
    ensures LastAfter(last, a).None? ==> LastAfter(last, a + b).None?
    decreases |b|
  {
    if b == [] {
      ConcatNothing(a);
    } else {
      LastAfterPart(last, a, b[..|b| - 1]);
      assert (a + b)[..|a + b| - 1] == a + b[..|b| - 1];
    }
  }

  lemma {:induction false} BatchesCredit(env: Env, stored: Stored, batches: seq<Batch>, x: Account, a: Asset)
    requires QuietBatches(env, batches) && SoundBatches(env, batches) && NonNegative(stored.ledger)
    ensures var r := SyncedThrough(env, stored, batches);
            Credits(env, stored.ledger, AllBlocks(batches[..r.accepted]), r.stored.ledger, x, a)
    decreases |batches|
  {
    hide QuietActions, SoundActions, Blocks, AllBlocks, ActionsDone, NonNegative, Credits;
    if batches != [] && BatchStored(env, stored, batches[0]).Done? {
      var next := BatchStored(env, stored, batches[0]).value;
      assert QuietActions(env, batches[0].actions) && SoundActions(env, batches[0].actions);
      QuietActionsCredit(env, Progress(stored.ledger, stored.info, [], []), batches[0].actions, x, a);
      BatchesCredit(env, next, batches[1..], x, a);
      SyncStep(env, stored, batches);
      var tail := batches[1..][..SyncedThrough(env, next, batches[1..]).accepted];
      hide SyncedThrough, BatchStored;
      AllBlocksCons(batches[0], tail);
      CreditsBoth(env, stored.ledger, Blocks(batches[0].actions), next.ledger, AllBlocks(tail),
                  SyncedThrough(env, next, batches[1..]).stored.ledger, x, a);
    } else {
      NothingCredited(env, stored.ledger, x, a);
    }
  }

  lemma NothingCredited(env: Env, ledger: Ledger, x: Account, a: Asset)
    ensures AllBlocks([]) == [] && Credits(env, ledger, [], ledger, x, a)
  {
  }

  /** Signed batches with increasing ids that import exactly the next blocks, all quiet, are stored: the last block
      advances by their number, and every deposit in them is credited to its account. */
  lemma NextBlocksStored(env: Env, stored: Stored, batches: seq<Batch>, x: Account, a: Asset)
    requires QuietBatches(env, batches) && SoundBatches(env, batches) && NonNegative(stored.ledger)
    requires (forall i | 0 <= i < |batches| :: batches[i].signed) && Increasing(stored.info.stid, batches)
    requires 0 < stored.info.lastBlock && Consecutive(stored.info.lastBlock, AllBlocks(batches))
    ensures var r := SyncedThrough(env, stored, batches);
            && r.accepted == |batches|
            && r.stored.info.lastBlock == Capped(stored.info.lastBlock + |AllBlocks(batches)|)
            && Credits(env, stored.ledger, AllBlocks(batches), r.stored.ledger, x, a)
  {
    hide SyncedThrough, QuietBatches, SoundBatches, NonNegative, Increasing, Consecutive, AllBlocks, LastAfter, Credits;
    InOrderIff(stored.info.lastBlock, AllBlocks(batches));
    BatchesStoredIff(env, stored, batches);
    BatchesCredit(env, stored, batches, x, a);
    assert batches[..|batches|] == batches;
    SyncInOrder(env, stored, batches);
  }

  // ------------------------------------------------------------------ trades

  /** After any trades, one more is accepted exactly when its pair is traded, both orders are signed and for that pair,
      and each account then holds what its side gives away. */
  lemma NextTradeIff(env: Env, ledger: Ledger, trades: seq<Trade>, trade: Trade)
    requires TradesSettled(env, ledger, trades).Done? && trade.maker.base != trade.maker.quote
    requires trade.taker.main != trade.maker.main && trade.taker.main != env.terms.pot
    ensures var before := TradesSettled(env, ledger, trades).value;
            TradesSettled(env, ledger, trades + [trade]).Done?
            <==> && Market(trade.maker.base, trade.maker.quote) in env.pairs
                 && trade.maker.verified && trade.taker.verified
                 && trade.maker.base == trade.taker.base && trade.maker.quote == trade.taker.quote
                 && Covers(before, env.terms, trade, trade.maker) && Covers(before, env.terms, trade, trade.taker)
  {
    var all := trades + [trade];
    assert all[..|all| - 1] == trades && all[|all| - 1] == trade;
    hide Settled;
    SettlesIff(TradesSettled(env, ledger, trades).value, env.terms, trade);
  }

  // ------------------------------------------------------------------ withdrawals

  /** The account has an entry for the asset, be it zero. */
  predicate Listed(ledger: Ledger, x: Account, a: Asset) {
    x in ledger && a in ledger[x]
  }

  function Least(a: int, b: int): int {
    if a < b then a else b
  }

  /** A request is paid exactly when its amount could be read, it is signed, and the account has the asset. It pays
      what was asked for or what there is, whichever is less, and only that balance falls. */
  lemma RequestPaidIff(ledger: Ledger, request: Request, stid: nat)
    ensures var r := RequestPaid(ledger, request, stid); var held := Balance(ledger, request.main, request.asset);
            && (r.Done? <==> request.amount.Some? && request.verified && Listed(ledger, request.main, request.asset))
            && (r.Done? ==>
                  var paid := Least(request.amount.value, held);
                  && r.value.withdrawal == Withdrawal(request.main, request.asset, paid, stid)
                  && Balance(r.value.ledger, request.main, request.asset) == RoundOff(held - paid)
                  && forall x: Account, a: Asset | x != request.main || a != request.asset ::
                       Balance(r.value.ledger, x, a) == Balance(ledger, x, a))
  {
    hide RoundOff;
  }

  /** As an action of a batch, in either version. */
  lemma WithdrawIff(env: Env, p: Progress, action: Action)
    requires action.Withdraw? || action.WithdrawV1?
    ensures var r, request := ActionDone(env, p, action), action.request;
            && (r.Done? <==> request.amount.Some? && request.verified && Listed(p.ledger, request.main, request.asset))
            && (r.Done? ==>
                  var paid := Least(request.amount.value, Balance(p.ledger, request.main, request.asset));
                  && r.value.withdrawals == p.withdrawals + [Withdrawal(request.main, request.asset, paid,
                                                                        if action.Withdraw? then 0 else action.stid)]
                  && Balance(r.value.ledger, request.main, request.asset)
                     == RoundOff(Balance(p.ledger, request.main, request.asset) - paid)
                  && r.value.info == p.info && r.value.egress == p.egress)
  {
    hide RequestPaid, RoundOff, Balance;
    RequestPaidIff(p.ledger, action.request, if action.Withdraw? then 0 else action.stid);
  }

  // ------------------------------------------------------------------ pools

  /** A pool is closed exactly when it has both assets of the market; it is left with neither, and the reply names
      what it had. */
  lemma PoolClosedIff(ledger: Ledger, market: Market, pool: Account)
    requires market.base != market.quote
    ensures var r := PoolClosed(ledger, market, pool);
            && (r.Done? <==> Listed(ledger, pool, market.base) && Listed(ledger, pool, market.quote))
            && (r.Done? ==>
                  && Balance(r.value.ledger, pool, market.base) == 0 && Balance(r.value.ledger, pool, market.quote) == 0
                  && r.value.egress == [PoolForceClosed(market, pool, Balance(ledger, pool, market.base),
                                                        Balance(ledger, pool, market.quote))]
                  && forall x: Account, a: Asset | x != pool || (a != market.base && a != market.quote) ::
                       Balance(r.value.ledger, x, a) == Balance(ledger, x, a))
  {
    assert RoundOff(0) == 0;
    hide RoundOff;
  }

  /** A balance after a credit. */
  function Topped(ledger: Ledger, x: Account, a: Asset, amount: int): int {
    if Listed(ledger, x, a) then RoundOff(Balance(ledger, x, a) + amount) else amount
  }

  /** Liquidity is added exactly against a reply for the same pool and provider that names the pool's new worth and
      the provider's part of the shares; then the pool has the amounts, and only it. */
  lemma LiquidityAddedIff(env: Env, ledger: Ledger, msg: Ingress, engine: Engine)
    requires msg.AddLiquidity? && msg.market.base != msg.market.quote
    ensures var r, mul := LiquidityAdded(env, ledger, msg, engine), env.terms.mul;
            var base := Topped(ledger, msg.pool, msg.market.base, msg.base);
            var quote := Topped(ledger, msg.pool, msg.market.quote, msg.quote);
            && (r.Done? <==>
                  && msg in engine && engine[msg].AddLiquidityResult?
                  && engine[msg].pool == msg.pool && engine[msg].lp == msg.lp
                  && engine[msg].inventory == quote + mul(engine[msg].price, base)
                  && engine[msg].issued == Shares(env, msg, engine[msg].price, engine[msg].inventory))
            && (r.Done? ==>
                  && r.value.egress == [engine[msg]]
                  && Balance(r.value.ledger, msg.pool, msg.market.base) == base
                  && Balance(r.value.ledger, msg.pool, msg.market.quote) == quote
                  && forall x: Account, a: Asset | x != msg.pool || (a != msg.market.base && a != msg.market.quote) ::
                       Balance(r.value.ledger, x, a) == Balance(ledger, x, a))
  {
    hide RoundOff;
  }

  /** The worth of what is given, as a part of the pool's worth, of all shares; all of it for an empty pool. */
  function Shares(env: Env, msg: Ingress, price: int, inventory: int): int
    requires msg.AddLiquidity?
  {
    var worth := env.terms.mul(msg.base, price) + msg.quote;
    if inventory == 0 then worth else env.div(env.terms.mul(worth, msg.totalShares), inventory)
  }

  /** The part of a balance that is burnt. */
  function Part(env: Env, ledger: Ledger, msg: Ingress, a: Asset): int
    requires msg.RemoveLiquidity?
  {
    env.terms.mul(msg.burnFraction, Balance(ledger, msg.pool, a))
  }

  /** A removal goes through exactly against a success reply with the parts of the message's market, which the pool
      must hold of the reply's market; or against a failure reply that asks for those parts and says less is free of
      either, and then nothing changes. */
  lemma LiquidityRemovedIff(env: Env, ledger: Ledger, msg: Ingress, engine: Engine)
    requires msg.RemoveLiquidity?
    requires msg in engine && engine[msg].RemoveLiquidityResult? ==>
               engine[msg].market.base != engine[msg].market.quote
    ensures msg !in engine ==> LiquidityRemoved(env, ledger, msg, engine).Failed?
    ensures msg in engine ==>
            var r, reply := LiquidityRemoved(env, ledger, msg, engine), engine[msg];
            var base, quote := Part(env, ledger, msg, msg.market.base), Part(env, ledger, msg, msg.market.quote);
            && (r.Done? <==>
                  || (reply.RemoveLiquidityResult? && reply.pool == msg.pool && reply.lp == msg.lp
                      && reply.base == base && reply.quote == quote
                      && Has(ledger, msg.pool, reply.market.base, base)
                      && Has(ledger, msg.pool, reply.market.quote, quote))
                  || (reply.RemoveLiquidityFailed? && reply.pool == msg.pool && reply.lp == msg.lp
                      && reply.burnFraction == msg.burnFraction
                      && reply.baseRequired == base && reply.quoteRequired == quote
                      && base > reply.baseFree && quote > reply.quoteFree))
            && (r.Done? ==> r.value.egress == [reply] && (reply.RemoveLiquidityFailed? ==> r.value.ledger == ledger))
  {
    hide RoundOff, Balance;
  }

  // ------------------------------------------------------------------ trading fees

  /** What is asked of one asset: not to be named, or to be named with what the pot has of it, which is not zero. */
  ghost predicate FeeFits(ledger: Ledger, pot: Account, fees: map<Asset, int>, a: Asset) {
    a in fees ==> Listed(ledger, pot, a) && fees[a] == RoundOff(Balance(ledger, pot, a)) && fees[a] != 0
  }

  lemma RestIsNothing(held: int)
    ensures RoundOff(held - RoundOff(held)) == 0
  {
    RestOfUnits(held);
  }

  lemma RestOfUnits(held: int)
    ensures -ULP < held - RoundOff(held) < ULP
  {
  }

  lemma FeeTaken(ledger: Ledger, pot: Account, fees: map<Asset, int>, a: Asset)
    requires NonNegative(ledger) && a in fees && FeeFits(ledger, pot, fees, a)
    ensures var r := Debited(ledger, pot, a, fees[a], true);
            && r.Done? && Balance(r.value.ledger, pot, a) == 0 && NonNegative(r.value.ledger)
            && (forall x, b | Listed(ledger, x, b) :: Listed(r.value.ledger, x, b))
            && (forall x, b | Listed(r.value.ledger, x, b) :: Listed(ledger, x, b))
            && forall x: Account, b: Asset | x != pot || b != a ::
                 Balance(r.value.ledger, x, b) == Balance(ledger, x, b)
  {
    var held := Balance(ledger, pot, a);
    RoundOffBounds(held);
    RestIsNothing(held);
    hide RoundOff;
  }

  ghost predicate FeesDone(ledger: Ledger, pot: Account, assets: seq<Asset>, fees: map<Asset, int>, after: Ledger) {
    && NonNegative(after)
    && (forall x, b :: Listed(after, x, b) <==> Listed(ledger, x, b))
    && (forall a | a in assets && a in fees :: Balance(after, pot, a) == 0)
    && (forall x: Account, a: Asset | x != pot || a !in assets || a !in fees ::
          Balance(after, x, a) == Balance(ledger, x, a))
  }

  /** The fees are taken exactly when each listed asset that is named fits; then the pot has none of those assets, and
      nothing else has changed. */
  lemma {:induction false} FeesTakenIff(ledger: Ledger, pot: Account, assets: seq<Asset>, fees: map<Asset, int>)
    requires NonNegative(ledger) && Distinct(assets)
    ensures var r := FeesTaken(ledger, pot, assets, fees);
            && (r.Done? <==> forall a | a in assets :: FeeFits(ledger, pot, fees, a))
            && (r.Done? ==> FeesDone(ledger, pot, assets, fees, r.value))
    decreases |assets|
  {
    if assets != [] {
      hide RoundOff, NonNegative, Debited, Listed, Balance;
      var rest, a := assets[..|assets| - 1], assets[|assets| - 1];
      assert forall b :: b in assets <==> b in rest || b == a;
      assert a !in rest && Distinct(rest);
      FeesTakenIff(ledger, pot, rest, fees);
      if FeesTaken(ledger, pot, rest, fees).Done? {
        var before := FeesTaken(ledger, pot, rest, fees).value;
        assert Balance(before, pot, a) == Balance(ledger, pot, a)
               && (Listed(before, pot, a) <==> Listed(ledger, pot, a));
        if a in fees {
          FeeRefused(before, pot, a);
          if FeeFits(before, pot, fees, a) {
            FeeTaken(before, pot, fees, a);
          }
        }
      }
    }
  }

  lemma FeeRefused(ledger: Ledger, pot: Account, a: Asset)
    ensures !Listed(ledger, pot, a) ==> Debited(ledger, pot, a, RoundOff(Balance(ledger, pot, a)), true).Failed?
  {
  }

  /** A fee message goes through exactly against a reply of trading fees that fits every listed asset. */
  lemma FeesWithdrawnIff(env: Env, ledger: Ledger, engine: Engine)
    requires NonNegative(ledger) && Distinct(env.allowlist)
    ensures var r := FeesWithdrawn(env, ledger, engine);
            && (r.Done? <==>
                  && WithdrawTradingFees in engine && engine[WithdrawTradingFees].TradingFees?
                  && forall a | a in env.allowlist ::
                       FeeFits(ledger, env.terms.pot, engine[WithdrawTradingFees].fees, a))
            && (r.Done? ==>
                  && r.value.egress == [engine[WithdrawTradingFees]]
                  && FeesDone(ledger, env.terms.pot, env.allowlist, engine[WithdrawTradingFees].fees, r.value.ledger))
  {
    hide NonNegative, FeesTaken, FeeFits, FeesDone;
    if WithdrawTradingFees in engine && engine[WithdrawTradingFees].TradingFees? {
      FeesTakenIff(ledger, env.terms.pot, env.allowlist, engine[WithdrawTradingFees].fees);
    }
  }
}
