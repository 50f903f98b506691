/**
  The replay as the worker runs it, loop by loop over its in-memory balances.
 */
module ReplayWorker {
  import opened ByteStrings
  import opened Settlement
  import opened BatchReplay

  class Worker {
    const env: Env
    /** Balances changed in memory. */
    const state: LedgerState
    var info: Info
    /** What the persisted root stands for. */
    var stored: Stored

    constructor (env: Env, stored: Stored)
      ensures this.env == env && this.stored == stored && info == stored.info
      ensures fresh(state) && state.balances == stored.ledger
    {
      this.env := env;
      this.stored := stored;
      this.info := stored.info;
      this.state := new LedgerState(stored.ledger);
    }

    method AddLiquidity(msg: Ingress, engine: Engine) returns (r: Result<seq<Egress>>)
      requires msg.AddLiquidity?
      modifies state
      ensures match LiquidityAdded(env, old(state.balances), msg, engine)
              case Done(imported) => r == Done(imported.egress) && state.balances == imported.ledger
              case Failed(error) => r == Failed(error)
    {
      hide Credited;
      state.AddBalance(msg.pool, msg.market.base, msg.base);
      state.AddBalance(msg.pool, msg.market.quote, msg.quote);
      var baseBalance := state.GetBalance(msg.pool, msg.market.base);
      var quoteBalance := state.GetBalance(msg.pool, msg.market.quote);
      if msg !in engine {
        return Failed("Unable to find Egress message for AddLiquidity");
      }
      match engine[msg] {
        case AddLiquidityResult(_, pool, lp, issued, price, inventory) =>
          if msg.pool != pool {
            return Failed("Invalid Pool id in egress");
          }
          if msg.lp != lp {
            return Failed("Invalid LP address in egress");
          }
          var total := quoteBalance + env.terms.mul(price, baseBalance);
          if inventory != total {
            return Failed("Inventory Mismatch");
          }
          var given := env.terms.mul(msg.base, price) + msg.quote;
          var minted := given;
          if inventory != 0 {
            minted := env.div(env.terms.mul(given, msg.totalShares), inventory);
          }
          if issued != minted {
            return Failed("Invalid number of LP shares minted");
          }
          return Done([engine[msg]]);
        case _ =>
          return Failed("Invalid Engine Egress message");
      }
    }

    method RemoveLiquidity(msg: Ingress, engine: Engine) returns (r: Result<seq<Egress>>)
      requires msg.RemoveLiquidity?
      modifies state
      ensures match LiquidityRemoved(env, old(state.balances), msg, engine)
              case Done(imported) => r == Done(imported.egress) && state.balances == imported.ledger
              case Failed(error) => r == Failed(error)
    {
      hide Debited;
      var baseBalance := state.GetBalance(msg.pool, msg.market.base);
      var quoteBalance := state.GetBalance(msg.pool, msg.market.quote);
      var base := env.terms.mul(msg.burnFraction, baseBalance);
      var quote := env.terms.mul(msg.burnFraction, quoteBalance);
      if msg !in engine {
        return Failed("RemoveLiquidity engine message not found");
      }
      match engine[msg] {
        case RemoveLiquidityResult(market, pool, lp, baseFreed, quoteFreed) =>
          if msg.pool != pool {
            return Failed("Invalid Pool id in egress");
          }
          if msg.lp != lp {
            return Failed("Invalid LP address in egress");
          }
          if quote != quoteFreed {
            return Failed("Invalid quote amount freed!");
          }
          if base != baseFreed {
            return Failed("Invalid base amount freed!");
          }
          var _ :- state.SubBalance(msg.pool, market.quote, quote, false);
          var _ :- state.SubBalance(msg.pool, market.base, base, false);
          return Done([engine[msg]]);
        case RemoveLiquidityFailed(_, pool, lp, burnFraction, _, baseFree, quoteFree, baseRequired, quoteRequired) =>
          if msg.pool != pool {
            return Failed("Invalid Pool id in egress");
          }
          if msg.lp != lp {
            return Failed("Invalid LP address in egress");
          }
          if msg.burnFraction != burnFraction {
            return Failed("Invalid Burn fraction in egress");
          }
          if quote != quoteRequired {
            return Failed("Invalid quote amount required by engine!");
          }
          if base != baseRequired {
            return Failed("Invalid base amount required by engine!");
          }
          if quote <= quoteFree {
            return Failed("Enough quote available but still denied by engine!");
          }
          if base <= baseFree {
            return Failed("Enough base balance available but still denied by engine!");
          }
          return Done([engine[msg]]);
        case _ =>
          return Failed("Invalid engine message");
      }
    }

    method ForceClosePool(market: Market, pool: Account) returns (r: Result<seq<Egress>>)
      modifies state
      ensures match PoolClosed(old(state.balances), market, pool)
              case Done(imported) => r == Done(imported.egress) && state.balances == imported.ledger
              case Failed(error) => r == Failed(error)
    {
      hide Debited;
      var base := state.GetBalance(pool, market.base);
      var quote := state.GetBalance(pool, market.quote);
      var _ :- state.SubBalance(pool, market.base, base, false);
      var _ :- state.SubBalance(pool, market.quote, quote, false);
      return Done([PoolForceClosed(market, pool, base, quote)]);
    }

    method WithdrawFees(engine: Engine) returns (r: Result<seq<Egress>>)
      modifies state
      ensures match FeesWithdrawn(env, old(state.balances), engine)
              case Done(imported) => r == Done(imported.egress) && state.balances == imported.ledger
              case Failed(error) => r == Failed(error)
    {
      hide Debited;
      if WithdrawTradingFees !in engine {
        return Failed("Egress message not found for withdraw trading fees");
      }
      var reply := engine[WithdrawTradingFees];
      if !reply.TradingFees? {
        return Failed("Invalid egress message for withdraw trading fees");
      }
      var assets, pot := env.allowlist, env.terms.pot;
      ghost var before := state.balances;
      for i := 0 to |assets|
        invariant FeesTaken(before, pot, assets[..i], reply.fees) == Done(state.balances)
      {
        assert assets[..i + 1][..i] == assets[..i];
        FeesStop(before, pot, assets, reply.fees, i);
        var asset := assets[i];
        if asset !in reply.fees {
          continue;
        }
        if reply.fees[asset] == 0 {
          return Failed("InvalidTradingFeesValue");
        }
        var held := state.GetBalance(pot, asset);
        var balance := RoundOff(held);
        if balance != reply.fees[asset] {
          return Failed("Incorrect Trading fees accounting");
        }
        var _ :- state.SubBalance(pot, asset, balance, true);
      }
      assert assets[..|assets|] == assets;
      return Done([reply]);
    }

    method ImportMessage(msg: Ingress, engine: Engine) returns (r: Result<seq<Egress>>)
      modifies state
      ensures match MessageImported(env, old(state.balances), msg, engine)
              case Done(imported) => r == Done(imported.egress) && state.balances == imported.ledger
              case Failed(error) => r == Failed(error)
    {
      match msg {
        case Deposit(_, main, asset, amount) =>
          state.AddBalance(main, asset, amount);
          return Done([]);
        case AddLiquidity(_, _, _, _, _, _) =>
          r := AddLiquidity(msg, engine);
        case RemoveLiquidity(_, _, _, _, _) =>
          r := RemoveLiquidity(msg, engine);
        case ForceClosePool(market, pool) =>
          r := ForceClosePool(market, pool);
        case WithdrawTradingFees =>
          r := WithdrawFees(engine);
        case _ =>
          return Done([]);
      }
    }

    method ImportBlk(block: BlockNumber, engine: Engine) returns (r: Result<seq<Egress>>)
      modifies this`info, state
      ensures match BlockMessages(env, old(state.balances), old(info), block, engine)
              case Done(imported) => r == Done(imported.egress) && state.balances == imported.ledger
                                     && info == old(info).(lastBlock := block)
              case Failed(error) => r == Failed(error) && info == old(info)
    {
      hide MessageImported;
      if info.lastBlock != 0 && block != Successor(info.lastBlock) {
        return Failed("BlockOutofSequence");
      }
      var messages := env.ingressAt(block);
      var verified: seq<Egress> := [];
      ghost var before := state.balances;
      for i := 0 to |messages|
        invariant MessagesImported(env, before, messages[..i], engine) == Done(Imported(state.balances, verified))
        invariant info == old(info)
      {
        assert messages[..i + 1][..i] == messages[..i];
        MessagesStop(env, before, messages, engine, i);
        var egress :- ImportMessage(messages[i], engine);
        verified := verified + egress;
      }
      assert messages[..|messages|] == messages;
      info := info.(lastBlock := block);
      return Done(verified);
    }

    method SettleTrades(trades: seq<Trade>) returns (r: Result<()>)
      modifies state
      ensures match TradesSettled(env, old(state.balances), trades)
              case Done(ledger) => r == Done(()) && state.balances == ledger
              case Failed(error) => r == Failed(error)
    {
      hide Settled;
      ghost var before := state.balances;
      for i := 0 to |trades|
        invariant TradesSettled(env, before, trades[..i]) == Done(state.balances)
      {
        assert trades[..i + 1][..i] == trades[..i];
        TradesStop(env, before, trades, i);
        if Market(trades[i].maker.base, trades[i].maker.quote) !in env.pairs {
          return Failed("TradingPairNotFound");
        }
        var _ :- state.ProcessTrade(env.terms, trades[i]);
      }
      assert trades[..|trades|] == trades;
      return Done(());
    }

    method Withdraw(request: Request, stid: nat) returns (r: Result<Withdrawal>)
      modifies state
      ensures match RequestPaid(old(state.balances), request, stid)
              case Done(paid) => r == Done(paid.withdrawal) && state.balances == paid.ledger
              case Failed(error) => r == Failed(error)
    {
      hide Debited;
      if request.amount.None? {
        return Failed("decimal conversion error");
      }
      if !request.verified {
        return Failed("SignatureVerificationFailed");
      }
      var taken :- state.SubBalance(request.main, request.asset, request.amount.value, true);
      return Done(Withdrawal(request.main, request.asset, taken, stid));
    }

    /** One action; on success the state and the batch's results are as the action defines them. */
    method ProcessAction(action: Action, withdrawals: seq<Withdrawal>, egress: seq<Egress>)
      returns (r: Result<(seq<Withdrawal>, seq<Egress>)>)
      modifies this`info, state
      ensures match ActionDone(env, Progress(old(state.balances), old(info), withdrawals, egress), action)
              case Done(p) => r == Done((p.withdrawals, p.egress)) && state.balances == p.ledger && info == p.info
              case Failed(error) => r == Failed(error)
    {
      hide TradesSettled, BlockMessages, RequestPaid;
      match action {
        case Trades(trades) =>
          var _ :- SettleTrades(trades);
          return Done((withdrawals, egress));
        case Withdraw(request) =>
          var withdrawal :- Withdraw(request, 0);
          return Done((withdrawals + [withdrawal], egress));
        case BlockImport(block, engine, prices) =>
          var verified :- ImportBlk(block, engine);
          return Done((withdrawals, egress + verified + [PriceOracle(prices)]));
        case WithdrawV1(request, stid) =>
          var withdrawal :- Withdraw(request, stid);
          return Done((withdrawals + [withdrawal], egress));
        case _ =>
          return Done((withdrawals, egress));
      }
    }

    method ProcessBatch(batch: Batch) returns (r: Result<(seq<Withdrawal>, seq<Egress>)>)
      modifies this`info, state
      ensures match BatchDone(env, old(state.balances), old(info), batch)
              case Done(p) => r == Done((p.withdrawals, p.egress)) && state.balances == p.ledger && info == p.info
              case Failed(error) => r == Failed(error)
    {
      hide ActionDone;
      if info.stid >= batch.stid {
        return Failed("Invalid stid");
      }
      var withdrawals: seq<Withdrawal>, egress: seq<Egress> := [], [];
      ghost var start, actions := Progress(state.balances, info, [], []), batch.actions;
      for i := 0 to |batch.actions|
        invariant ActionsDone(env, start, actions[..i]) == Done(Progress(state.balances, info, withdrawals, egress))
      {
        assert actions[..i + 1][..i] == actions[..i];
        ActionsStop(env, start, actions, i);
        var results :- ProcessAction(batch.actions[i], withdrawals, egress);
        withdrawals, egress := results.0, results.1;
      }
      assert actions[..|actions|] == actions;
      return Done((withdrawals, egress));
    }

    /** Processes batches in turn, persisting after each. The first one that fails stops the run, and then
        the persisted state is that of the batches before it. */
    method Sync(batches: seq<Batch>) returns (accepted: nat, error: Option<string>)
      requires state.balances == stored.ledger && info == stored.info
      modifies this`info, this`stored, state
      ensures Synced(stored, accepted) == SyncedThrough(env, old(stored), batches)
      ensures error.None? <==> accepted == |batches|
    {
      hide BatchDone;
      accepted := 0;
      while accepted < |batches|
        invariant accepted <= |batches|
        invariant state.balances == stored.ledger && info == stored.info
        invariant var rest := SyncedThrough(env, stored, batches[accepted..]);
                  SyncedThrough(env, old(stored), batches) == rest.(accepted := accepted + rest.accepted)
      {
        var batch := batches[accepted];
        assert batches[accepted..][1..] == batches[accepted + 1..];
        if !batch.signed {
          return accepted, Some("Invalid batch signature");
        }
        var r := ProcessBatch(batch);
        if r.Failed? {
          return accepted, Some("Sync failed");
        }
        info := info.(stid := batch.stid, snapshotId := batch.snapshotId);
        stored := Stored(state.balances, info);
        accepted := accepted + 1;
      }
      return accepted, None;
    }
  }

  // A fold over a prefix that fails makes the whole fold fail with the same error

  lemma {:induction false} FeesStop(ledger: Ledger, pot: Account, assets: seq<Asset>, fees: map<Asset, int>, i: nat)
    requires i < |assets|
    ensures FeesTaken(ledger, pot, assets[..i + 1], fees).Failed? ==>
              FeesTaken(ledger, pot, assets, fees) == FeesTaken(ledger, pot, assets[..i + 1], fees)
    decreases |assets|
  {
    if i + 1 == |assets| {
      assert assets[..i + 1] == assets;
    } else {
      var before := assets[..|assets| - 1];
      FeesStop(ledger, pot, before, fees, i);
      assert before[..i + 1] == assets[..i + 1];
    }
  }

  lemma {:induction false} MessagesStop(env: Env, ledger: Ledger, msgs: seq<Ingress>, engine: Engine, i: nat)
    requires i < |msgs|
    ensures MessagesImported(env, ledger, msgs[..i + 1], engine).Failed? ==>
              MessagesImported(env, ledger, msgs, engine) == MessagesImported(env, ledger, msgs[..i + 1], engine)
    decreases |msgs|
  {
    if i + 1 == |msgs| {
      assert msgs[..i + 1] == msgs;
    } else {
      var before := msgs[..|msgs| - 1];
      MessagesStop(env, ledger, before, engine, i);
      assert before[..i + 1] == msgs[..i + 1];
    }
  }

  lemma {:induction false} TradesStop(env: Env, ledger: Ledger, trades: seq<Trade>, i: nat)
    requires i < |trades|
    ensures TradesSettled(env, ledger, trades[..i + 1]).Failed? ==>
              TradesSettled(env, ledger, trades) == TradesSettled(env, ledger, trades[..i + 1])
    decreases |trades|
  {
    if i + 1 == |trades| {
      assert trades[..i + 1] == trades;
    } else {
      var before := trades[..|trades| - 1];
      TradesStop(env, ledger, before, i);
      assert before[..i + 1] == trades[..i + 1];
    }
  }

  lemma {:induction false} ActionsStop(env: Env, p: Progress, actions: seq<Action>, i: nat)
    requires i < |actions|
    ensures ActionsDone(env, p, actions[..i + 1]).Failed? ==>
              ActionsDone(env, p, actions) == ActionsDone(env, p, actions[..i + 1])
    decreases |actions|
  {
    if i + 1 == |actions| {
      assert actions[..i + 1] == actions;
    } else {
      var before := actions[..|actions| - 1];
      ActionsStop(env, p, before, i);
      assert before[..i + 1] == actions[..i + 1];
    }
  }
}
