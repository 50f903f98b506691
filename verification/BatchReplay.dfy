/**
  The off-chain worker's replay of the engine's batches: imported blocks with their ingress
  messages, trades and withdrawals, committed one batch at a time.
 */
module BatchReplay {
  import opened ByteStrings
  import opened Settlement

  datatype Market = Market(base: Asset, quote: Asset)

  datatype Ingress =
    | Deposit(id: nat, main: Account, asset: Asset, amount: int)
    | AddLiquidity(market: Market, pool: Account, lp: Account, totalShares: int, base: int, quote: int)
    | RemoveLiquidity(market: Market, pool: Account, lp: Account, burnFraction: int, totalShares: int)
    | ForceClosePool(market: Market, pool: Account)
    | WithdrawTradingFees
    | NewLMPEpoch(epoch: nat)
    | OtherIngress(tag: nat)

  datatype Egress =
    | AddLiquidityResult(market: Market, pool: Account, lp: Account, issued: int, price: int, inventory: int)
    | RemoveLiquidityResult(market: Market, pool: Account, lp: Account, base: int, quote: int)
    | RemoveLiquidityFailed(market: Market, pool: Account, lp: Account, burnFraction: int, totalShares: int,
                            baseFree: int, quoteFree: int, baseRequired: int, quoteRequired: int)
    | PoolForceClosed(market: Market, pool: Account, base: int, quote: int)
    | TradingFees(fees: map<Asset, int>)
    | PriceOracle(prices: map<(Asset, Asset), int>)

  /** The engine's reply to each ingress message that needs one. */
  type Engine = map<Ingress, Egress>

  /** What the worker reads from the chain, and its decimal division. */
  datatype Env = Env(terms: Terms, div: (int, int) -> int, allowlist: seq<Asset>, pairs: set<Market>,
                     ingressAt: nat -> seq<Ingress>)

  const U32_MAX := 0xFFFF_FFFF

  /** Blocks are numbered with 32 bits. */
  type BlockNumber = n: nat | n <= U32_MAX

  datatype Info = Info(lastBlock: BlockNumber, stid: nat, snapshotId: nat)

  function Successor(block: BlockNumber): BlockNumber {
    if block < U32_MAX then block + 1 else U32_MAX
  }

  // ------------------------------------------------------------------ ingress messages

  datatype Imported = Imported(ledger: Ledger, egress: seq<Egress>)

  function LiquidityAdded(env: Env, ledger: Ledger, msg: Ingress, engine: Engine): Result<Imported>
    requires msg.AddLiquidity?
  {
    var withBase := Credited(ledger, msg.pool, msg.market.base, msg.base);
    var after := Credited(withBase, msg.pool, msg.market.quote, msg.quote);
    var baseBalance := Balance(after, msg.pool, msg.market.base);
    var quoteBalance := Balance(after, msg.pool, msg.market.quote);
    if msg !in engine then Failed("Unable to find Egress message for AddLiquidity")
    else match engine[msg]
      case AddLiquidityResult(_, pool, lp, issued, price, inventory) =>
        var mul := env.terms.mul;
        var given := mul(msg.base, price) + msg.quote;
        var minted := if inventory == 0 then given else env.div(mul(given, msg.totalShares), inventory);
        if msg.pool != pool then Failed("Invalid Pool id in egress")
        else if msg.lp != lp then Failed("Invalid LP address in egress")
        else if inventory != quoteBalance + mul(price, baseBalance) then Failed("Inventory Mismatch")
        else if issued != minted then Failed("Invalid number of LP shares minted")
        else Done(Imported(after, [engine[msg]]))
      case _ => Failed("Invalid Engine Egress message")
  }

  /** The amounts freed are checked against the ingress market, and taken from the market the reply names. */
  function LiquidityRemoved(env: Env, ledger: Ledger, msg: Ingress, engine: Engine): Result<Imported>
    requires msg.RemoveLiquidity?
  {
    var base := env.terms.mul(msg.burnFraction, Balance(ledger, msg.pool, msg.market.base));
    var quote := env.terms.mul(msg.burnFraction, Balance(ledger, msg.pool, msg.market.quote));
    if msg !in engine then Failed("RemoveLiquidity engine message not found")
    else match engine[msg]
      case RemoveLiquidityResult(market, pool, lp, baseFreed, quoteFreed) =>
        if msg.pool != pool then Failed("Invalid Pool id in egress")
        else if msg.lp != lp then Failed("Invalid LP address in egress")
        else if quote != quoteFreed then Failed("Invalid quote amount freed!")
        else if base != baseFreed then Failed("Invalid base amount freed!")
        else
          var noQuote :- Debited(ledger, msg.pool, market.quote, quote, false);
          var noBase :- Debited(noQuote.ledger, msg.pool, market.base, base, false);
          Done(Imported(noBase.ledger, [engine[msg]]))
      case RemoveLiquidityFailed(_, pool, lp, burnFraction, _, baseFree, quoteFree, baseRequired, quoteRequired) =>
        if msg.pool != pool then Failed("Invalid Pool id in egress")
        else if msg.lp != lp then Failed("Invalid LP address in egress")
        else if msg.burnFraction != burnFraction then Failed("Invalid Burn fraction in egress")
        else if quote != quoteRequired then Failed("Invalid quote amount required by engine!")
        else if base != baseRequired then Failed("Invalid base amount required by engine!")
        else if quote <= quoteFree then Failed("Enough quote available but still denied by engine!")
        else if base <= baseFree then Failed("Enough base balance available but still denied by engine!")
        else Done(Imported(ledger, [engine[msg]]))
      case _ => Failed("Invalid engine message")
  }

  function PoolClosed(ledger: Ledger, market: Market, pool: Account): Result<Imported> {
    var base, quote := Balance(ledger, pool, market.base), Balance(ledger, pool, market.quote);
    var noBase :- Debited(ledger, pool, market.base, base, false);
    var noQuote :- Debited(noBase.ledger, pool, market.quote, quote, false);
    Done(Imported(noQuote.ledger, [PoolForceClosed(market, pool, base, quote)]))
  }

  /** Each allowlisted asset named in the reply must match the fee pot, which is then emptied of it. */
  function FeesTaken(ledger: Ledger, pot: Account, assets: seq<Asset>, fees: map<Asset, int>): Result<Ledger> {
    if assets == [] then Done(ledger)
    else
      var before :- FeesTaken(ledger, pot, assets[..|assets| - 1], fees);
      var asset := assets[|assets| - 1];
      if asset !in fees then Done(before)
      else if fees[asset] == 0 then Failed("InvalidTradingFeesValue")
      else
        var balance := RoundOff(Balance(before, pot, asset));
        if balance != fees[asset] then Failed("Incorrect Trading fees accounting")
        else
          var debit :- Debited(before, pot, asset, balance, true);
          Done(debit.ledger)
  }

  function FeesWithdrawn(env: Env, ledger: Ledger, engine: Engine): Result<Imported> {
    if WithdrawTradingFees !in engine then Failed("Egress message not found for withdraw trading fees")
    else
      var reply := engine[WithdrawTradingFees];
      if !reply.TradingFees? then Failed("Invalid egress message for withdraw trading fees")
      else
        var after :- FeesTaken(ledger, env.terms.pot, env.allowlist, reply.fees);
        Done(Imported(after, [reply]))
  }

  function MessageImported(env: Env, ledger: Ledger, msg: Ingress, engine: Engine): Result<Imported> {
    match msg
    case Deposit(_, main, asset, amount) => Done(Imported(Credited(ledger, main, asset, amount), []))
    case AddLiquidity(_, _, _, _, _, _) => LiquidityAdded(env, ledger, msg, engine)
    case RemoveLiquidity(_, _, _, _, _) => LiquidityRemoved(env, ledger, msg, engine)
    case ForceClosePool(market, pool) => PoolClosed(ledger, market, pool)
    case WithdrawTradingFees => FeesWithdrawn(env, ledger, engine)
    case NewLMPEpoch(_) => Done(Imported(ledger, []))
    case OtherIngress(_) => Done(Imported(ledger, []))
  }

  function MessagesImported(env: Env, ledger: Ledger, msgs: seq<Ingress>, engine: Engine): Result<Imported> {
    if msgs == [] then Done(Imported(ledger, []))
    else
      var before :- MessagesImported(env, ledger, msgs[..|msgs| - 1], engine);
      var last :- MessageImported(env, before.ledger, msgs[|msgs| - 1], engine);
      Done(Imported(last.ledger, before.egress + last.egress))
  }

  // ------------------------------------------------------------------ actions

  datatype Request = Request(main: Account, asset: Asset, amount: Option<int>, verified: bool)

  datatype Withdrawal = Withdrawal(main: Account, asset: Asset, amount: int, stid: nat)

  datatype Action =
    | Trades(trades: seq<Trade>)
    | Withdraw(request: Request)
    | BlockImport(block: BlockNumber, engine: Engine, prices: map<(Asset, Asset), int>)
    | Reset
    | WithdrawV1(request: Request, stid: nat)
    | OneMinLMPReport

  /** The worker's state within a batch, and what the batch has produced so far. */
  datatype Progress = Progress(ledger: Ledger, info: Info, withdrawals: seq<Withdrawal>, egress: seq<Egress>)

  function TradesSettled(env: Env, ledger: Ledger, trades: seq<Trade>): Result<Ledger> {
    if trades == [] then Done(ledger)
    else
      var before :- TradesSettled(env, ledger, trades[..|trades| - 1]);
      var trade := trades[|trades| - 1];
      if Market(trade.maker.base, trade.maker.quote) !in env.pairs then Failed("TradingPairNotFound")
      else Settled(before, env.terms, trade)
  }

  datatype Paid = Paid(withdrawal: Withdrawal, ledger: Ledger)

  /** A withdrawal pays what was asked for, or what there is when that is less. */
  function RequestPaid(ledger: Ledger, request: Request, stid: nat): Result<Paid> {
    if request.amount.None? then Failed("decimal conversion error")
    else if !request.verified then Failed("SignatureVerificationFailed")
    else
      var debit :- Debited(ledger, request.main, request.asset, request.amount.value, true);
      Done(Paid(Withdrawal(request.main, request.asset, debit.amount, stid), debit.ledger))
  }

  function Withdrawn(p: Progress, request: Request, stid: nat): Result<Progress> {
    var paid :- RequestPaid(p.ledger, request, stid);
    Done(p.(ledger := paid.ledger, withdrawals := p.withdrawals + [paid.withdrawal]))
  }

  /** Blocks are imported one after the other; a worker that has imported none accepts any block. */
  predicate InSequence(info: Info, block: BlockNumber) {
    info.lastBlock != 0 ==> block == Successor(info.lastBlock)
  }

  function BlockMessages(env: Env, ledger: Ledger, info: Info, block: BlockNumber, engine: Engine): Result<Imported> {
    if !InSequence(info, block) then Failed("BlockOutofSequence")
    else MessagesImported(env, ledger, env.ingressAt(block), engine)
  }

  function BlockImported(env: Env, p: Progress, block: BlockNumber, engine: Engine): Result<Progress> {
    var imported :- BlockMessages(env, p.ledger, p.info, block, engine);
    Done(p.(ledger := imported.ledger, info := p.info.(lastBlock := block), egress := p.egress + imported.egress))
  }

  function ActionDone(env: Env, p: Progress, action: Action): Result<Progress> {
    match action
    case Trades(trades) =>
      var ledger :- TradesSettled(env, p.ledger, trades);
      Done(p.(ledger := ledger))
    case Withdraw(request) => Withdrawn(p, request, 0)
    case BlockImport(block, engine, prices) =>
      var q :- BlockImported(env, p, block, engine);
      Done(q.(egress := q.egress + [PriceOracle(prices)]))
    case Reset => Done(p)
    case WithdrawV1(request, stid) => Withdrawn(p, request, stid)
    case OneMinLMPReport => Done(p)
  }

  function ActionsDone(env: Env, p: Progress, actions: seq<Action>): Result<Progress> {
    if actions == [] then Done(p)
    else
      var before :- ActionsDone(env, p, actions[..|actions| - 1]);
      ActionDone(env, before, actions[|actions| - 1])
  }

  datatype Batch = Batch(actions: seq<Action>, stid: nat, snapshotId: nat, signed: bool)

  function BatchDone(env: Env, ledger: Ledger, info: Info, batch: Batch): Result<Progress> {
    if info.stid >= batch.stid then Failed("Invalid stid")
    else ActionsDone(env, Progress(ledger, info, [], []), batch.actions)
  }

  // ------------------------------------------------------------------ batches one after the other

  /** The ledger and state info under the persisted root. */
  datatype Stored = Stored(ledger: Ledger, info: Info)

  function BatchStored(env: Env, stored: Stored, batch: Batch): Result<Stored> {
    if !batch.signed then Failed("Invalid batch signature")
    else
      var p :- BatchDone(env, stored.ledger, stored.info, batch);
      Done(Stored(p.ledger, p.info.(stid := batch.stid, snapshotId := batch.snapshotId)))
  }

  datatype Synced = Synced(stored: Stored, accepted: nat)

  /** Batches are stored until one fails; what follows is not looked at. */
  function SyncedThrough(env: Env, stored: Stored, batches: seq<Batch>): (r: Synced)
    ensures r.accepted <= |batches|
    decreases |batches|
  {
    if batches == [] then Synced(stored, 0)
    else match BatchStored(env, stored, batches[0])
      case Failed(_) => Synced(stored, 0)
      case Done(next) =>
        var rest := SyncedThrough(env, next, batches[1..]);
        rest.(accepted := rest.accepted + 1)
  }
}
