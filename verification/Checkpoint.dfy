/**
  Recovery by checkpoint: the ledger flattened into one map of balances, and rebuilt from it.
 */
module Checkpoint {
  import opened ByteStrings
  import opened Settlement
  import opened Accounting
  import opened BatchReplay

  datatype Key = Key(main: Account, asset: Asset)

  type Flat = map<Key, int>

  datatype Raw = Raw(balances: Flat, snapshotId: nat, lastBlock: BlockNumber, stid: nat)

  predicate Holds(ledger: Ledger, k: Key) {
    k.main in ledger && k.asset in ledger[k.main]
  }

  function KeysOf(ledger: Ledger): (keys: set<Key>)
    ensures forall k :: k in keys <==> Holds(ledger, k)
  {
    var keys := set x, a | x in ledger && a in ledger[x] :: Key(x, a);
    assert forall k | Holds(ledger, k) :: k == Key(k.main, k.asset);
    keys
  }

  /** The balances of the given accounts, one entry per account and asset. */
  function Flattened(ledger: Ledger, accounts: set<Account>): (flat: Flat)
    ensures forall k :: k in flat <==> Holds(ledger, k) && k.main in accounts
    ensures forall k | k in flat :: Holds(ledger, k) && flat[k] == ledger[k.main][k.asset]
  {
    map k | k in KeysOf(ledger) && k.main in accounts :: ledger[k.main][k.asset]
  }

  function Entries(ledger: Ledger, x: Account): Balances {
    if x in ledger then ledger[x] else map[]
  }

  /** The flat map has a balance for this account. */
  ghost predicate Named(flat: Flat, x: Account) {
    exists k | k in flat :: k.main == x
  }

  function Find(entries: Balances, a: Asset): Option<int> {
    if a in entries then Some(entries[a]) else None
  }

  ghost predicate RestoresEntries(entries: Balances, flat: Flat, x: Account, out: Balances) {
    forall a :: Find(out, a) == (if Key(x, a) in flat then Some(flat[Key(x, a)]) else Find(entries, a))
  }

  /** `out` is the ledger with every flat balance written into its account. */
  ghost predicate Restores(ledger: Ledger, flat: Flat, out: Ledger) {
    && (forall x :: x in out <==> x in ledger || Named(flat, x))
    && (forall x | x in out :: RestoresEntries(Entries(ledger, x), flat, x, out[x]))
  }

  ghost function Elements(xs: seq<Account>): set<Account> {
    set x | x in xs
  }

  /** Collects the offchain balances of the registered accounts and the fee pot. */
  method FetchCheckpoint(stored: Stored, registered: seq<Account>, pot: Account) returns (r: Raw)
    ensures r == Raw(Flattened(stored.ledger, Elements(registered) + {pot}),
                     stored.info.snapshotId, stored.info.lastBlock, stored.info.stid)
  {
    var accounts := registered + [pot];
    var balances: Flat := map[];
    for i := 0 to |accounts|
      invariant balances == Flattened(stored.ledger, Elements(accounts[..i]))
    {
      var main := accounts[i];
      balances := AddEntries(stored.ledger, Elements(accounts[..i]), main, balances);
      assert Elements(accounts[..i + 1]) == Elements(accounts[..i]) + {main};
    }
    assert accounts[..|accounts|] == accounts;
    assert Elements(accounts) == Elements(registered) + {pot};
    return Raw(balances, stored.info.snapshotId, stored.info.lastBlock, stored.info.stid);
  }

  /** The flat map while an account's entries are being added to it. */
  ghost predicate Adding(ledger: Ledger, done: set<Account>, main: Account, todo: set<Asset>, flat: Flat) {
    && (forall k :: k in flat <==> Holds(ledger, k) && (k.main in done || (k.main == main && k.asset !in todo)))
    && (forall k | k in flat :: Holds(ledger, k) && flat[k] == ledger[k.main][k.asset])
  }

  method AddEntries(ledger: Ledger, ghost done: set<Account>, main: Account, before: Flat) returns (balances: Flat)
    requires before == Flattened(ledger, done)
    ensures balances == Flattened(ledger, done + {main})
  {
    balances := before;
    var entries := Entries(ledger, main);
    var todo := entries.Keys;
    while todo != {}
      invariant todo <= entries.Keys
      invariant Adding(ledger, done, main, todo, balances)
      decreases |todo|
    {
      var asset :| asset in todo;
      balances := balances[Key(main, asset) := entries[asset]];
      todo := todo - {asset};
    }
  }

  method ProcessCheckpoint(state: LedgerState, flat: Flat)
    modifies state
    ensures Restores(old(state.balances), flat, state.balances)
  {
    hide Restores;
    var todo := flat.Keys;
    ghost var start, done: Flat := state.balances, map[];
    RestoreNothing(start);
    while todo != {}
      invariant todo <= flat.Keys && done == flat - todo
      invariant Restores(start, done, state.balances)
      decreases |todo|
    {
      var k :| k in todo;
      var value: Balances := map[];
      if k.main in state.balances {
        value := state.balances[k.main];
      }
      value := value[k.asset := flat[k]];
      RestoreOne(start, done, state.balances, k, flat[k]);
      state.balances := state.balances[k.main := value];
      todo := todo - {k};
      done := done[k := flat[k]];
    }
    assert done == flat;
  }

  lemma RestoreNothing(ledger: Ledger)
    ensures Restores(ledger, map[], ledger)
  {
  }

  lemma RestoreOne(ledger: Ledger, flat: Flat, now: Ledger, k: Key, balance: int)
    requires Restores(ledger, flat, now)
    ensures Restores(ledger, flat[k := balance], now[k.main := Entries(now, k.main)[k.asset := balance]])
  {
    var flat', now' := flat[k := balance], now[k.main := Entries(now, k.main)[k.asset := balance]];
    forall x
      ensures Named(flat', x) <==> Named(flat, x) || x == k.main
    {
      NamedGrows(flat, k, balance, x);
    }
    forall x | x in now'
      ensures RestoresEntries(Entries(ledger, x), flat', x, now'[x])
    {
      if x in now {
        assert RestoresEntries(Entries(ledger, x), flat, x, now[x]);
      } else {
        KeysAreNamed(flat, x);
      }
    }
  }

  lemma NamedGrows(flat: Flat, k: Key, balance: int, x: Account)
    ensures Named(flat[k := balance], x) <==> Named(flat, x) || x == k.main
  {
    var next := flat[k := balance];
    if Named(flat, x) {
      var j :| j in flat && j.main == x;
      assert j in next;
    }
    assert k in next;
  }

  lemma KeysAreNamed(flat: Flat, x: Account)
    ensures forall a | Key(x, a) in flat :: Named(flat, x)
  {
    forall a | Key(x, a) in flat
      ensures Named(flat, x)
    {
      assert Key(x, a).main == x;
    }
  }

  /** Rebuilding a flattened ledger from nothing gives it back exactly when every account in it was
      collected and none is stored without a balance. */
  lemma CheckpointRoundTrip(ledger: Ledger, accounts: set<Account>, back: Ledger)
    requires Restores(map[], Flattened(ledger, accounts), back)
    ensures back == ledger <==> ledger.Keys <= accounts && Occupied(ledger)
  {
    var flat := Flattened(ledger, accounts);
    forall x
      ensures x in back <==> x in accounts && x in ledger && ledger[x] != map[]
    {
      FlatNames(ledger, accounts, x);
    }
    forall x | x in back
      ensures back[x] == ledger[x]
    {
      assert RestoresEntries(map[], flat, x, back[x]);
      SameEntries(ledger, accounts, x, back[x]);
    }
    hide Restores, Flattened;
    if back == ledger {
      forall x | x in ledger ensures x in accounts && ledger[x] != map[] { assert x in back; }
    }
  }

  /** Recovery: an empty state, the checkpoint's balances, and its block, snapshot and state change ids. */
  method Recover(raw: Raw) returns (stored: Stored)
    ensures Restores(map[], raw.balances, stored.ledger)
    ensures stored.info == Info(raw.lastBlock, raw.stid, raw.snapshotId)
  {
    var state := new LedgerState(map[]);
    ProcessCheckpoint(state, raw.balances);
    stored := Stored(state.balances, Info(raw.lastBlock, raw.stid, raw.snapshotId));
  }

  /** One worker's checkpoint recovered by another: the same stored state, exactly when the ledger holds only
      balances of registered accounts and the pot, and no account is stored without a balance. */
  method HandOver(stored: Stored, registered: seq<Account>, pot: Account) returns (recovered: Stored)
    ensures recovered == stored <==> stored.ledger.Keys <= Elements(registered) + {pot} && Occupied(stored.ledger)
  {
    var raw := FetchCheckpoint(stored, registered, pot);
    recovered := Recover(raw);
    CheckpointRoundTrip(stored.ledger, Elements(registered) + {pot}, recovered.ledger);
  }

  lemma FlatNames(ledger: Ledger, accounts: set<Account>, x: Account)
    ensures Named(Flattened(ledger, accounts), x) <==> x in accounts && x in ledger && ledger[x] != map[]
  {
    var flat := Flattened(ledger, accounts);
    if x in accounts && x in ledger && ledger[x] != map[] {
      var a :| a in ledger[x];
      assert Holds(ledger, Key(x, a));
      assert Key(x, a) in flat;
    }
  }

  lemma SameEntries(ledger: Ledger, accounts: set<Account>, x: Account, out: Balances)
    requires x in accounts && x in ledger && RestoresEntries(map[], Flattened(ledger, accounts), x, out)
    ensures out == ledger[x]
  {
    var flat := Flattened(ledger, accounts);
    forall a
      ensures Find(out, a) == Find(ledger[x], a)
    {
      assert Key(x, a) in flat <==> Holds(ledger, Key(x, a));
    }
    forall a
      ensures a in out <==> a in ledger[x]
    {
      assert Find(out, a) == Find(ledger[x], a);
    }
    forall a | a in out
      ensures out[a] == ledger[x][a]
    {
      assert Find(out, a) == Find(ledger[x], a);
    }
  }

  // ------------------------------------------------------------------ no run stores an account without a balance

  lemma SideOccupied(ledger: Ledger, terms: Terms, trade: Trade, maker: bool)
    requires Occupied(ledger) && SideSettled(ledger, terms, trade, maker).Done?
    ensures Occupied(SideSettled(ledger, terms, trade, maker).value)
  {
    hide RoundOff, Credit, DebitLeg;
  }

  lemma {:induction false} TradesOccupied(env: Env, ledger: Ledger, trades: seq<Trade>)
    requires Occupied(ledger) && TradesSettled(env, ledger, trades).Done?
    ensures Occupied(TradesSettled(env, ledger, trades).value)
    decreases |trades|
  {
    hide Occupied, SideSettled;
    if trades != [] {
      TradesOccupied(env, ledger, trades[..|trades| - 1]);
      var before, trade := TradesSettled(env, ledger, trades[..|trades| - 1]).value, trades[|trades| - 1];
      SideOccupied(before, env.terms, trade, true);
      SideOccupied(SideSettled(before, env.terms, trade, true).value, env.terms, trade, false);
    }
  }

  lemma {:induction false} FeesOccupied(ledger: Ledger, pot: Account, assets: seq<Asset>, fees: map<Asset, int>)
    requires Occupied(ledger) && FeesTaken(ledger, pot, assets, fees).Done?
    ensures Occupied(FeesTaken(ledger, pot, assets, fees).value)
    decreases |assets|
  {
    hide RoundOff;
    if assets != [] {
      FeesOccupied(ledger, pot, assets[..|assets| - 1], fees);
    }
  }

  lemma {:induction false} MessagesOccupied(env: Env, ledger: Ledger, msgs: seq<Ingress>, engine: Engine)
    requires Occupied(ledger) && MessagesImported(env, ledger, msgs, engine).Done?
    ensures Occupied(MessagesImported(env, ledger, msgs, engine).value.ledger)
    decreases |msgs|
  {
    hide MessageImported, Occupied;
    if msgs != [] {
      MessagesOccupied(env, ledger, msgs[..|msgs| - 1], engine);
      MessageOccupied(env, MessagesImported(env, ledger, msgs[..|msgs| - 1], engine).value.ledger, msgs[|msgs| - 1],
                      engine);
    }
  }

  lemma DebitOccupied(ledger: Ledger, account: Account, asset: Asset, amount: int)
    requires Occupied(ledger) && Debited(ledger, account, asset, amount, false).Done?
    ensures Occupied(Debited(ledger, account, asset, amount, false).value.ledger)
  {
    hide RoundOff;
  }

  lemma AddedOccupied(env: Env, ledger: Ledger, msg: Ingress, engine: Engine)
    requires Occupied(ledger) && msg.AddLiquidity? && LiquidityAdded(env, ledger, msg, engine).Done?
    ensures Occupied(LiquidityAdded(env, ledger, msg, engine).value.ledger)
  {
    hide RoundOff, Balance;
  }

  lemma RemovedOccupied(env: Env, ledger: Ledger, msg: Ingress, engine: Engine)
    requires Occupied(ledger) && msg.RemoveLiquidity? && LiquidityRemoved(env, ledger, msg, engine).Done?
    ensures Occupied(LiquidityRemoved(env, ledger, msg, engine).value.ledger)
  {
    hide Debited, Occupied, Balance;
    match engine[msg] {
      case RemoveLiquidityResult(market, _, _, base, quote) =>
        DebitOccupied(ledger, msg.pool, market.quote, quote);
        DebitOccupied(Debited(ledger, msg.pool, market.quote, quote, false).value.ledger, msg.pool, market.base, base);
      case _ =>
    }
  }

  lemma ClosedOccupied(ledger: Ledger, market: Market, pool: Account)
    requires Occupied(ledger) && PoolClosed(ledger, market, pool).Done?
    ensures Occupied(PoolClosed(ledger, market, pool).value.ledger)
  {
    hide Debited, Occupied, Balance;
    var base := Balance(ledger, pool, market.base);
    DebitOccupied(ledger, pool, market.base, base);
    DebitOccupied(Debited(ledger, pool, market.base, base, false).value.ledger, pool, market.quote,
                  Balance(ledger, pool, market.quote));
  }

  lemma MessageOccupied(env: Env, ledger: Ledger, msg: Ingress, engine: Engine)
    requires Occupied(ledger) && MessageImported(env, ledger, msg, engine).Done?
    ensures Occupied(MessageImported(env, ledger, msg, engine).value.ledger)
  {
    hide MessagesImported, FeesTaken;
    match msg {
      case Deposit(_, _, _, _) =>
      case AddLiquidity(_, _, _, _, _, _) => hide Debited; AddedOccupied(env, ledger, msg, engine);
      case RemoveLiquidity(_, _, _, _, _) => RemovedOccupied(env, ledger, msg, engine);
      case ForceClosePool(market, pool) => ClosedOccupied(ledger, market, pool);
      case WithdrawTradingFees =>
        hide Credited, Debited;
        FeesOccupied(ledger, env.terms.pot, env.allowlist, engine[WithdrawTradingFees].fees);
      case NewLMPEpoch(_) =>
      case OtherIngress(_) =>
    }
  }

  lemma {:induction false} ActionsOccupied(env: Env, p: Progress, actions: seq<Action>)
    requires Occupied(p.ledger) && ActionsDone(env, p, actions).Done?
    ensures Occupied(ActionsDone(env, p, actions).value.ledger)
    decreases |actions|
  {
    hide TradesSettled, MessagesImported, RoundOff;
    if actions != [] {
      ActionsOccupied(env, p, actions[..|actions| - 1]);
      var before, last := ActionsDone(env, p, actions[..|actions| - 1]).value, actions[|actions| - 1];
      if last.Trades? {
        TradesOccupied(env, before.ledger, last.trades);
      } else if last.BlockImport? {
        MessagesOccupied(env, before.ledger, env.ingressAt(last.block), last.engine);
      }
    }
  }

  /** So one half of the condition of the round trip holds after every run of batches from a ledger that meets it. */
  lemma {:induction false} SyncOccupied(env: Env, stored: Stored, batches: seq<Batch>)
    requires Occupied(stored.ledger)
    ensures Occupied(SyncedThrough(env, stored, batches).stored.ledger)
    decreases |batches|
  {
    hide Occupied, ActionsDone;
    if batches != [] && BatchStored(env, stored, batches[0]).Done? {
      ActionsOccupied(env, Progress(stored.ledger, stored.info, [], []), batches[0].actions);
      SyncOccupied(env, BatchStored(env, stored, batches[0]).value, batches[1..]);
    }
  }

  // ------------------------------------------------------------------ no run stores an unregistered account

  /** Every account a message credits is one of these. */
  predicate Registered(msg: Ingress, accounts: set<Account>) {
    && (msg.Deposit? ==> msg.main in accounts)
    && (msg.AddLiquidity? ==> msg.pool in accounts)
  }

  predicate AllRegistered(msgs: seq<Ingress>, accounts: set<Account>) {
    forall i | 0 <= i < |msgs| :: Registered(msgs[i], accounts)
  }

  ghost predicate ActionRegistered(env: Env, action: Action, accounts: set<Account>) {
    action.BlockImport? ==> AllRegistered(env.ingressAt(action.block), accounts)
  }

  ghost predicate BatchRegistered(env: Env, batch: Batch, accounts: set<Account>) {
    forall i | 0 <= i < |batch.actions| :: ActionRegistered(env, batch.actions[i], accounts)
  }

  /** A trading pair has two different assets. */
  ghost predicate SoundPairs(pairs: set<Market>) {
    forall m | m in pairs :: m.base != m.quote
  }

  /** A side debits the account it credits, in the other asset: an account that held nothing cannot settle. */
  lemma SideKeys(ledger: Ledger, terms: Terms, trade: Trade, maker: bool)
    requires SideSettled(ledger, terms, trade, maker).Done?
    requires (if maker then trade.maker else trade.taker).base != (if maker then trade.maker else trade.taker).quote
    ensures SideSettled(ledger, terms, trade, maker).value.Keys <= ledger.Keys + {terms.pot}
  {
    hide RoundOff;
  }

  lemma {:induction false} TradesKeys(env: Env, ledger: Ledger, trades: seq<Trade>, accounts: set<Account>)
    requires TradesSettled(env, ledger, trades).Done? && SoundPairs(env.pairs)
    requires ledger.Keys <= accounts && env.terms.pot in accounts
    ensures TradesSettled(env, ledger, trades).value.Keys <= accounts
    decreases |trades|
  {
    hide SideSettled;
    if trades != [] {
      TradesKeys(env, ledger, trades[..|trades| - 1], accounts);
      var before, trade := TradesSettled(env, ledger, trades[..|trades| - 1]).value, trades[|trades| - 1];
      SideKeys(before, env.terms, trade, true);
      SideKeys(SideSettled(before, env.terms, trade, true).value, env.terms, trade, false);
    }
  }

  lemma DebitKeys(ledger: Ledger, account: Account, asset: Asset, amount: int, withdrawal: bool)
    requires Debited(ledger, account, asset, amount, withdrawal).Done?
    ensures Debited(ledger, account, asset, amount, withdrawal).value.ledger.Keys == ledger.Keys
  {
    hide RoundOff;
  }

  lemma {:induction false} FeesKeys(ledger: Ledger, pot: Account, assets: seq<Asset>, fees: map<Asset, int>)
    requires FeesTaken(ledger, pot, assets, fees).Done?
    ensures FeesTaken(ledger, pot, assets, fees).value.Keys == ledger.Keys
    decreases |assets|
  {
    hide RoundOff, Debited, Balance;
    if assets != [] {
      var rest, asset := assets[..|assets| - 1], assets[|assets| - 1];
      FeesKeys(ledger, pot, rest, fees);
      if asset in fees {
        var before := FeesTaken(ledger, pot, rest, fees).value;
        DebitKeys(before, pot, asset, RoundOff(Balance(before, pot, asset)), true);
      }
    }
  }

  lemma RemovedKeys(env: Env, ledger: Ledger, msg: Ingress, engine: Engine)
    requires msg.RemoveLiquidity? && LiquidityRemoved(env, ledger, msg, engine).Done?
    ensures LiquidityRemoved(env, ledger, msg, engine).value.ledger.Keys == ledger.Keys
  {
    hide Debited, Balance;
    match engine[msg] {
      case RemoveLiquidityResult(market, _, _, base, quote) =>
        DebitKeys(ledger, msg.pool, market.quote, quote, false);
        DebitKeys(Debited(ledger, msg.pool, market.quote, quote, false).value.ledger, msg.pool, market.base, base,
                  false);
      case _ =>
    }
  }

  lemma ClosedKeys(ledger: Ledger, market: Market, pool: Account)
    requires PoolClosed(ledger, market, pool).Done?
    ensures PoolClosed(ledger, market, pool).value.ledger.Keys == ledger.Keys
  {
    hide Debited, Balance;
    var base := Balance(ledger, pool, market.base);
    DebitKeys(ledger, pool, market.base, base, false);
    DebitKeys(Debited(ledger, pool, market.base, base, false).value.ledger, pool, market.quote,
              Balance(ledger, pool, market.quote), false);
  }

  /** Only a deposit and added liquidity bring in an account. */
  lemma MessageKeys(env: Env, ledger: Ledger, msg: Ingress, engine: Engine, accounts: set<Account>)
    requires MessageImported(env, ledger, msg, engine).Done? && Registered(msg, accounts) && ledger.Keys <= accounts
    ensures MessageImported(env, ledger, msg, engine).value.ledger.Keys <= accounts
  {
    hide LiquidityRemoved, PoolClosed, FeesTaken, Balance, RoundOff;
    match msg {
      case RemoveLiquidity(_, _, _, _, _) => RemovedKeys(env, ledger, msg, engine);
      case ForceClosePool(market, pool) => ClosedKeys(ledger, market, pool);
      case WithdrawTradingFees => FeesKeys(ledger, env.terms.pot, env.allowlist, engine[WithdrawTradingFees].fees);
      case _ =>
    }
  }

  lemma {:induction false} MessagesKeys(env: Env, ledger: Ledger, msgs: seq<Ingress>, engine: Engine,
                                        accounts: set<Account>)
    requires MessagesImported(env, ledger, msgs, engine).Done? && AllRegistered(msgs, accounts)
             && ledger.Keys <= accounts
    ensures MessagesImported(env, ledger, msgs, engine).value.ledger.Keys <= accounts
    decreases |msgs|
  {
    hide MessageImported, Registered;
    if msgs != [] {
      MessagesKeys(env, ledger, msgs[..|msgs| - 1], engine, accounts);
      MessageKeys(env, MessagesImported(env, ledger, msgs[..|msgs| - 1], engine).value.ledger, msgs[|msgs| - 1],
                  engine, accounts);
    }
  }

  lemma ActionKeys(env: Env, p: Progress, action: Action, accounts: set<Account>)
    requires ActionDone(env, p, action).Done? && ActionRegistered(env, action, accounts)
    requires SoundPairs(env.pairs) && p.ledger.Keys <= accounts && env.terms.pot in accounts
    ensures ActionDone(env, p, action).value.ledger.Keys <= accounts
  {
    hide TradesSettled, MessagesImported, Debited, AllRegistered, SoundPairs;
    match action {
      case Trades(trades) => TradesKeys(env, p.ledger, trades, accounts);
      case BlockImport(block, engine, _) => MessagesKeys(env, p.ledger, env.ingressAt(block), engine, accounts);
      case Withdraw(request) => DebitKeys(p.ledger, request.main, request.asset, request.amount.value, true);
      case WithdrawV1(request, _) => DebitKeys(p.ledger, request.main, request.asset, request.amount.value, true);
      case _ =>
    }
  }

  lemma {:induction false} ActionsKeys(env: Env, p: Progress, actions: seq<Action>, accounts: set<Account>)
    requires ActionsDone(env, p, actions).Done?
    requires forall i | 0 <= i < |actions| :: ActionRegistered(env, actions[i], accounts)
    requires SoundPairs(env.pairs) && p.ledger.Keys <= accounts && env.terms.pot in accounts
    ensures ActionsDone(env, p, actions).value.ledger.Keys <= accounts
    decreases |actions|
  {
    hide ActionDone, ActionRegistered, SoundPairs;
    if actions != [] {
      ActionsKeys(env, p, actions[..|actions| - 1], accounts);
      ActionKeys(env, ActionsDone(env, p, actions[..|actions| - 1]).value, actions[|actions| - 1], accounts);
    }
  }

  ghost predicate BatchesRegistered(env: Env, batches: seq<Batch>, accounts: set<Account>) {
    forall i | 0 <= i < |batches| :: BatchRegistered(env, batches[i], accounts)
  }

  /** The other half of the condition: over any run the ledger names only accounts it named before, accounts
      that messages credit, and the pot. */
  lemma {:induction false} SyncRegistered(env: Env, stored: Stored, batches: seq<Batch>, accounts: set<Account>)
    requires BatchesRegistered(env, batches, accounts) && SoundPairs(env.pairs)
    requires stored.ledger.Keys <= accounts && env.terms.pot in accounts
    ensures SyncedThrough(env, stored, batches).stored.ledger.Keys <= accounts
    decreases |batches|
  {
    hide ActionsDone, ActionRegistered, SoundPairs;
    if batches != [] && BatchStored(env, stored, batches[0]).Done? {
      assert BatchRegistered(env, batches[0], accounts);
      ActionsKeys(env, Progress(stored.ledger, stored.info, [], []), batches[0].actions, accounts);
      SyncRegistered(env, BatchStored(env, stored, batches[0]).value, batches[1..], accounts);
    }
  }

  /** A run stopped after any of its batches and gone on with is the same run. */
  lemma {:induction false} SyncContinues(env: Env, stored: Stored, batches: seq<Batch>, more: seq<Batch>)
    requires SyncedThrough(env, stored, batches).accepted == |batches|
    ensures SyncedThrough(env, stored, batches + more).stored
            == SyncedThrough(env, SyncedThrough(env, stored, batches).stored, more).stored
    decreases |batches|
  {
    hide BatchStored;
    if batches == [] {
      assert batches + more == more;
    } else {
      var next := BatchStored(env, stored, batches[0]).value;
      assert (batches + more)[0] == batches[0] && (batches + more)[1..] == batches[1..] + more;
      SyncContinues(env, next, batches[1..], more);
    }
  }

  /** A worker that recovers from the checkpoint of one that has replayed the batches, and then replays more,
      stores what that worker would have stored. */
  method RecoverAndSync(env: Env, stored: Stored, batches: seq<Batch>, more: seq<Batch>, registered: seq<Account>)
    returns (recovered: Stored, r: Stored)
    requires Occupied(stored.ledger) && stored.ledger.Keys <= Elements(registered) + {env.terms.pot}
    requires BatchesRegistered(env, batches, Elements(registered) + {env.terms.pot}) && SoundPairs(env.pairs)
    ensures recovered == SyncedThrough(env, stored, batches).stored
    ensures SyncedThrough(env, stored, batches).accepted == |batches|
            ==> r == SyncedThrough(env, stored, batches + more).stored
  {
    hide SyncedThrough, Occupied, SoundPairs, BatchesRegistered;
    var replayed := SyncedThrough(env, stored, batches);
    SyncOccupied(env, stored, batches);
    SyncRegistered(env, stored, batches, Elements(registered) + {env.terms.pot});
    recovered := HandOver(replayed.stored, registered, env.terms.pot);
    r := SyncedThrough(env, recovered, more).stored;
    if replayed.accepted == |batches| {
      SyncContinues(env, stored, batches, more);
    }
  }
}
