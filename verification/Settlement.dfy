/**
  Off-chain balances: crediting, debiting and trades. Amounts are integers in units of
  10^-28, the finest step of the decimal type; a balance is cut to nine decimals whenever it
  changes, but a first credit is stored as it is.
 */
module Settlement {

  type Account = nat

  datatype Asset = Polkadex | Token(id: nat)

  type Balances = map<Asset, int>
  type Ledger = map<Account, Balances>

  datatype Result<+T> = Done(value: T) | Failed(error: string) {
    predicate IsFailure() {
      Failed?
    }

    function PropagateFailure<U>(): Result<U>
      requires Failed?
    {
      Failed(error)
    }

    function Extract(): T
      requires Done?
    {
      value
    }
  }

  /** One, in units of 10^-28. */
  const ONE: int := 1_0000000_0000000_0000000_0000000

  /** The ninth decimal place. */
  const ULP: int := 10_000_000_000_000_000_000

  /** Cuts an amount to nine decimals, toward zero. */
  function RoundOff(x: int): int {
    if x >= 0 then x - x % ULP else x + (-x) % ULP
  }

  function AssetBalance(balances: Balances, asset: Asset): int {
    if asset in balances then balances[asset] else 0
  }

  function Balance(ledger: Ledger, account: Account, asset: Asset): int {
    if account in ledger then AssetBalance(ledger[account], asset) else 0
  }

  // ------------------------------------------------------------------ crediting and debiting

  function Credited(ledger: Ledger, account: Account, asset: Asset, amount: int): Ledger {
    var balances := if account in ledger then ledger[account] else map[];
    ledger[account := balances[asset :=
      if asset in balances then RoundOff(balances[asset] + amount) else amount]]
  }

  datatype Debit = Debit(ledger: Ledger, amount: int)

  /** A debit of more than there is fails, or takes what there is if it is a withdrawal. */
  function Debited(ledger: Ledger, account: Account, asset: Asset, amount: int, withdrawal: bool): Result<Debit> {
    if account !in ledger then Failed("Account not found in trie")
    else if asset !in ledger[account] then Failed("NotEnoughBalance: zero balance")
    else
      var held := ledger[account][asset];
      if held < amount && !withdrawal then Failed("NotEnoughBalance")
      else
        var taken := if held < amount then held else amount;
        Done(Debit(ledger[account := ledger[account][asset := RoundOff(held - taken)]], taken))
  }

  // ------------------------------------------------------------------ trades

  datatype Side = Bid | Ask

  datatype Order = Order(main: Account, base: Asset, quote: Asset, side: Side, verified: bool)

  datatype Trade = Trade(maker: Order, taker: Order, price: int, amount: int)

  /** What settlement is configured with: decimal multiplication, the fee fractions and the fee pot. */
  datatype Terms = Terms(mul: (int, int) -> int, makerFraction: int, takerFraction: int, pot: Account)

  /** An amount of an asset that an account is to be credited or debited with. */
  datatype Leg = Leg(account: Account, asset: Asset, amount: int)

  function Credit(terms: Terms, trade: Trade, maker: bool): Leg {
    var order := if maker then trade.maker else trade.taker;
    match order.side
    case Ask => Leg(order.main, order.quote, terms.mul(trade.price, trade.amount))
    case Bid => Leg(order.main, order.base, trade.amount)
  }

  function DebitLeg(terms: Terms, trade: Trade, maker: bool): Leg {
    var order := if maker then trade.maker else trade.taker;
    match order.side
    case Ask => Leg(order.main, order.base, trade.amount)
    case Bid => Leg(order.main, order.quote, terms.mul(trade.price, trade.amount))
  }

  /** Credits a side less its fee, gives the fee to the pot, and debits the side. */
  function SideSettled(ledger: Ledger, terms: Terms, trade: Trade, maker: bool): Result<Ledger> {
    var credit := Credit(terms, trade, maker);
    var fee := terms.mul(credit.amount, if maker then terms.makerFraction else terms.takerFraction);
    var paid := Credited(ledger, credit.account, credit.asset, credit.amount - fee);
    var potted := Credited(paid, terms.pot, credit.asset, fee);
    var debit := DebitLeg(terms, trade, maker);
    var taken :- Debited(potted, debit.account, debit.asset, debit.amount, false);
    Done(taken.ledger)
  }

  /** The trade passes its signature and market checks for the pair it is looked up under. */
  predicate Verified(trade: Trade) {
    && trade.maker.verified && trade.taker.verified
    && trade.maker.base == trade.taker.base && trade.maker.quote == trade.taker.quote
  }

  function Settled(ledger: Ledger, terms: Terms, trade: Trade): Result<Ledger> {
    if !Verified(trade) then Failed("InvalidTrade")
    else
      var half :- SideSettled(ledger, terms, trade, true);
      SideSettled(half, terms, trade, false)
  }

  class LedgerState {
    var balances: Ledger

    constructor (ledger: Ledger)
      ensures balances == ledger
    {
      balances := ledger;
    }

    method GetBalance(account: Account, asset: Asset) returns (r: int)
      ensures r == Balance(balances, account, asset)
    {
      r := 0;
      if account in balances && asset in balances[account] {
        r := balances[account][asset];
      }
    }

    method AddBalance(account: Account, asset: Asset, amount: int)
      modifies this
      ensures balances == Credited(old(balances), account, asset, amount)
    {
      var entries: Balances := map[];
      if account in balances {
        entries := balances[account];
      }
      if asset in entries {
        entries := entries[asset := RoundOff(entries[asset] + amount)];
      } else {
        entries := entries[asset := amount];
      }
      balances := balances[account := entries];
    }

    method SubBalance(account: Account, asset: Asset, amount: int, withdrawal: bool) returns (r: Result<int>)
      modifies this
      ensures match Debited(old(balances), account, asset, amount, withdrawal)
              case Done(debit) => r == Done(debit.amount) && balances == debit.ledger
              case Failed(error) => r == Failed(error) && balances == old(balances)
    {
      if account !in balances {
        return Failed("Account not found in trie");
      }
      var entries := balances[account];
      if asset !in entries {
        return Failed("NotEnoughBalance: zero balance");
      }
      var taken := amount;
      if entries[asset] < amount {
        if withdrawal {
          taken := entries[asset];
        } else {
          return Failed("NotEnoughBalance");
        }
      }
      entries := entries[asset := RoundOff(entries[asset] - taken)];
      balances := balances[account := entries];
      return Done(taken);
    }

    /** A trade that fails half way leaves the balances of the first half changed; the caller drops them. */
    method ProcessTrade(terms: Terms, trade: Trade) returns (r: Result<()>)
      modifies this
      ensures match Settled(old(balances), terms, trade)
              case Done(ledger) => r == Done(()) && balances == ledger
              case Failed(error) => r == Failed(error)
    {
      hide Credited, Debited, Credit, DebitLeg;
      if !Verified(trade) {
        return Failed("InvalidTrade");
      }
      var credit := Credit(terms, trade, true);
      var fee := terms.mul(credit.amount, terms.makerFraction);
      AddBalance(credit.account, credit.asset, credit.amount - fee);
      AddBalance(terms.pot, credit.asset, fee);
      var debit := DebitLeg(terms, trade, true);
      var _ :- SubBalance(debit.account, debit.asset, debit.amount, false);

      credit := Credit(terms, trade, false);
      fee := terms.mul(credit.amount, terms.takerFraction);
      AddBalance(credit.account, credit.asset, credit.amount - fee);
      AddBalance(terms.pot, credit.asset, fee);
      debit := DebitLeg(terms, trade, false);
      var _ :- SubBalance(debit.account, debit.asset, debit.amount, false);
      return Done(());
    }
  }

  // ------------------------------------------------------------------ totals

  /** The sum of an asset over all accounts. */
  ghost function Total(ledger: Ledger, asset: Asset): int {
    if ledger == map[] then 0
    else
      var account :| account in ledger;
      AssetBalance(ledger[account], asset) + Total(ledger - {account}, asset)
  }

  /** Any account can be counted first. */
  lemma {:induction false} TotalWithout(ledger: Ledger, asset: Asset, account: Account)
    requires account in ledger
    ensures Total(ledger, asset) == AssetBalance(ledger[account], asset) + Total(ledger - {account}, asset)
    decreases |ledger|
  {
    var first :| first in ledger && Total(ledger, asset) == AssetBalance(ledger[first], asset)
        + Total(ledger - {first}, asset);
    if first != account {
      TotalWithout(ledger - {first}, asset, account);
      TotalWithout(ledger - {account}, asset, first);
      assert ledger - {first} - {account} == ledger - {account} - {first};
    }
  }

  lemma TotalUpdate(ledger: Ledger, asset: Asset, account: Account, balances: Balances)
    ensures Total(ledger[account := balances], asset)
         == Total(ledger, asset) - Balance(ledger, account, asset) + AssetBalance(balances, asset)
  {
    var after := ledger[account := balances];
    TotalWithout(after, asset, account);
    if account in ledger {
      TotalWithout(ledger, asset, account);
      assert after - {account} == ledger - {account};
    } else {
      assert after - {account} == ledger;
    }
  }
}
