/**
  Migration of burnt ERC20 tokens: three relayers approve an Ethereum transaction, the third
  approval mints and locks, locks expire or are reverted.
 */
module Erc20Migration {
  import opened ByteStrings

  type Account = nat
  type EthHash = nat

  const MIGRATION_LOCK := 0x7064_6578_6C6F_636B
  const U16 := 0x1_0000

  datatype Lock = Lock(id: nat, amount: nat)

  /** The approvals are counted in 16 bits, apart from the list of approvers. */
  datatype Burn = Burn(approvals: nat, approvers: seq<Account>)

  datatype Migration = Migration(operational: bool, relayers: map<Account, bool>, mintable: nat,
                                 lockedAt: map<Account, nat>,
                                 txs: map<EthHash, Burn>, locks: map<Account, seq<Lock>>, balances: map<Account, nat>,
                                 issuance: nat, block: nat)

  datatype Rules = Rules(maxRelayers: nat, lockPeriod: nat, existentialDeposit: nat)

  datatype Event =
    | Approved(hash: EthHash, relayer: Account)
    | Minted(hash: EthHash, to: Account, amount: nat, credited: nat, block: nat)
    | Unlocked(holder: Account, amount: nat, block: nat)
    | Reverted(holder: Account, amount: nat)

  datatype Error = NotOperational | UnknownRelayer | InvalidMintAmount | UnknownBeneficiary | LiquidityRestrictions
    | InvalidTxHash | AlreadyProcessed | RelayerLimitReached | BurnFailed

  datatype Outcome = Done(migration: Migration, log: seq<Event>) | Failed(error: Error)

  // ------------------------------------------------------------------ locks

  function LocksOf(m: Migration, x: Account): seq<Lock> {
    if x in m.locks then m.locks[x] else []
  }

  /** The locks of an account with the one of this id replaced. */
  function Replaced(locks: seq<Lock>, lock: Lock): seq<Lock> {
    if locks == [] then [lock]
    else if locks[0].id == lock.id then [lock] + Without(locks[1..], lock.id)
    else [locks[0]] + Replaced(locks[1..], lock)
  }

  function Without(locks: seq<Lock>, id: nat): seq<Lock> {
    if locks == [] then []
    else if locks[0].id == id then Without(locks[1..], id)
    else [locks[0]] + Without(locks[1..], id)
  }

  /** A lock of nothing is not set. */
  function SetLock(locks: seq<Lock>, lock: Lock): seq<Lock> {
    if lock.amount == 0 then locks else Replaced(locks, lock)
  }

  /** The amount of the first lock of this id. */
  function Locked(locks: seq<Lock>, id: nat): nat {
    if locks == [] then 0
    else if locks[0].id == id then locks[0].amount
    else Locked(locks[1..], id)
  }

  ghost predicate AtMostOne(locks: seq<Lock>, id: nat) {
    forall i, j | 0 <= i < j < |locks| :: !(locks[i].id == id && locks[j].id == id)
  }

  lemma {:induction false} NoneLocked(locks: seq<Lock>, id: nat)
    requires forall i | 0 <= i < |locks| :: locks[i].id != id
    ensures Locked(locks, id) == 0
  {
    if locks != [] {
      NoneLocked(locks[1..], id);
    }
  }

  lemma {:induction false} WithoutLock(locks: seq<Lock>, id: nat)
    ensures var r := Without(locks, id); Locked(r, id) == 0 && forall i | 0 <= i < |r| :: r[i].id != id
  {
    if locks != [] {
      WithoutLock(locks[1..], id);
    }
  }

  lemma {:induction false} ReplacedLock(locks: seq<Lock>, lock: Lock)
    ensures var r := Replaced(locks, lock); Locked(r, lock.id) == lock.amount && AtMostOne(r, lock.id)
  {
    if locks != [] {
      ReplacedLock(locks[1..], lock);
      WithoutLock(locks[1..], lock.id);
    }
  }

  lemma SetLockOne(locks: seq<Lock>, lock: Lock)
    requires AtMostOne(locks, lock.id)
    ensures AtMostOne(SetLock(locks, lock), lock.id)
    ensures Locked(SetLock(locks, lock), lock.id) == if lock.amount == 0 then Locked(locks, lock.id) else lock.amount
  {
    ReplacedLock(locks, lock);
  }

  lemma RemoveLockOne(locks: seq<Lock>, id: nat)
    ensures AtMostOne(Without(locks, id), id) && Locked(Without(locks, id), id) == 0
  {
    WithoutLock(locks, id);
  }

  ghost predicate OneEach(locks: map<Account, seq<Lock>>) {
    forall x | x in locks :: AtMostOne(locks[x], MIGRATION_LOCK)
  }

  lemma OneOf(locks: map<Account, seq<Lock>>, x: Account)
    requires OneEach(locks)
    ensures AtMostOne(if x in locks then locks[x] else [], MIGRATION_LOCK)
  {
  }

  lemma OneEachUpdate(locks: map<Account, seq<Lock>>, x: Account, held: seq<Lock>)
    requires OneEach(locks) && AtMostOne(held, MIGRATION_LOCK)
    ensures OneEach(locks[x := held])
  {
    hide AtMostOne;
  }

  /** The loop that looks up the previously locked amount: with one such lock at most, the first is the last. */
  method PreviousLockedBalance(locks: seq<Lock>) returns (amount: nat)
    requires AtMostOne(locks, MIGRATION_LOCK)
    ensures amount == Locked(locks, MIGRATION_LOCK)
  {
    amount := 0;
    assert locks[0..] == locks;
    var i := 0;
    ghost var seen := false;
    while i < |locks|
      invariant 0 <= i <= |locks|
      invariant seen <==> exists k | 0 <= k < i :: locks[k].id == MIGRATION_LOCK
      invariant Locked(locks, MIGRATION_LOCK) == if seen then amount else Locked(locks[i..], MIGRATION_LOCK)
      invariant !seen ==> amount == 0
    {
      assert locks[i..][1..] == locks[i + 1..];
      if locks[i].id == MIGRATION_LOCK {
        amount := locks[i].amount;
        seen := true;
      }
      i := i + 1;
    }
  }

  /** The same lookup stopping at the first. */
  method AmountToBurn(locks: seq<Lock>) returns (amount: nat)
    ensures amount == Locked(locks, MIGRATION_LOCK)
  {
    amount := 0;
    assert locks[0..] == locks;
    var i := 0;
    while i < |locks|
      invariant 0 <= i <= |locks|
      invariant amount == 0 && Locked(locks, MIGRATION_LOCK) == Locked(locks[i..], MIGRATION_LOCK)
    {
      assert locks[i..][1..] == locks[i + 1..];
      if locks[i].id == MIGRATION_LOCK {
        amount := locks[i].amount;
        break;
      }
      i := i + 1;
    }
  }

  // ------------------------------------------------------------------ the calls

  function BalanceOf(m: Migration, x: Account): nat {
    if x in m.balances then m.balances[x] else 0
  }

  function BurnOf(m: Migration, hash: EthHash): Burn {
    if hash in m.txs then m.txs[hash] else Burn(0, [])
  }

  predicate Active(m: Migration, relayer: Account) {
    relayer in m.relayers && m.relayers[relayer]
  }

  /** Depositing less than the existential deposit into an account that does not exist creates nothing. */
  function Credited(rules: Rules, m: Migration, to: Account, amount: nat): nat {
    if BalanceOf(m, to) == 0 && amount < rules.existentialDeposit then 0 else amount
  }

  function MintedTo(rules: Rules, m: Migration, to: Account, amount: nat): Migration
    requires amount <= m.mintable
  {
    var credited := Credited(rules, m, to, amount);
    var lock := Lock(MIGRATION_LOCK, amount + Locked(LocksOf(m, to), MIGRATION_LOCK));
    m.(balances := m.balances[to := BalanceOf(m, to) + credited], issuance := m.issuance + credited,
       locks := m.locks[to := SetLock(LocksOf(m, to), lock)], lockedAt := m.lockedAt[to := m.block],
       mintable := m.mintable - amount)
  }

  function Mint(rules: Rules, m: Migration, relayer: Account, to: Account, amount: nat, hash: EthHash): Outcome {
    var burn := BurnOf(m, hash);
    if hash == 0 then Failed(InvalidTxHash)
    else if !m.operational then Failed(NotOperational)
    else if relayer in burn.approvers then Failed(AlreadyProcessed)
    else if !Active(m, relayer) then Failed(UnknownRelayer)
    else if amount > m.mintable then Failed(InvalidMintAmount)
    else if |burn.approvers| >= rules.maxRelayers then Failed(RelayerLimitReached)
    else
      var next := Burn((burn.approvals + 1) % U16, burn.approvers + [relayer]);
      if next.approvals == 3 then
        Done(MintedTo(rules, m, to, amount).(txs := m.txs[hash := next]),
             [Approved(hash, relayer), Minted(hash, to, amount, Credited(rules, m, to, amount), m.block)])
      else Done(m.(txs := m.txs[hash := next]), [Approved(hash, relayer)])
  }

  function Unlocking(m: Migration, holder: Account): Migration {
    m.(lockedAt := m.lockedAt - {holder}, locks := m.locks[holder := Without(LocksOf(m, holder), MIGRATION_LOCK)])
  }

  function Unlock(rules: Rules, m: Migration, holder: Account): Outcome {
    if !m.operational then Failed(NotOperational)
    else if holder !in m.lockedAt then Failed(UnknownBeneficiary)
    else if m.lockedAt[holder] + rules.lockPeriod > m.block then Failed(LiquidityRestrictions)
    else Done(Unlocking(m, holder), [Unlocked(holder, Locked(LocksOf(m, holder), MIGRATION_LOCK), m.block)])
  }

  /** Whether more than the balance stands in the way of the burn, other locks or holds, is `burns`. */
  function Revert(m: Migration, holder: Account, burns: bool): Outcome {
    var amount := Locked(LocksOf(m, holder), MIGRATION_LOCK);
    var freed := Unlocking(m, holder);
    if amount > BalanceOf(m, holder) || amount > m.issuance || !burns then Failed(BurnFailed)
    else
      Done(freed.(balances := m.balances[holder := BalanceOf(m, holder) - amount], issuance := m.issuance - amount,
                  mintable := m.mintable + amount),
           [Reverted(holder, amount)])
  }

  /** The pallet's storage. A call that fails leaves it as it was. */
  class Storage {
    var operational: bool
    var relayers: map<Account, bool>
    var mintable: nat
    var lockedAt: map<Account, nat>
    var txs: map<EthHash, Burn>
    var locks: map<Account, seq<Lock>>
    var balances: map<Account, nat>
    var issuance: nat
    var block: nat

    ghost function State(): Migration
      reads this
    {
      Migration(operational, relayers, mintable, lockedAt, txs, locks, balances, issuance, block)
    }

    ghost predicate Valid()
      reads this
    {
      OneEach(locks)
    }

    method Deposit(rules: Rules, to: Account, amount: nat)
      modifies `balances, `issuance
      ensures var credited := Credited(rules, old(State()), to, amount);
              balances == old(balances)[to := BalanceOf(old(State()), to) + credited]
                  && issuance == old(issuance) + credited
    {
      var balance := if to in balances then balances[to] else 0;
      if balance == 0 && amount < rules.existentialDeposit {
        balances := balances[to := balance];
      } else {
        balances, issuance := balances[to := balance + amount], issuance + amount;
      }
    }

    method LockTokens(to: Account, amount: nat)
      requires Valid()
      modifies `locks, `lockedAt
      ensures Valid() && lockedAt == old(lockedAt)[to := block]
      ensures var held := LocksOf(old(State()), to);
              locks == old(locks)[to := SetLock(held, Lock(MIGRATION_LOCK, amount + Locked(held, MIGRATION_LOCK)))]
    {
      hide AtMostOne, SetLock, Locked, OneEach;
      OneOf(locks, to);
      var held := if to in locks then locks[to] else [];
      var previous := PreviousLockedBalance(held);
      var lock := Lock(MIGRATION_LOCK, amount + previous);
      SetLockOne(held, lock);
      OneEachUpdate(locks, to, SetLock(held, lock));
      locks, lockedAt := locks[to := SetLock(held, lock)], lockedAt[to := block];
    }

    method ReleaseLock(holder: Account)
      requires Valid()
      modifies `locks, `lockedAt
      ensures Valid() && lockedAt == old(lockedAt) - {holder}
      ensures locks == old(locks)[holder := Without(LocksOf(old(State()), holder), MIGRATION_LOCK)]
    {
      hide AtMostOne, OneEach, Without;
      var held := if holder in locks then locks[holder] else [];
      var others := Without(held, MIGRATION_LOCK);
      RemoveLockOne(held, MIGRATION_LOCK);
      OneEachUpdate(locks, holder, others);
      lockedAt, locks := lockedAt - {holder}, locks[holder := others];
    }

    method BurnFrom(holder: Account, amount: nat, burns: bool) returns (ok: bool)
      modifies `balances, `issuance
      ensures ok <==> amount <= BalanceOf(old(State()), holder) && amount <= old(issuance) && burns
      ensures ok ==> balances == old(balances)[holder := BalanceOf(old(State()), holder) - amount]
                     && issuance == old(issuance) - amount
      ensures !ok ==> balances == old(balances) && issuance == old(issuance)
    {
      var balance := if holder in balances then balances[holder] else 0;
      ok := amount <= balance && amount <= issuance && burns;
      if ok {
        balances, issuance := balances[holder := balance - amount], issuance - amount;
      }
    }

    method MintAndLock(rules: Rules, to: Account, amount: nat)
      requires Valid() && amount <= mintable
      modifies this
      ensures Valid() && State() == MintedTo(rules, old(State()), to, amount) && txs == old(txs)
    {
      hide OneEach, SetLock, Locked, Credited;
      Deposit(rules, to, amount);
      LockTokens(to, amount);
      mintable := mintable - amount;
    }

    method MintTokens(rules: Rules, relayer: Account, to: Account, amount: nat, hash: EthHash)
      returns (error: Option<Error>, ghost log: seq<Event>)
      requires Valid()
      modifies this
      ensures Valid()
      ensures var r := Mint(rules, old(State()), relayer, to, amount, hash);
              if r.Done? then error.None? && r == Done(State(), log)
              else error == Some(r.error) && State() == old(State()) && log == []
    {
      hide OneEach, MintedTo, Locked;
      if hash == 0 {
        return Some(InvalidTxHash), [];
      }
      if !operational {
        return Some(NotOperational), [];
      }
      var burn := if hash in txs then txs[hash] else Burn(0, []);
      if relayer in burn.approvers {
        return Some(AlreadyProcessed), [];
      }
      if relayer !in relayers || !relayers[relayer] {
        return Some(UnknownRelayer), [];
      }
      if amount > mintable {
        return Some(InvalidMintAmount), [];
      }
      burn := burn.(approvals := (burn.approvals + 1) % U16);
      if |burn.approvers| >= rules.maxRelayers {
        return Some(RelayerLimitReached), [];
      }
      burn := burn.(approvers := burn.approvers + [relayer]);
      log := [Approved(hash, relayer)];
      if burn.approvals == 3 {
        log := log + [Minted(hash, to, amount, Credited(rules, State(), to, amount), block)];
        MintAndLock(rules, to, amount);
      }
      txs := txs[hash := burn];
      error := None;
    }

    method UnlockTokens(rules: Rules, holder: Account) returns (error: Option<Error>, ghost log: seq<Event>)
      requires Valid()
      modifies this
      ensures Valid()
      ensures var r := Unlock(rules, old(State()), holder);
              if r.Done? then error.None? && r == Done(State(), log)
              else error == Some(r.error) && State() == old(State()) && log == []
    {
      hide AtMostOne, OneEach, Without, Locked;
      if !operational {
        return Some(NotOperational), [];
      }
      if holder !in lockedAt {
        return Some(UnknownBeneficiary), [];
      }
      var at := lockedAt[holder];
      if at + rules.lockPeriod > block {
        return Some(LiquidityRestrictions), [];
      }
      log := [Unlocked(holder, Locked(LocksOf(State(), holder), MIGRATION_LOCK), block)];
      ReleaseLock(holder);
      return None, log;
    }

    method RemoveMinted(holder: Account, burns: bool) returns (error: Option<Error>, ghost log: seq<Event>)
      requires Valid()
      modifies this
      ensures Valid()
      ensures var r := Revert(old(State()), holder, burns);
              if r.Done? then error.None? && r == Done(State(), log)
              else error == Some(r.error) && State() == old(State()) && log == []
    {
      hide OneEach, Without, Locked;
      var held := if holder in locks then locks[holder] else [];
      var amount := AmountToBurn(held);
      var before := (locks, lockedAt);
      ReleaseLock(holder);
      var burnt := BurnFrom(holder, amount, burns);
      if !burnt {
        locks, lockedAt := before.0, before.1;
        return Some(BurnFailed), [];
      }
      mintable := mintable + amount;
      return None, [Reverted(holder, amount)];
    }
  }

  // ------------------------------------------------------------------ runs

  datatype Op =
    | MintOp(relayer: Account, to: Account, amount: nat, hash: EthHash)
    | UnlockOp(holder: Account)
    | RevertOp(holder: Account, burns: bool)
    | SetOperational(status: bool)
    | SetRelayer(relayer: Account, status: bool)
    | NextBlock
    | Move(x: Account, balance: nat, others: seq<Lock>)  // transfers, and other pallets' locks

  /** Other locks come and go around the migration lock. */
  function Moved(m: Migration, x: Account, balance: nat, others: seq<Lock>): Migration {
    var amount := Locked(LocksOf(m, x), MIGRATION_LOCK);
    m.(balances := m.balances[x := balance],
       locks := m.locks[x := SetLock(Without(others, MIGRATION_LOCK), Lock(MIGRATION_LOCK, amount))])
  }

  function Outcomes(rules: Rules, m: Migration, op: Op): Outcome {
    match op
    case MintOp(relayer, to, amount, hash) => Mint(rules, m, relayer, to, amount, hash)
    case UnlockOp(holder) => Unlock(rules, m, holder)
    case RevertOp(holder, burns) => Revert(m, holder, burns)
    case SetOperational(status) => Done(m.(operational := status), [])
    case SetRelayer(relayer, status) => Done(m.(relayers := m.relayers[relayer := status]), [])
    case NextBlock => Done(m.(block := m.block + 1), [])
    case Move(x, balance, others) => Done(Moved(m, x, balance, others), [])
  }

  datatype Effect = Effect(migration: Migration, log: seq<Event>)

  function Step(rules: Rules, m: Migration, op: Op): Effect {
    match Outcomes(rules, m, op)
    case Done(after, log) => Effect(after, log)
    case Failed(_) => Effect(m, [])
  }

  function Run(rules: Rules, m: Migration, ops: seq<Op>): Effect {
    if ops == [] then Effect(m, [])
    else
      var before := Run(rules, m, ops[..|ops| - 1]);
      var last := Step(rules, before.migration, ops[|ops| - 1]);
      Effect(last.migration, before.log + last.log)
  }

  /** At genesis nothing is approved, minted or locked, and the cap is mintable. */
  ghost predicate Genesis(m: Migration, cap: nat) {
    && m.mintable == cap && m.lockedAt == map[] && m.txs == map[]
    && forall x | x in m.locks :: Without(m.locks[x], MIGRATION_LOCK) == m.locks[x]
  }
}
