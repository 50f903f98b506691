/**
  What the migration does to balances over every run: a mint pays its beneficiary, a revert takes
  the same back, and nothing else of it touches a balance.
 */
module Erc20Balances {
  import opened ByteStrings
  import opened Erc20Migration
  import opened Erc20Properties

  // ------------------------------------------------------------------ one account

  /** What mints have credited to an account, and what reverts have taken from it. */
  function CreditedTo(log: seq<Event>, x: Account): nat {
    if log == [] then 0
    else
      var e := log[|log| - 1];
      CreditedTo(log[..|log| - 1], x) + if e.Minted? && e.to == x then e.credited else 0
  }

  function RevertedFrom(log: seq<Event>, x: Account): nat {
    if log == [] then 0
    else
      var e := log[|log| - 1];
      RevertedFrom(log[..|log| - 1], x) + if e.Reverted? && e.holder == x then e.amount else 0
  }

  lemma {:induction false} SumsConcat(a: seq<Event>, b: seq<Event>, x: Account)
    ensures CreditedTo(a + b, x) == CreditedTo(a, x) + CreditedTo(b, x)
    ensures RevertedFrom(a + b, x) == RevertedFrom(a, x) + RevertedFrom(b, x)
    decreases |b|
  {
    if b == [] {
      ConcatNothing(a);
    } else {
      SumsConcat(a, b[..|b| - 1], x);
      assert (a + b)[..|a + b| - 1] == a + b[..|b| - 1];
    }
  }

  lemma SumsOne(e: Event, x: Account)
    ensures CreditedTo([e], x) == if e.Minted? && e.to == x then e.credited else 0
    ensures RevertedFrom([e], x) == if e.Reverted? && e.holder == x then e.amount else 0
  {
    assert [e][..0] == [];
  }

  lemma SumsNone(x: Account)
    ensures CreditedTo([], x) == 0 && RevertedFrom([], x) == 0
  {
  }

  /** The third approval pays the beneficiary the amount, all of it unless it is too small for a new account, and
      nobody else. */
  lemma MintPays(rules: Rules, m: Migration, relayer: Account, to: Account, amount: nat, hash: EthHash, x: Account)
    requires Mint(rules, m, relayer, to, amount, hash).Done?
    ensures var r := Mint(rules, m, relayer, to, amount, hash);
            var third := (BurnOf(m, hash).approvals + 1) % U16 == 3;
            var paid := if BalanceOf(m, to) == 0 && amount < rules.existentialDeposit then 0 else amount;
            && BalanceOf(r.migration, x) == BalanceOf(m, x) + (if third && x == to then paid else 0)
            && r.migration.issuance == m.issuance + (if third then paid else 0)
            && CreditedTo(r.log, x) == (if third && x == to then paid else 0) && RevertedFrom(r.log, x) == 0
  {
    hide SetLock, Locked;
    var r := Mint(rules, m, relayer, to, amount, hash);
    SumsOne(r.log[0], x);
    if |r.log| == 2 {
      assert r.log == [r.log[0]] + [r.log[1]];
      SumsOne(r.log[1], x);
      SumsConcat([r.log[0]], [r.log[1]], x);
    } else {
      assert r.log == [r.log[0]];
    }
  }

  /** A step moves a balance by what its events credit and revert, or sets it. */
  lemma StepPays(rules: Rules, m: Migration, op: Op, x: Account)
    ensures var e := Step(rules, m, op);
            if op.Move? && op.x == x then BalanceOf(e.migration, x) == op.balance && e.log == []
            else BalanceOf(e.migration, x) + RevertedFrom(e.log, x) == BalanceOf(m, x) + CreditedTo(e.log, x)
  {
    hide SetLock, Locked, Without, Mint, CreditedTo, RevertedFrom;
    SumsNone(x);
    var e := Step(rules, m, op);
    match op {
      case MintOp(relayer, to, amount, hash) =>
        if Mint(rules, m, relayer, to, amount, hash).Done? {
          MintPays(rules, m, relayer, to, amount, hash, x);
        }
      case UnlockOp(_) =>
        if e.log != [] {
          SumsOne(e.log[0], x);
        }
      case RevertOp(_, _) =>
        if e.log != [] {
          SumsOne(e.log[0], x);
        }
      case _ =>
    }
  }

  lemma {:induction false} RunLogGrows(rules: Rules, m: Migration, ops: seq<Op>, k: nat)
    requires k <= |ops|
    ensures Run(rules, m, ops[..k]).log <= Run(rules, m, ops).log
    decreases |ops|
  {
    hide Step;
    if k < |ops| {
      var rest := ops[..|ops| - 1];
      RunLogGrows(rules, m, rest, k);
      assert rest[..k] == ops[..k];
    } else {
      assert ops[..k] == ops;
    }
  }

  /** The events after the first k operations. */
  ghost function LogAfter(rules: Rules, m: Migration, ops: seq<Op>, k: nat): seq<Event>
    requires k <= |ops|
  {
    RunLogGrows(rules, m, ops, k);
    Run(rules, m, ops).log[|Run(rules, m, ops[..k]).log|..]
  }

  /** Over every run a balance is the first one, or the one set by the last move of the account, plus what mints have
      credited to it since, less what reverts have taken from it since. */
  lemma {:induction false} BalanceIs(rules: Rules, m: Migration, ops: seq<Op>, x: Account, k: nat)
    requires k <= |ops| && (k > 0 ==> ops[k - 1].Move? && ops[k - 1].x == x)
    requires forall i | k <= i < |ops| :: !(ops[i].Move? && ops[i].x == x)
    ensures var since := LogAfter(rules, m, ops, k);
            BalanceOf(Run(rules, m, ops).migration, x) + RevertedFrom(since, x)
            == (if k == 0 then BalanceOf(m, x) else ops[k - 1].balance) + CreditedTo(since, x)
    decreases |ops|
  {
    hide Step, CreditedTo, RevertedFrom;
    SumsNone(x);
    if k < |ops| {
      var rest, last := ops[..|ops| - 1], ops[|ops| - 1];
      var before := Run(rules, m, rest);
      assert rest[..k] == ops[..k];
      BalanceIs(rules, m, rest, x, k);
      StepPays(rules, before.migration, last, x);
      LogNext(rules, m, ops, k);
      SumsConcat(LogAfter(rules, m, rest, k), Step(rules, before.migration, last).log, x);
    } else {
      assert ops[..k] == ops;
      assert LogAfter(rules, m, ops, k) == [];
      if k > 0 {
        StepPays(rules, Run(rules, m, ops[..k - 1]).migration, ops[k - 1], x);
      }
    }
  }

  lemma LogNext(rules: Rules, m: Migration, ops: seq<Op>, k: nat)
    requires k < |ops|
    ensures var rest := ops[..|ops| - 1];
            LogAfter(rules, m, ops, k)
            == LogAfter(rules, m, rest, k) + Step(rules, Run(rules, m, rest).migration, ops[|ops| - 1]).log
  {
    hide Step;
    var rest := ops[..|ops| - 1];
    assert rest[..k] == ops[..k];
    RunLogGrows(rules, m, rest, k);
  }

  // ------------------------------------------------------------------ all accounts

  ghost function AllHeld(balances: map<Account, nat>): nat {
    if balances == map[] then 0
    else
      var x :| x in balances;
      balances[x] + AllHeld(balances - {x})
  }

  lemma {:induction false} AllHeldWithout(balances: map<Account, nat>, x: Account)
    requires x in balances
    ensures AllHeld(balances) == balances[x] + AllHeld(balances - {x})
    decreases |balances|
  {
    var y :| y in balances && AllHeld(balances) == balances[y] + AllHeld(balances - {y});
    if y != x {
      AllHeldWithout(balances - {y}, x);
      AllHeldWithout(balances - {x}, y);
      assert balances - {y} - {x} == balances - {x} - {y};
    }
  }

  lemma AllHeldUpdate(m: Migration, x: Account, balance: nat)
    ensures AllHeld(m.balances[x := balance]) == AllHeld(m.balances) - BalanceOf(m, x) + balance
  {
    var after := m.balances[x := balance];
    AllHeldWithout(after, x);
    assert after - {x} == m.balances - {x};
    if x in m.balances {
      AllHeldWithout(m.balances, x);
    } else {
      assert m.balances - {x} == m.balances;
    }
  }

  /** Tokens that exist but are in no account's balance. */
  ghost function Unheld(m: Migration): int {
    m.issuance - AllHeld(m.balances)
  }

  /** Mints and reverts change what exists and what is held alike; only transfers from or to outside do not. */
  lemma StepHeld(rules: Rules, m: Migration, op: Op)
    ensures Unheld(Step(rules, m, op).migration)
            == Unheld(m) - if op.Move? then op.balance - BalanceOf(m, op.x) else 0
  {
    hide SetLock, Locked, Without, AllHeld;
    match op {
      case MintOp(_, to, amount, _) =>
        AllHeldUpdate(m, to, BalanceOf(m, to) + Credited(rules, m, to, amount));
      case RevertOp(holder, _) =>
        var amount := Locked(LocksOf(m, holder), MIGRATION_LOCK);
        if amount <= BalanceOf(m, holder) {
          AllHeldUpdate(m, holder, BalanceOf(m, holder) - amount);
        }
      case Move(x, balance, _) => AllHeldUpdate(m, x, balance);
      case _ =>
    }
  }

  /** What the moves of a run bring into balances from outside. */
  ghost function MovedIn(rules: Rules, m: Migration, ops: seq<Op>): int {
    if ops == [] then 0
    else
      var before, last := Run(rules, m, ops[..|ops| - 1]).migration, ops[|ops| - 1];
      MovedIn(rules, m, ops[..|ops| - 1]) + if last.Move? then last.balance - BalanceOf(before, last.x) else 0
  }

  /** Over every run, what exists and is not in a balance changes by transfers only. */
  lemma {:induction false} HeldKept(rules: Rules, m: Migration, ops: seq<Op>)
    ensures Unheld(Run(rules, m, ops).migration) == Unheld(m) - MovedIn(rules, m, ops)
    decreases |ops|
  {
    hide Unheld, Step;
    if ops != [] {
      HeldKept(rules, m, ops[..|ops| - 1]);
      StepHeld(rules, Run(rules, m, ops[..|ops| - 1]).migration, ops[|ops| - 1]);
    }
  }

  // ------------------------------------------------------------------ other locks

  lemma {:induction false} WithoutKeeps(locks: seq<Lock>, id: nat, other: nat)
    requires other != id
    ensures Locked(Without(locks, id), other) == Locked(locks, other)
  {
    if locks != [] {
      WithoutKeeps(locks[1..], id, other);
    }
  }

  lemma {:induction false} ReplacedKeeps(locks: seq<Lock>, lock: Lock, other: nat)
    requires other != lock.id
    ensures Locked(Replaced(locks, lock), other) == Locked(locks, other)
  {
    if locks != [] {
      ReplacedKeeps(locks[1..], lock, other);
      WithoutKeeps(locks[1..], lock.id, other);
    }
  }

  /** The migration touches no lock but its own: another one changes only when it is moved. */
  lemma OtherLocksKept(rules: Rules, m: Migration, op: Op, x: Account, other: nat)
    requires other != MIGRATION_LOCK
    ensures var after := Locked(LocksOf(Step(rules, m, op).migration, x), other);
            after == if op.Move? && op.x == x then Locked(op.others, other) else Locked(LocksOf(m, x), other)
  {
    hide Without, Replaced, Locked, Credited;
    match op {
      case MintOp(_, to, amount, _) =>
        ReplacedKeeps(LocksOf(m, to), Lock(MIGRATION_LOCK, amount + Locked(LocksOf(m, to), MIGRATION_LOCK)), other);
      case UnlockOp(holder) => WithoutKeeps(LocksOf(m, holder), MIGRATION_LOCK, other);
      case RevertOp(holder, _) => WithoutKeeps(LocksOf(m, holder), MIGRATION_LOCK, other);
      case Move(y, _, others) =>
        WithoutKeeps(others, MIGRATION_LOCK, other);
        ReplacedKeeps(Without(others, MIGRATION_LOCK),
                      Lock(MIGRATION_LOCK, Locked(LocksOf(m, y), MIGRATION_LOCK)), other);
      case _ =>
    }
  }

  // ------------------------------------------------------------------ unlocking and reverting

  /** The block of the last mint to an account that has not been unlocked or reverted since. */
  ghost function LastMint(log: seq<Event>, x: Account): Option<nat> {
    if log == [] then None
    else
      var before, e := LastMint(log[..|log| - 1], x), log[|log| - 1];
      match e
      case Approved(_, _) => before
      case Minted(_, to, _, _, block) => if to == x then Some(block) else before
      case Unlocked(holder, _, _) => if holder == x then None else before
      case Reverted(holder, _) => if holder == x then None else before
  }

  ghost function LockedSince(m: Migration, x: Account): Option<nat> {
    if x in m.lockedAt then Some(m.lockedAt[x]) else None
  }

  lemma LastMintOne(log: seq<Event>, e: Event, x: Account)
    ensures LastMint(log + [e], x) == match e
                                      case Approved(_, _) => LastMint(log, x)
                                      case Minted(_, to, _, _, block) => if to == x then Some(block)
                                          else LastMint(log, x)
                                      case Unlocked(holder, _, _) => if holder == x then None else LastMint(log, x)
                                      case Reverted(holder, _) => if holder == x then None else LastMint(log, x)
  {
    assert (log + [e])[..|log|] == log;
  }

  lemma StepLockedSince(rules: Rules, m: Migration, op: Op, log: seq<Event>, x: Account)
    requires LockedSince(m, x) == LastMint(log, x)
    ensures var e := Step(rules, m, op); LockedSince(e.migration, x) == LastMint(log + e.log, x)
  {
    hide LastMint, Locked, SetLock, Without, Credited;
    var e := Step(rules, m, op);
    ConcatNothing(log);
    if |e.log| == 2 {
      LastMintOne(log, e.log[0], x);
      LastMintOne(log + [e.log[0]], e.log[1], x);
      assert log + e.log == log + [e.log[0]] + [e.log[1]];
    } else if |e.log| == 1 {
      LastMintOne(log, e.log[0], x);
      assert e.log == [e.log[0]];
    }
  }

  lemma {:induction false} LockedSinceIs(rules: Rules, m: Migration, ops: seq<Op>, cap: nat, x: Account)
    requires Genesis(m, cap)
    ensures var e := Run(rules, m, ops); LockedSince(e.migration, x) == LastMint(e.log, x)
    decreases |ops|
  {
    if ops != [] {
      hide LastMint, LockedSince, Step, Genesis;
      var rest := ops[..|ops| - 1];
      LockedSinceIs(rules, m, rest, cap, x);
      StepLockedSince(rules, Run(rules, m, rest).migration, ops[|ops| - 1], Run(rules, m, rest).log, x);
    }
  }

  /** After any run from genesis, an account is unlocked exactly when the migration is operational and the lock period
      has passed since the last mint to it, if that is not unlocked or reverted. Then its lock is gone, and no
      balance has changed. */
  lemma UnlockIff(rules: Rules, m: Migration, ops: seq<Op>, cap: nat, x: Account)
    requires Genesis(m, cap)
    ensures var e := Run(rules, m, ops); var r, last := Unlock(rules, e.migration, x), LastMint(e.log, x);
            && (r.Done? <==> && e.migration.operational && last.Some?
                             && last.value + rules.lockPeriod <= e.migration.block)
            && (r.Done? ==> && LockOf(r.migration, x) == 0 && r.log == [Unlocked(x, Since(e.log, x), e.migration.block)]
                            && r.migration.balances == e.migration.balances
                            && r.migration.issuance == e.migration.issuance
                               && r.migration.mintable == e.migration.mintable)
  {
    hide Run, LastMint, Since, Without, Locked, Genesis;
    LockedSinceIs(rules, m, ops, cap, x);
    LocksAreMints(rules, m, ops, cap, x);
    UnlockingFrees(Run(rules, m, ops).migration, x);
  }

  /** After any run from genesis, a revert succeeds exactly when the account still has what was minted to it since it
      was last unlocked or reverted, and the burn goes through. It takes just that from the balance, and makes it
      mintable again. */
  lemma RevertIff(rules: Rules, m: Migration, ops: seq<Op>, cap: nat, x: Account, burns: bool)
    requires Genesis(m, cap)
    ensures var e := Run(rules, m, ops); var r, amount := Revert(e.migration, x, burns), Since(e.log, x);
            && (r.Done? <==> amount <= BalanceOf(e.migration, x) && amount <= e.migration.issuance && burns)
            && (r.Done? ==> && LockOf(r.migration, x) == 0 && r.log == [Reverted(x, amount)]
                            && BalanceOf(r.migration, x) == BalanceOf(e.migration, x) - amount
                            && r.migration.issuance == e.migration.issuance - amount
                            && r.migration.mintable == e.migration.mintable + amount
                            && x !in r.migration.lockedAt)
  {
    hide Run, Since, Without, Locked, Genesis;
    LocksAreMints(rules, m, ops, cap, x);
    UnlockingFrees(Run(rules, m, ops).migration, x);
  }
}
