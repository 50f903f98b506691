/** What every run of the migration keeps: the cap, the locks, one mint per Ethereum transaction. */
module Erc20Properties {
  import opened Erc20Migration

  // ------------------------------------------------------------------ sums over a log

  function MintedBy(e: Event): nat { if e.Minted? then e.amount else 0 }

  function CreditedBy(e: Event): nat { if e.Minted? then e.credited else 0 }

  function RevertedBy(e: Event): nat { if e.Reverted? then e.amount else 0 }

  function ReleasedBy(e: Event): nat { if e.Unlocked? then e.amount else 0 }

  ghost function Total(log: seq<Event>, of: Event -> nat): nat {
    if log == [] then 0 else Total(log[..|log| - 1], of) + of(log[|log| - 1])
  }

  lemma {:induction false} TotalConcat(a: seq<Event>, b: seq<Event>, of: Event -> nat)
    ensures Total(a + b, of) == Total(a, of) + Total(b, of)
  {
    if b == [] {
      assert a + b == a;
    } else {
      TotalConcat(a, b[..|b| - 1], of);
      assert (a + b)[..|a + b| - 1] == a + b[..|b| - 1];
    }
  }

  lemma TotalOne(e: Event, of: Event -> nat)
    ensures Total([e], of) == of(e)
  {
    assert [e][..0] == [];
  }

  lemma TotalTwo(d: Event, e: Event, of: Event -> nat)
    ensures Total([d, e], of) == of(d) + of(e)
  {
    assert [d, e][..1] == [d];
    TotalOne(d, of);
  }

  // ------------------------------------------------------------------ the sum of the locks

  ghost function LockOf(m: Migration, x: Account): nat {
    Locked(LocksOf(m, x), MIGRATION_LOCK)
  }

  ghost function AllLocked(locks: map<Account, seq<Lock>>): nat {
    if locks == map[] then 0
    else
      var x :| x in locks;
      Locked(locks[x], MIGRATION_LOCK) + AllLocked(locks - {x})
  }

  lemma {:induction false} AllLockedWithout(locks: map<Account, seq<Lock>>, x: Account)
    requires x in locks
    ensures AllLocked(locks) == Locked(locks[x], MIGRATION_LOCK) + AllLocked(locks - {x})
    decreases |locks|
  {
    hide Locked;
    var y :| y in locks && AllLocked(locks) == Locked(locks[y], MIGRATION_LOCK) + AllLocked(locks - {y});
    if y != x {
      AllLockedWithout(locks - {y}, x);
      AllLockedWithout(locks - {x}, y);
      assert locks - {y} - {x} == locks - {x} - {y};
    }
  }

  lemma AllLockedUpdate(m: Migration, x: Account, held: seq<Lock>)
    ensures AllLocked(m.locks[x := held]) == AllLocked(m.locks) - LockOf(m, x) + Locked(held, MIGRATION_LOCK)
  {
    hide Locked;
    var after := m.locks[x := held];
    AllLockedWithout(after, x);
    assert after - {x} == m.locks - {x};
    if x in m.locks {
      AllLockedWithout(m.locks, x);
    } else {
      assert m.locks - {x} == m.locks;
      LockedNothing();
    }
  }

  lemma LockedNothing()
    ensures Locked([], MIGRATION_LOCK) == 0
  {
  }

  /** What a call does to the migration lock of its own account. */
  lemma MintLocks(rules: Rules, m: Migration, to: Account, amount: nat)
    requires amount <= m.mintable
    ensures var after := MintedTo(rules, m, to, amount);
            LockOf(after, to) == LockOf(m, to) + amount && AllLocked(after.locks) == AllLocked(m.locks) + amount
  {
    var held := LocksOf(m, to);
    var lock := Lock(MIGRATION_LOCK, amount + Locked(held, MIGRATION_LOCK));
    ReplacedLock(held, lock);
    AllLockedUpdate(m, to, SetLock(held, lock));
  }

  lemma UnlockingFrees(m: Migration, holder: Account)
    ensures var after := Unlocking(m, holder);
            LockOf(after, holder) == 0 && AllLocked(after.locks) == AllLocked(m.locks) - LockOf(m, holder)
  {
    var held := LocksOf(m, holder);
    WithoutLock(held, MIGRATION_LOCK);
    AllLockedUpdate(m, holder, Without(held, MIGRATION_LOCK));
  }

  lemma MovingKeeps(m: Migration, x: Account, balance: nat, others: seq<Lock>)
    ensures var after := Moved(m, x, balance, others);
            LockOf(after, x) == LockOf(m, x) && AllLocked(after.locks) == AllLocked(m.locks)
  {
    var rest := Without(others, MIGRATION_LOCK);
    var lock := Lock(MIGRATION_LOCK, LockOf(m, x));
    WithoutLock(others, MIGRATION_LOCK);
    ReplacedLock(rest, lock);
    AllLockedUpdate(m, x, SetLock(rest, lock));
  }

  // ------------------------------------------------------------------ the cap

  /** What a step does to the books, by the events it logs. */
  ghost predicate Booked(m: Migration, e: Effect) {
    var after := e.migration;
    && after.mintable + Total(e.log, MintedBy) == m.mintable + Total(e.log, RevertedBy)
    && after.mintable + AllLocked(after.locks) + Total(e.log, ReleasedBy) == m.mintable + AllLocked(m.locks)
    && after.issuance + Total(e.log, RevertedBy) == m.issuance + Total(e.log, CreditedBy)
  }

  lemma MintBooked(rules: Rules, m: Migration, relayer: Account, to: Account, amount: nat, hash: EthHash)
    ensures var r := Mint(rules, m, relayer, to, amount, hash); r.Done? ==> Booked(m, Effect(r.migration, r.log))
  {
    var r := Mint(rules, m, relayer, to, amount, hash);
    if r.Done? {
      if |r.log| == 2 {
        MintLocks(rules, m, to, amount);
        var d, e := r.log[0], r.log[1];
        assert r.log == [d, e];
        TotalTwo(d, e, MintedBy);
        TotalTwo(d, e, RevertedBy);
        TotalTwo(d, e, ReleasedBy);
        TotalTwo(d, e, CreditedBy);
      } else {
        var d := r.log[0];
        TotalOne(d, MintedBy);
        TotalOne(d, RevertedBy);
        TotalOne(d, ReleasedBy);
        TotalOne(d, CreditedBy);
      }
      hide Total, AllLocked, Locked;
    }
  }

  lemma UnlockBooked(rules: Rules, m: Migration, holder: Account)
    ensures var r := Unlock(rules, m, holder); r.Done? ==> Booked(m, Effect(r.migration, r.log))
  {
    hide Total, AllLocked, Locked;
    var r := Unlock(rules, m, holder);
    if r.Done? {
      UnlockingFrees(m, holder);
      TotalOne(r.log[0], MintedBy);
      TotalOne(r.log[0], RevertedBy);
      TotalOne(r.log[0], ReleasedBy);
      TotalOne(r.log[0], CreditedBy);
    }
  }

  lemma RevertBooked(m: Migration, holder: Account, burns: bool)
    ensures var r := Revert(m, holder, burns); r.Done? ==> Booked(m, Effect(r.migration, r.log))
  {
    hide Total, AllLocked, Locked;
    var r := Revert(m, holder, burns);
    if r.Done? {
      UnlockingFrees(m, holder);
      TotalOne(r.log[0], MintedBy);
      TotalOne(r.log[0], RevertedBy);
      TotalOne(r.log[0], ReleasedBy);
      TotalOne(r.log[0], CreditedBy);
    }
  }

  lemma NothingTotalled(of: Event -> nat)
    ensures Total([], of) == 0
  {
  }

  lemma StepBooked(rules: Rules, m: Migration, op: Op)
    ensures Booked(m, Step(rules, m, op))
  {
    hide Total, AllLocked, Mint, Unlock, Revert;
    NothingTotalled(MintedBy);
    NothingTotalled(CreditedBy);
    NothingTotalled(RevertedBy);
    NothingTotalled(ReleasedBy);
    match op {
      case MintOp(relayer, to, amount, hash) => MintBooked(rules, m, relayer, to, amount, hash);
      case UnlockOp(holder) => UnlockBooked(rules, m, holder);
      case RevertOp(holder, burns) => RevertBooked(m, holder, burns);
      case SetOperational(_) =>
      case SetRelayer(_, _) =>
      case NextBlock =>
      case Move(x, balance, others) => MovingKeeps(m, x, balance, others);
    }
  }

  lemma BookedThen(m: Migration, before: Effect, last: Effect)
    requires Booked(m, before) && Booked(before.migration, last)
    ensures Booked(m, Effect(last.migration, before.log + last.log))
  {
    hide Total, AllLocked;
    TotalConcat(before.log, last.log, MintedBy);
    TotalConcat(before.log, last.log, CreditedBy);
    TotalConcat(before.log, last.log, RevertedBy);
    TotalConcat(before.log, last.log, ReleasedBy);
  }

  lemma {:induction false} AlwaysBooked(rules: Rules, m: Migration, ops: seq<Op>)
    ensures Booked(m, Run(rules, m, ops))
  {
    if ops != [] {
      hide Booked, Step;
      var rest := ops[..|ops| - 1];
      var before := Run(rules, m, rest);
      AlwaysBooked(rules, m, rest);
      StepBooked(rules, before.migration, ops[|ops| - 1]);
      BookedThen(m, before, Step(rules, before.migration, ops[|ops| - 1]));
    }
  }

  lemma {:induction false} NothingLocked(locks: map<Account, seq<Lock>>)
    requires forall x | x in locks :: Without(locks[x], MIGRATION_LOCK) == locks[x]
    ensures AllLocked(locks) == 0
    decreases |locks|
  {
    if locks != map[] {
      var x :| x in locks && AllLocked(locks) == Locked(locks[x], MIGRATION_LOCK) + AllLocked(locks - {x});
      WithoutLock(locks[x], MIGRATION_LOCK);
      NothingLocked(locks - {x});
    }
  }

  /** Over every run from genesis: mintable is the cap less what was minted plus what was reverted; what is still
      mintable, locked and released adds up to the cap, so mintable never exceeds it. */
  lemma CapKept(rules: Rules, m: Migration, ops: seq<Op>, cap: nat)
    requires Genesis(m, cap)
    ensures var e := Run(rules, m, ops);
            && e.migration.mintable == cap - Total(e.log, MintedBy) + Total(e.log, RevertedBy)
            && e.migration.mintable + AllLocked(e.migration.locks) + Total(e.log, ReleasedBy) == cap
            && e.migration.mintable <= cap
  {
    hide Run, Total, AllLocked;
    AlwaysBooked(rules, m, ops);
    NothingLocked(m.locks);
  }

  // ------------------------------------------------------------------ issuance

  /** What was minted on paper and not created: deposits too small for a new account. */
  function DroppedBy(e: Event): nat {
    if e.Minted? && e.credited < e.amount then e.amount - e.credited else 0
  }

  ghost predicate HonestCredits(log: seq<Event>) {
    forall i | 0 <= i < |log| && log[i].Minted? :: log[i].credited == log[i].amount || log[i].credited == 0
  }

  lemma {:induction false} DroppedIsTheRest(log: seq<Event>)
    requires HonestCredits(log)
    ensures Total(log, MintedBy) == Total(log, CreditedBy) + Total(log, DroppedBy)
  {
    if log != [] {
      DroppedIsTheRest(log[..|log| - 1]);
    }
  }

  lemma {:induction false} AlwaysHonest(rules: Rules, m: Migration, ops: seq<Op>)
    ensures HonestCredits(Run(rules, m, ops).log)
  {
    if ops != [] {
      hide MintedTo, Unlocking, Moved;
      AlwaysHonest(rules, m, ops[..|ops| - 1]);
    }
  }

  /** Over every run, what exists and what may still be minted add up to a constant, but for the deposits dropped. */
  lemma IssuanceKept(rules: Rules, m: Migration, ops: seq<Op>)
    ensures var e := Run(rules, m, ops);
            e.migration.issuance + e.migration.mintable + Total(e.log, DroppedBy) == m.issuance + m.mintable
  {
    hide Run, Total, AllLocked;
    AlwaysBooked(rules, m, ops);
    AlwaysHonest(rules, m, ops);
    DroppedIsTheRest(Run(rules, m, ops).log);
  }

  /** A mint keeps that sum exactly when the amount is zero, at least the existential deposit, or paid to an
      account that exists. */
  lemma MintCreatesIff(rules: Rules, m: Migration, to: Account, amount: nat)
    requires amount <= m.mintable
    ensures var after := MintedTo(rules, m, to, amount);
            after.issuance + after.mintable == m.issuance + m.mintable
            <==> amount == 0 || amount >= rules.existentialDeposit || BalanceOf(m, to) > 0
  {
  }

  /** One unit minted to a new account under a deposit of ten: the cap and the lock say it exists, the issuance
      does not. */
  lemma DustIsDropped(rules: Rules, m: Migration)
    requires rules.existentialDeposit == 10 && m.mintable == 1 && m.locks == map[] && m.balances == map[]
    ensures var after := MintedTo(rules, m, 7, 1);
            after.mintable == 0 && LockOf(after, 7) == 1 && after.issuance == m.issuance && BalanceOf(after, 7) == 0
  {
    MintLocks(rules, m, 7, 1);
  }

  // ------------------------------------------------------------------ locks

  /** What was minted to an account since it was last unlocked or reverted. */
  ghost function Since(log: seq<Event>, x: Account): nat {
    if log == [] then 0
    else
      var before, e := Since(log[..|log| - 1], x), log[|log| - 1];
      match e
      case Approved(_, _) => before
      case Minted(_, to, amount, _, _) => if to == x then before + amount else before
      case Unlocked(holder, _, _) => if holder == x then 0 else before
      case Reverted(holder, _) => if holder == x then 0 else before
  }

  lemma SinceOne(log: seq<Event>, e: Event, x: Account)
    ensures Since(log + [e], x) == match e
                                   case Approved(_, _) => Since(log, x)
                                   case Minted(_, to, amount, _, _) => if to == x then Since(log, x) + amount
                                       else Since(log, x)
                                   case Unlocked(holder, _, _) => if holder == x then 0 else Since(log, x)
                                   case Reverted(holder, _) => if holder == x then 0 else Since(log, x)
  {
    assert (log + [e])[..|log|] == log;
  }

  lemma StepLocks(rules: Rules, m: Migration, op: Op, log: seq<Event>, x: Account)
    requires LockOf(m, x) == Since(log, x)
    ensures var e := Step(rules, m, op); LockOf(e.migration, x) == Since(log + e.log, x)
  {
    hide Since, Locked, SetLock, Without;
    var e := Step(rules, m, op);
    assert log + [] == log;
    match op {
      case MintOp(relayer, to, amount, hash) =>
        if |e.log| == 2 {
          MintLocks(rules, m, to, amount);
          SinceOne(log, e.log[0], x);
          SinceOne(log + [e.log[0]], e.log[1], x);
          assert log + e.log == log + [e.log[0]] + [e.log[1]];
        } else if |e.log| == 1 {
          SinceOne(log, e.log[0], x);
        }
      case UnlockOp(holder) =>
        UnlockingFrees(m, holder);
        if |e.log| == 1 {
          SinceOne(log, e.log[0], x);
        }
      case RevertOp(holder, _) =>
        UnlockingFrees(m, holder);
        if |e.log| == 1 {
          SinceOne(log, e.log[0], x);
        }
      case SetOperational(_) =>
      case SetRelayer(_, _) =>
      case NextBlock =>
      case Move(y, balance, others) => MovingKeeps(m, y, balance, others);
    }
  }

  lemma GenesisUnlocked(m: Migration, cap: nat, x: Account)
    requires Genesis(m, cap)
    ensures LockOf(m, x) == 0
  {
    WithoutLock(LocksOf(m, x), MIGRATION_LOCK);
  }

  /** Over every run from genesis, the lock of every account is what was minted to it since its last unlock or
      revert, whatever other locks come and go. */
  lemma {:induction false} LocksAreMints(rules: Rules, m: Migration, ops: seq<Op>, cap: nat, x: Account)
    requires Genesis(m, cap)
    ensures var e := Run(rules, m, ops); LockOf(e.migration, x) == Since(e.log, x)
  {
    if ops == [] {
      GenesisUnlocked(m, cap, x);
    } else {
      hide Since, Step, LockOf, Genesis;
      var rest := ops[..|ops| - 1];
      LocksAreMints(rules, m, rest, cap, x);
      StepLocks(rules, Run(rules, m, rest).migration, ops[|ops| - 1], Run(rules, m, rest).log, x);
    }
  }

  // ------------------------------------------------------------------ approvals

  ghost function ApprovedBy(log: seq<Event>, hash: EthHash): seq<Account> {
    if log == [] then []
    else
      var e := log[|log| - 1];
      ApprovedBy(log[..|log| - 1], hash) + if e.Approved? && e.hash == hash then [e.relayer] else []
  }

  ghost function TimesMinted(log: seq<Event>, hash: EthHash): nat {
    if log == [] then 0
    else
      var e := log[|log| - 1];
      TimesMinted(log[..|log| - 1], hash) + if e.Minted? && e.hash == hash then 1 else 0
  }

  lemma ApprovalOne(log: seq<Event>, e: Event, hash: EthHash)
    ensures ApprovedBy(log + [e], hash)
            == ApprovedBy(log, hash) + if e.Approved? && e.hash == hash then [e.relayer] else []
    ensures TimesMinted(log + [e], hash) == TimesMinted(log, hash) + if e.Minted? && e.hash == hash then 1 else 0
  {
    assert (log + [e])[..|log|] == log;
  }

  ghost predicate Distinct(s: seq<Account>) {
    forall i, j | 0 <= i < j < |s| :: s[i] != s[j]
  }

  /** Mints come with the third approval, and again whenever the 16-bit count passes three. */
  function MintsAfter(approvals: nat): nat {
    if approvals < 3 then 0 else 1 + (approvals - 3) / U16
  }

  lemma MintsNext(n: nat)
    ensures MintsAfter(n + 1) == MintsAfter(n) + if (n + 1) % U16 == 3 then 1 else 0
  {
    if n >= 3 {
      var q, r := (n - 3) / U16, (n - 3) % U16;
      assert n + 1 == q * U16 + (r + 4);
      if r + 1 == U16 {
        assert n + 1 - 3 == (q + 1) * U16;
        assert (n + 1 - 3) / U16 == q + 1;
        assert (n + 1) % U16 == 3;
      } else {
        assert (n + 1 - 3) / U16 == q;
        if r + 4 < U16 {
          assert (n + 1) % U16 == r + 4;
        } else {
          assert n + 1 == (q + 1) * U16 + (r + 4 - U16);
          assert (n + 1) % U16 == r + 4 - U16;
        }
      }
    }
  }

  /** The record of a transaction is its log of approvals, by different relayers. */
  ghost predicate Approvals(rules: Rules, m: Migration, log: seq<Event>, hash: EthHash) {
    var burn := BurnOf(m, hash);
    && burn.approvers == ApprovedBy(log, hash) && Distinct(burn.approvers) && |burn.approvers| <= rules.maxRelayers
    && burn.approvals == |burn.approvers| % U16
    && TimesMinted(log, hash) == MintsAfter(|burn.approvers|)
  }

  lemma MintApproves(rules: Rules, m: Migration, relayer: Account, to: Account, amount: nat, h: EthHash,
                     log: seq<Event>, hash: EthHash)
    requires Approvals(rules, m, log, hash)
    ensures var r := Mint(rules, m, relayer, to, amount, h);
            r.Done? ==> Approvals(rules, r.migration, log + r.log, hash)
  {
    hide ApprovedBy, TimesMinted, MintsAfter, MintedTo, Credited;
    var r := Mint(rules, m, relayer, to, amount, h);
    if r.Done? {
      MintedMintable(rules, m, to, amount);
      ApprovalOne(log, r.log[0], hash);
      MintsNext(|BurnOf(m, hash).approvers|);
      CountNext(|BurnOf(m, hash).approvers|);
      if |r.log| == 2 {
        ApprovalOne(log + [r.log[0]], r.log[1], hash);
        assert log + r.log == log + [r.log[0]] + [r.log[1]];
      } else {
        assert r.log == [r.log[0]];
      }
    }
  }

  lemma CountNext(n: nat)
    ensures (n % U16 + 1) % U16 == (n + 1) % U16
  {
  }

  lemma StepApproves(rules: Rules, m: Migration, op: Op, log: seq<Event>, hash: EthHash)
    requires Approvals(rules, m, log, hash)
    ensures var e := Step(rules, m, op); Approvals(rules, e.migration, log + e.log, hash)
  {
    hide ApprovedBy, TimesMinted, MintsAfter, Mint;
    assert log + [] == log;
    var e := Step(rules, m, op);
    match op {
      case MintOp(relayer, to, amount, h) => MintApproves(rules, m, relayer, to, amount, h, log, hash);
      case UnlockOp(_) =>
        if |e.log| == 1 {
          ApprovalOne(log, e.log[0], hash);
        }
      case RevertOp(_, _) =>
        if |e.log| == 1 {
          ApprovalOne(log, e.log[0], hash);
        }
      case SetOperational(_) =>
      case SetRelayer(_, _) =>
      case NextBlock =>
      case Move(_, _, _) =>
    }
  }

  /** Over every run from genesis, how often a transaction has minted is decided by the number of different
      relayers that approved it. */
  lemma {:induction false} MintsAreApproved(rules: Rules, m: Migration, ops: seq<Op>, cap: nat, hash: EthHash)
    requires Genesis(m, cap)
    ensures var e := Run(rules, m, ops); Approvals(rules, e.migration, e.log, hash)
  {
    if ops != [] {
      hide Approvals, Step, Genesis;
      var rest := ops[..|ops| - 1];
      MintsAreApproved(rules, m, rest, cap, hash);
      StepApproves(rules, Run(rules, m, rest).migration, ops[|ops| - 1], Run(rules, m, rest).log, hash);
    }
  }

  /** With fewer than 65539 relayers, each transaction mints at most once, and has minted exactly when three
      different relayers have approved it. */
  lemma MintsOnce(rules: Rules, m: Migration, ops: seq<Op>, cap: nat, hash: EthHash)
    requires Genesis(m, cap) && rules.maxRelayers < U16 + 3
    ensures var log := Run(rules, m, ops).log;
            && TimesMinted(log, hash) <= 1 && Distinct(ApprovedBy(log, hash))
            && (TimesMinted(log, hash) == 1 <==> |ApprovedBy(log, hash)| >= 3)
  {
    hide Run, Genesis;
    MintsAreApproved(rules, m, ops, cap, hash);
  }

  /** After any run from genesis, by its log alone: a call for a transaction counts exactly when the migration is
      operational, the relayer active and not among those who approved the transaction before, the amount within the
      cap less minted plus reverted, and the list not full. It is then the next approval, and mints what the call says
      exactly when it is the third (modulo 65536). */
  lemma NextApproval(rules: Rules, m: Migration, ops: seq<Op>, cap: nat, relayer: Account, to: Account, amount: nat,
                     hash: EthHash)
    requires Genesis(m, cap)
    ensures var e := Run(rules, m, ops);
            var before, r := ApprovedBy(e.log, hash), Mint(rules, e.migration, relayer, to, amount, hash);
            && (r.Done? <==>
                  && hash != 0 && e.migration.operational && relayer !in before
                  && relayer in e.migration.relayers && e.migration.relayers[relayer]
                  && |before| < rules.maxRelayers && amount <= cap - Total(e.log, MintedBy) + Total(e.log, RevertedBy))
            && (r.Done? ==>
                  && ApprovedBy(e.log + r.log, hash) == before + [relayer]
                  && TimesMinted(e.log + r.log, hash) == TimesMinted(e.log, hash)
                     + (if (|before| + 1) % U16 == 3 then 1 else 0)
                  && ((|before| + 1) % U16 == 3 ==> r.log[|r.log| - 1].Minted? && r.log[|r.log| - 1].to == to
                                                    && r.log[|r.log| - 1].amount == amount))
  {
    hide Run, Total, Genesis, MintedTo, AllLocked, ApprovedBy, TimesMinted, MintsAfter;
    var e := Run(rules, m, ops);
    CapKept(rules, m, ops, cap);
    MintsAreApproved(rules, m, ops, cap, hash);
    var r := Mint(rules, e.migration, relayer, to, amount, hash);
    if r.Done? {
      var n := |ApprovedBy(e.log, hash)|;
      CountNext(n);
      MintsNext(n);
      ApprovalOne(e.log, r.log[0], hash);
      if |r.log| == 2 {
        ApprovalOne(e.log + [r.log[0]], r.log[1], hash);
        assert e.log + r.log == e.log + [r.log[0]] + [r.log[1]];
      } else {
        assert r.log == [r.log[0]];
      }
    }
  }

  /** The event right before a mint is the third approval of its transaction (modulo 65536), and account and amount
      are those of the call that gave it. */
  ghost predicate MintedAsSaid(ops: seq<Op>, log: seq<Event>, i: nat) {
    i < |log| && log[i].Minted? ==>
      && i > 0 && log[i - 1].Approved? && log[i - 1].hash == log[i].hash
      && |ApprovedBy(log[..i], log[i].hash)| % U16 == 3
      && MintOp(log[i - 1].relayer, log[i].to, log[i].amount, log[i].hash) in ops
  }

  ghost predicate AllAsSaid(ops: seq<Op>, log: seq<Event>) {
    forall i: nat | i < |log| :: MintedAsSaid(ops, log, i)
  }

  lemma StaysAsSaid(ops: seq<Op>, op: Op, log: seq<Event>, more: seq<Event>, i: nat)
    requires i < |log| && MintedAsSaid(ops, log, i)
    ensures MintedAsSaid(ops + [op], log + more, i)
  {
    hide ApprovedBy;
    assert (log + more)[..i] == log[..i];
  }

  lemma MintIsAsSaid(rules: Rules, m: Migration, ops: seq<Op>, op: Op, log: seq<Event>, i: nat)
    requires i < |Step(rules, m, op).log| && (op.MintOp? ==> Approvals(rules, m, log, op.hash))
    ensures MintedAsSaid(ops + [op], log + Step(rules, m, op).log, |log| + i)
  {
    var more := Step(rules, m, op).log;
    var all := log + more;
    assert all[|log| + i] == more[i];
    if more[i].Minted? {
      hide ApprovedBy, TimesMinted, MintedTo;
      assert op.MintOp? && i == 1 && more[0] == Approved(op.hash, op.relayer);
      assert all[|log|] == more[0] && all[..|log| + 1] == log + [more[0]];
      ApprovalOne(log, more[0], op.hash);
      CountNext(|BurnOf(m, op.hash).approvers|);
      assert op in ops + [op];
    }
  }

  lemma StepAsSaid(rules: Rules, m: Migration, ops: seq<Op>, op: Op, log: seq<Event>)
    requires AllAsSaid(ops, log) && (op.MintOp? ==> Approvals(rules, m, log, op.hash))
    ensures AllAsSaid(ops + [op], log + Step(rules, m, op).log)
  {
    hide MintedAsSaid, Step, Approvals;
    var more, done := Step(rules, m, op).log, ops + [op];
    var all := log + more;
    forall i: nat | i < |all|
      ensures MintedAsSaid(done, all, i)
    {
      if i < |log| {
        StaysAsSaid(ops, op, log, more, i);
      } else {
        MintIsAsSaid(rules, m, ops, op, log, i - |log|);
      }
    }
  }

  /** So it is for every mint of every run from genesis. */
  lemma {:induction false} ThirdDecides(rules: Rules, m: Migration, ops: seq<Op>, cap: nat)
    requires Genesis(m, cap)
    ensures AllAsSaid(ops, Run(rules, m, ops).log)
  {
    if ops != [] {
      hide AllAsSaid, Step, Genesis, Approvals;
      var rest, op := ops[..|ops| - 1], ops[|ops| - 1];
      assert ops == rest + [op];
      ThirdDecides(rules, m, rest, cap);
      if op.MintOp? {
        MintsAreApproved(rules, m, rest, cap, op.hash);
      }
      StepAsSaid(rules, Run(rules, m, rest).migration, rest, op, Run(rules, m, rest).log);
    }
  }

  /** A call of an active relayer for this transaction, within what is mintable. */
  predicate Claims(m: Migration, hash: EthHash, op: Op) {
    op.MintOp? && op.hash == hash && Active(m, op.relayer) && op.amount <= m.mintable
  }

  /** The first two relayers may have claimed any accounts and amounts: what the third one claims is minted. */
  lemma OthersMayDiffer(rules: Rules, m: Migration, hash: EthHash, a: Op, b: Op, c: Op, ops: seq<Op>)
    requires hash != 0 && m.operational && BurnOf(m, hash) == Burn(0, []) && rules.maxRelayers >= 3 && ops == [a, b, c]
    requires Claims(m, hash, a) && Claims(m, hash, b) && Claims(m, hash, c)
    requires a.relayer != b.relayer && a.relayer != c.relayer && b.relayer != c.relayer
    ensures var e := Run(rules, m, ops);
            && |e.log| == 4 && e.log[3].Minted? && e.log[3].to == c.to && e.log[3].amount == c.amount
            && e.migration.mintable == m.mintable - c.amount
  {
    RunOfThree(rules, m, a, b, c, ops);
    hide Run, Step, MayApprove;
    Approver(rules, m, a);
    EarlyApproval(rules, m, a);
    var one := Step(rules, m, a).migration;
    Approver(rules, one, b);
    EarlyApproval(rules, one, b);
    var two := Step(rules, one, b).migration;
    Approver(rules, two, c);
    ThirdApproval(rules, two, c);
  }

  lemma Approver(rules: Rules, m: Migration, op: Op)
    requires op.MintOp? && op.hash != 0 && m.operational && Active(m, op.relayer) && op.amount <= m.mintable
    requires op.relayer !in BurnOf(m, op.hash).approvers && |BurnOf(m, op.hash).approvers| < rules.maxRelayers
    ensures MayApprove(rules, m, op)
  {
    hide MintedTo;
  }

  ghost predicate MayApprove(rules: Rules, m: Migration, op: Op) {
    op.MintOp? && Mint(rules, m, op.relayer, op.to, op.amount, op.hash).Done?
  }

  lemma RunOfThree(rules: Rules, m: Migration, a: Op, b: Op, c: Op, ops: seq<Op>)
    requires ops == [a, b, c]
    ensures var one := Step(rules, m, a);
            var two := Step(rules, one.migration, b);
            var three := Step(rules, two.migration, c);
            Run(rules, m, ops) == Effect(three.migration, one.log + two.log + three.log)
  {
    assert Run(rules, m, []) == Effect(m, []);
    hide Run, Step;
    assert [] + [a] == [a] && [a] + [b] == [a, b] && [a, b] + [c] == ops;
    RunNext(rules, m, [], a);
    RunNext(rules, m, [a], b);
    RunNext(rules, m, [a, b], c);
    assert [] + Step(rules, m, a).log == Step(rules, m, a).log;
  }

  lemma EarlyApproval(rules: Rules, m: Migration, op: Op)
    requires MayApprove(rules, m, op) && BurnOf(m, op.hash).approvals < 2
    ensures var e, burn := Step(rules, m, op), BurnOf(m, op.hash);
            |e.log| == 1
            && e.migration == m.(txs := m.txs[op.hash := Burn(burn.approvals + 1, burn.approvers + [op.relayer])])
  {
    hide MintedTo;
  }

  lemma ThirdApproval(rules: Rules, m: Migration, op: Op)
    requires MayApprove(rules, m, op) && BurnOf(m, op.hash).approvals == 2
    ensures var e := Step(rules, m, op);
            && |e.log| == 2 && e.log[1].Minted? && e.log[1].to == op.to && e.log[1].amount == op.amount
            && e.migration.mintable == m.mintable - op.amount
  {
    MintedMintable(rules, m, op.to, op.amount);
    hide MintedTo;
  }

  lemma MintedMintable(rules: Rules, m: Migration, to: Account, amount: nat)
    requires amount <= m.mintable
    ensures var after := MintedTo(rules, m, to, amount); after.mintable == m.mintable - amount && after.txs == m.txs
  {
  }

  lemma RunNext(rules: Rules, m: Migration, ops: seq<Op>, op: Op)
    ensures var before := Run(rules, m, ops);
            var last := Step(rules, before.migration, op);
            Run(rules, m, ops + [op]) == Effect(last.migration, before.log + last.log)
  {
    assert (ops + [op])[..|ops|] == ops;
  }

  // ------------------------------------------------------------------ the lock period

  /** Every mint so far is in the past, and not after the block its account's lock counts from. */
  ghost predicate Dated(m: Migration, log: seq<Event>) {
    && (forall x | x in m.lockedAt :: m.lockedAt[x] <= m.block)
    && forall i | 0 <= i < |log| && log[i].Minted? ::
         log[i].block <= m.block && (log[i].to in m.lockedAt ==> log[i].block <= m.lockedAt[log[i].to])
  }

  ghost predicate WaitedOut(rules: Rules, log: seq<Event>) {
    forall i, j | 0 <= i < j < |log| && log[i].Minted? && log[j].Unlocked? && log[i].to == log[j].holder ::
      log[i].block + rules.lockPeriod <= log[j].block
  }

  lemma StepWaits(rules: Rules, m: Migration, op: Op, log: seq<Event>)
    requires Dated(m, log) && WaitedOut(rules, log)
    ensures var e := Step(rules, m, op); Dated(e.migration, log + e.log) && WaitedOut(rules, log + e.log)
  {
    hide Locked, SetLock, Without, Credited;
    var e := Step(rules, m, op);
    var all := log + e.log;
    assert forall i | 0 <= i < |log| :: all[i] == log[i];
    assert |e.log| >= 1 ==> all[|log|] == e.log[0];
    assert |e.log| == 2 ==> all[|log| + 1] == e.log[1];
  }

  /** In every run from genesis, nothing minted to an account is unlocked before the lock period after the mint
      has passed. */
  lemma {:induction false} UnlocksWait(rules: Rules, m: Migration, ops: seq<Op>, cap: nat)
    requires Genesis(m, cap)
    ensures var e := Run(rules, m, ops); Dated(e.migration, e.log) && WaitedOut(rules, e.log)
  {
    if ops != [] {
      hide Dated, WaitedOut, Step, Genesis;
      var rest := ops[..|ops| - 1];
      UnlocksWait(rules, m, rest, cap);
      StepWaits(rules, Run(rules, m, rest).migration, ops[|ops| - 1], Run(rules, m, rest).log);
    }
  }
}
