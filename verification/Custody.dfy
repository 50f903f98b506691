/**
  On-chain settlement: an accepted snapshot pays withdrawals out of custody, keeps the ones
  that fail, and lets anyone claim them later.
 */
module Custody {
  import opened ByteStrings
  import opened Settlement
  import opened SnapshotQuorum

  type Funds = map<Asset, nat>

  function Held(funds: Funds, a: Asset): nat {
    if a in funds then funds[a] else 0
  }

  function Less(funds: Funds, a: Asset, units: nat): Funds
    requires units <= Held(funds, a)
  {
    funds[a := Held(funds, a) - units]
  }

  type Pending = map<Account, seq<Withdrawal>>

  /** What a call depends on besides its inputs: the rules of acceptance, the verdicts of the transfers out of
      custody (a transfer moves the exact amount or nothing), and the order in which a map is walked. */
  datatype Env = Env(rules: Rules, pays: (Funds, Withdrawal) -> bool, releases: (Funds, Payment) -> bool,
                     settles: (Funds, nat) -> bool, order: Pending -> seq<Account>)

  // ------------------------------------------------------------------ paying

  predicate CanPay(env: Env, funds: Funds, w: Withdrawal) {
    w.payment.units.Some? && w.payment.units.value <= Held(funds, w.payment.asset) && env.pays(funds, w)
  }

  function AfterPaying(env: Env, funds: Funds, w: Withdrawal): Funds
    requires CanPay(env, funds, w)
  {
    Less(funds, w.payment.asset, w.payment.units.value)
  }

  datatype Payout = Payout(funds: Funds, failed: seq<Withdrawal>, paid: seq<Withdrawal>)

  /** The last withdrawal is popped and tried first. */
  function PaidOut(env: Env, funds: Funds, ws: seq<Withdrawal>): Payout
    decreases |ws|
  {
    if ws == [] then Payout(funds, [], [])
    else
      var w, rest := ws[|ws| - 1], ws[..|ws| - 1];
      if CanPay(env, funds, w) then
        var r := PaidOut(env, AfterPaying(env, funds, w), rest);
        r.(paid := [w] + r.paid)
      else
        var r := PaidOut(env, funds, rest);
        r.(failed := [w] + r.failed)
  }

  method DoWithdraw(env: Env, custody: Funds, withdrawals: seq<Withdrawal>)
    returns (funds: Funds, failed: seq<Withdrawal>, paid: seq<Withdrawal>)
    ensures Payout(funds, failed, paid) == PaidOut(env, custody, withdrawals)
  {
    var vector := withdrawals;
    funds, failed, paid := custody, [], [];
    while vector != []
      invariant var rest := PaidOut(env, funds, vector);
                PaidOut(env, custody, withdrawals) == Payout(rest.funds, failed + rest.failed, paid + rest.paid)
      decreases |vector|
    {
      var w := vector[|vector| - 1];
      vector := vector[..|vector| - 1];
      if CanPay(env, funds, w) {
        funds := AfterPaying(env, funds, w);
        ConcatAssociates(paid, [w], PaidOut(env, funds, vector).paid);
        paid := paid + [w];
      } else {
        ConcatAssociates(failed, [w], PaidOut(env, funds, vector).failed);
        failed := failed + [w];
      }
    }
  }

  // ------------------------------------------------------------------ grouping by account

  function Listed(p: Pending, x: Account): seq<Withdrawal> {
    if x in p then p[x] else []
  }

  function Tree(ws: seq<Withdrawal>): Pending {
    if ws == [] then map[]
    else
      var w := ws[|ws| - 1];
      var before := Tree(ws[..|ws| - 1]);
      before[w.main := Listed(before, w.main) + [w]]
  }

  method CreateWithdrawalTree(ws: seq<Withdrawal>) returns (tree: Pending)
    ensures tree == Tree(ws)
  {
    tree := map[];
    for i := 0 to |ws|
      invariant tree == Tree(ws[..i])
    {
      ghost var next := ws[..i + 1];
      assert next[..|next| - 1] == ws[..i] && next[|next| - 1] == ws[i];
      var w := ws[i];
      if w.main in tree {
        tree := tree[w.main := tree[w.main] + [w]];
      } else {
        assert [] + [w] == [w];
        tree := tree[w.main := [w]];
      }
    }
    assert ws[..|ws|] == ws;
  }

  datatype AllPaid = AllPaid(funds: Funds, failed: Pending, paid: seq<Withdrawal>)

  /** The accounts of the tree are paid one after the other. */
  function EveryonePaid(env: Env, funds: Funds, tree: Pending, order: seq<Account>): AllPaid {
    if order == [] then AllPaid(funds, map[], [])
    else
      var before := EveryonePaid(env, funds, tree, order[..|order| - 1]);
      var x := order[|order| - 1];
      var r := PaidOut(env, before.funds, Listed(tree, x));
      AllPaid(r.funds, if r.failed != [] then before.failed[x := r.failed] else before.failed, before.paid + r.paid)
  }

  // ------------------------------------------------------------------ releases and fees

  predicate CanRelease(env: Env, funds: Funds, r: Payment) {
    r.units.Some? && r.units.value <= Held(funds, r.asset) && env.releases(funds, r)
  }

  function Released(env: Env, funds: Funds, releases: seq<Payment>): Option<Funds> {
    if releases == [] then Some(funds)
    else
      var before :- Released(env, funds, releases[..|releases| - 1]);
      var r := releases[|releases| - 1];
      if CanRelease(env, before, r) then Some(Less(before, r.asset, r.units.value)) else None
  }

  /** Every fee is taken in the native currency, whatever asset is withdrawn. */
  function FeesSettled(env: Env, funds: Funds, ws: seq<Withdrawal>): Option<Funds> {
    if ws == [] then Some(funds)
    else
      var before :- FeesSettled(env, funds, ws[..|ws| - 1]);
      var fee := ws[|ws| - 1].fee;
      if fee <= Held(before, Polkadex) && env.settles(before, fee) then Some(Less(before, Polkadex, fee)) else None
  }

  lemma ReleasedStop(env: Env, funds: Funds, releases: seq<Payment>, i: nat)
    requires i <= |releases| && Released(env, funds, releases[..i]).None?
    ensures Released(env, funds, releases).None?
    decreases |releases| - i
  {
    if i < |releases| {
      assert releases[..i + 1][..i] == releases[..i];
      ReleasedStop(env, funds, releases, i + 1);
    } else {
      assert releases[..i] == releases;
    }
  }

  lemma FeesStop(env: Env, funds: Funds, ws: seq<Withdrawal>, i: nat)
    requires i <= |ws| && FeesSettled(env, funds, ws[..i]).None?
    ensures FeesSettled(env, funds, ws).None?
    decreases |ws| - i
  {
    if i < |ws| {
      assert ws[..i + 1][..i] == ws[..i];
      FeesStop(env, funds, ws, i + 1);
    } else {
      assert ws[..i] == ws;
    }
  }

  // ------------------------------------------------------------------ the chain's state and its calls

  datatype Chain = Chain(nonce: nat, snapshots: map<nat, Summary>, pending: map<nat, Pending>, funds: Funds, sets: Sets)

  /** What a call did: a snapshot accepted with its signatures under the authorities of the time, a withdrawal
      paid, an amount taken for releases and fees, an amount deposited. */
  datatype Event =
    | Accepted(summary: Summary, sigs: seq<Signed>, authorities: seq<Authority>)
    | Paid(snapshotId: nat, withdrawal: Withdrawal)
    | Drained(payment: Payment)
    | Deposited(payment: Payment)

  datatype Effect = Effect(chain: Chain, log: seq<Event>)

  function PaidEvents(id: nat, ws: seq<Withdrawal>): seq<Event> {
    seq(|ws|, i requires 0 <= i < |ws| => Paid(id, ws[i]))
  }

  function ReleaseEvents(releases: seq<Payment>): seq<Event> {
    seq(|releases|, i requires 0 <= i < |releases| => Drained(releases[i]))
  }

  function FeeEvents(ws: seq<Withdrawal>): seq<Event> {
    seq(|ws|, i requires 0 <= i < |ws| => Drained(Payment(Polkadex, Some(ws[i].fee))))
  }

  function Kept(pending: map<nat, Pending>, id: nat, failed: Pending): map<nat, Pending> {
    if failed != map[] then pending[id := failed] else pending
  }

  /** An accepted snapshot releases, pays, keeps what failed and settles the fees; None if a release or a fee
      cannot be paid. */
  function SnapshotSettled(env: Env, c: Chain, summary: Summary): Option<Effect> {
    var released :- Released(env, c.funds, summary.releases);
    var id, ws := summary.snapshotId, summary.withdrawals;
    if ws == [] then Some(Effect(c.(funds := released), ReleaseEvents(summary.releases)))
    else
      var tree := Tree(ws);
      var all := EveryonePaid(env, released, tree, env.order(tree));
      var funds :- FeesSettled(env, all.funds, ws);
      Some(Effect(c.(funds := funds, pending := Kept(c.pending, id, all.failed)),
                  ReleaseEvents(summary.releases) + (PaidEvents(id, all.paid) + FeeEvents(ws))))
  }

  /** A submission takes effect as a whole or not at all. It also updates trading scores, is limited in its
      messages and needs room in the ingress queue: whether all that works out is `proceeds`. */
  function Submitted(env: Env, c: Chain, summary: Summary, sigs: seq<Signed>, proceeds: bool): Effect {
    if Fault(env.rules, c.nonce, c.sets, summary, sigs).Some? || !proceeds then Effect(c, [])
    else match SnapshotSettled(env, c, summary)
      case None => Effect(c, [])
      case Some(e) =>
        Effect(e.chain.(nonce := summary.snapshotId, snapshots := c.snapshots[summary.snapshotId := summary]),
               [Accepted(summary, sigs, c.sets.Of(c.sets.active))] + e.log)
  }

  /** A claim pays what can be paid of one account's pending withdrawals and keeps the rest; an account without
      any, and then a snapshot without any, is forgotten. */
  function Claimed(env: Env, c: Chain, id: nat, x: Account): Effect {
    if id !in c.pending || x !in c.pending[id] then Effect(c, [])
    else
      var r := PaidOut(env, c.funds, c.pending[id][x]);
      var left := if r.failed != [] then c.pending[id][x := r.failed] else c.pending[id] - {x};
      Effect(c.(funds := r.funds, pending := if left == map[] then c.pending - {id} else c.pending[id := left]),
             PaidEvents(id, r.paid))
  }

  /** The pallet's storage, changed in place by its calls. */
  class Pallet {
    var nonce: nat
    var snapshots: map<nat, Summary>
    var pending: map<nat, Pending>
    var funds: Funds
    var sets: Sets

    ghost function State(): Chain
      reads this
    {
      Chain(nonce, snapshots, pending, funds, sets)
    }

    constructor (authorities: seq<Authority>, custody: Funds)
      ensures State() == Chain(0, map[], map[], custody, Sets(0, map[0 := authorities]))
    {
      nonce, snapshots, pending, funds, sets := 0, map[], map[], custody, Sets(0, map[0 := authorities]);
    }

    method ProcessEgress(env: Env, releases: seq<Payment>) returns (ok: bool)
      modifies `funds
      ensures ok == Released(env, old(funds), releases).Some?
      ensures ok ==> funds == Released(env, old(funds), releases).value
    {
      for i := 0 to |releases|
        invariant Released(env, old(funds), releases[..i]) == Some(funds)
      {
        assert releases[..i + 1][..i] == releases[..i];
        var r := releases[i];
        if !CanRelease(env, funds, r) {
          ReleasedStop(env, old(funds), releases, i + 1);
          return false;
        }
        funds := Less(funds, r.asset, r.units.value);
      }
      assert releases[..|releases|] == releases;
      return true;
    }

    method SettleFees(env: Env, ws: seq<Withdrawal>) returns (ok: bool)
      modifies `funds
      ensures ok == FeesSettled(env, old(funds), ws).Some?
      ensures ok ==> funds == FeesSettled(env, old(funds), ws).value
    {
      for i := 0 to |ws|
        invariant FeesSettled(env, old(funds), ws[..i]) == Some(funds)
      {
        assert ws[..i + 1][..i] == ws[..i];
        var fee := ws[i].fee;
        if fee > Held(funds, Polkadex) || !env.settles(funds, fee) {
          FeesStop(env, old(funds), ws, i + 1);
          return false;
        }
        funds := Less(funds, Polkadex, fee);
      }
      assert ws[..|ws|] == ws;
      return true;
    }

    method PayEveryone(env: Env, tree: Pending) returns (failed: Pending, ghost paid: seq<Withdrawal>)
      modifies `funds
      ensures AllPaid(funds, failed, paid) == EveryonePaid(env, old(funds), tree, env.order(tree))
    {
      var order := env.order(tree);
      failed, paid := map[], [];
      for i := 0 to |order|
        invariant AllPaid(funds, failed, paid) == EveryonePaid(env, old(funds), tree, order[..i])
      {
        assert order[..i + 1][..i] == order[..i];
        var x := order[i];
        var left, failures, payments := DoWithdraw(env, funds, Listed(tree, x));
        funds := left;
        paid := paid + payments;
        if failures != [] {
          failed := failed[x := failures];
        }
      }
      assert order[..|order|] == order;
    }

    method SubmitSnapshot(env: Env, summary: Summary, sigs: seq<Signed>, proceeds: bool) returns (ghost log: seq<Event>)
      modifies this
      ensures Effect(State(), log) == Submitted(env, old(State()), summary, sigs, proceeds)
    {
      var fault := ValidateSnapshot(env.rules, nonce, sets, summary, sigs);
      if fault.Some? || !proceeds {
        return [];
      }
      var before := funds;
      var id := summary.snapshotId;
      var ok := ProcessEgress(env, summary.releases);
      if !ok {
        funds := before;
        return [];
      }
      log := ReleaseEvents(summary.releases);
      if summary.withdrawals != [] {
        var tree := CreateWithdrawalTree(summary.withdrawals);
        ghost var paid;
        var failed;
        failed, paid := PayEveryone(env, tree);
        ok := SettleFees(env, summary.withdrawals);
        if !ok {
          funds := before;
          return [];
        }
        if failed != map[] {
          pending := pending[id := failed];
        }
        log := log + (PaidEvents(id, paid) + FeeEvents(summary.withdrawals));
      }
      nonce := id;
      snapshots := snapshots[id := summary];
      log := [Accepted(summary, sigs, sets.Of(sets.active))] + log;
    }

    method ClaimWithdraw(env: Env, id: nat, account: Account) returns (ok: bool, ghost log: seq<Event>)
      modifies this
      ensures Effect(State(), log) == Claimed(env, old(State()), id, account)
      ensures ok <==> id in old(pending) && account in old(pending)[id]
    {
      if id !in pending || account !in pending[id] {
        return false, [];
      }
      var tree: Pending := pending[id];
      var left, failed, paid := DoWithdraw(env, funds, tree[account]);
      tree := tree - {account};
      if failed != [] {
        tree := tree[account := failed];
      }
      assert failed != [] ==> tree == pending[id][account := failed];
      pending := pending[id := tree];
      if tree == map[] {
        pending := pending - {id};
        assert pending == old(pending) - {id};
      }
      funds := left;
      return true, PaidEvents(id, paid);
    }
  }

  // ------------------------------------------------------------------ runs

  datatype Call =
    | Submit(summary: Summary, sigs: seq<Signed>, proceeds: bool)
    | Claim(snapshotId: nat, account: Account)
    | Deposit(asset: Asset, units: nat)
    | NewSession(authorities: seq<Authority>)
    | SetNonce(nonce: nat)
    | ForceSubmit(summary: Summary)

  function Called(env: Env, c: Chain, call: Call): Effect {
    match call
    case Submit(summary, sigs, proceeds) => Submitted(env, c, summary, sigs, proceeds)
    case Claim(id, x) => Claimed(env, c, id, x)
    case Deposit(a, units) =>
      Effect(c.(funds := c.funds[a := Held(c.funds, a) + units]), [Deposited(Payment(a, Some(units)))])
    case NewSession(authorities) => Effect(c.(sets := c.sets.NewSession(authorities)), [])
    case SetNonce(nonce) => Effect(c.(nonce := nonce), [])
    case ForceSubmit(summary) =>
      Effect(c.(nonce := summary.snapshotId, snapshots := c.snapshots[summary.snapshotId := summary]), [])
  }

  /** A call, and how the world around it answers: transfers that failed before may go through at a later call. */
  datatype Step = Step(env: Env, call: Call)

  function Run(c: Chain, steps: seq<Step>): Effect {
    if steps == [] then Effect(c, [])
    else
      var before := Run(c, steps[..|steps| - 1]);
      var step := steps[|steps| - 1];
      var last := Called(step.env, before.chain, step.call);
      Effect(last.chain, before.log + last.log)
  }
}
