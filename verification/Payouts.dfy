/**
  When withdrawals are paid: what custody covers and no transfer refuses is paid in full, in
  whatever order the accounts come; what custody cannot cover is kept.
 */
module Payouts {
  import opened ByteStrings
  import opened Settlement
  import opened SnapshotQuorum
  import opened Custody
  import opened CustodyProperties

  // ------------------------------------------------------------------ one list

  function Units(p: Payment, a: Asset): nat {
    if p.asset == a && p.units.Some? then p.units.value else 0
  }

  /** What the withdrawals come to in an asset. */
  function Demand(ws: seq<Withdrawal>, a: Asset): nat {
    if ws == [] then 0 else Demand(ws[..|ws| - 1], a) + Units(ws[|ws| - 1].payment, a)
  }

  /** Every amount has units on chain, and no transfer is refused. */
  ghost predicate Payable(env: Env, ws: seq<Withdrawal>) {
    forall w | w in ws :: w.payment.units.Some? && forall funds: Funds :: env.pays(funds, w)
  }

  ghost predicate Covered(funds: Funds, ws: seq<Withdrawal>) {
    forall a :: Demand(ws, a) <= Held(funds, a)
  }

  /** One withdrawal is paid exactly when it has units, custody holds them and the transfer goes through. */
  lemma OnePaidIff(env: Env, funds: Funds, w: Withdrawal)
    ensures var r := PaidOut(env, funds, [w]); var units := w.payment.units;
            if units.Some? && units.value <= Held(funds, w.payment.asset) && env.pays(funds, w) then
              r.paid == [w] && r.failed == []
              && Held(r.funds, w.payment.asset) == Held(funds, w.payment.asset) - units.value
            else r == Payout(funds, [w], [])
  {
    assert [w][..0] == [];
  }

  /** The last withdrawal is tried first: it is paid, and what is left covers the others. */
  lemma CoveredLast(env: Env, funds: Funds, rest: seq<Withdrawal>, w: Withdrawal)
    requires Payable(env, rest + [w]) && Covered(funds, rest + [w])
    ensures var a, units := w.payment.asset, w.payment.units;
            && units.Some? && units.value <= Held(funds, a) && env.pays(funds, w) && Payable(env, rest)
            && var after := Less(funds, a, units.value);
               Covered(after, rest) && forall b :: Held(after, b) == Held(funds, b) - Units(w.payment, b)
  {
    var ws := rest + [w];
    assert ws[..|ws| - 1] == rest && w in ws && forall v | v in rest :: v in ws;
    assert Demand(ws, w.payment.asset) <= Held(funds, w.payment.asset);
    var after := Less(funds, w.payment.asset, w.payment.units.value);
    forall b
      ensures Demand(rest, b) <= Held(after, b)
    {
      assert Demand(ws, b) <= Held(funds, b);
    }
  }

  lemma {:induction false} NoneFails(env: Env, funds: Funds, ws: seq<Withdrawal>)
    requires Payable(env, ws) && Covered(funds, ws)
    ensures var r := PaidOut(env, funds, ws);
            r.failed == [] && forall a :: Held(r.funds, a) == Held(funds, a) - Demand(ws, a)
    decreases |ws|
  {
    if ws != [] {
      hide Payable, Covered, Held, Units;
      var w, rest := ws[|ws| - 1], ws[..|ws| - 1];
      assert ws == rest + [w];
      CoveredLast(env, funds, rest, w);
      NoneFails(env, Less(funds, w.payment.asset, w.payment.units.value), rest);
    }
  }

  /** What custody covers is paid, all of it, and custody falls by just that. */
  lemma CoveredIsPaid(env: Env, funds: Funds, ws: seq<Withdrawal>)
    requires Payable(env, ws) && Covered(funds, ws)
    ensures var r := PaidOut(env, funds, ws);
            && r.failed == [] && multiset(r.paid) == multiset(ws)
            && forall a :: Held(r.funds, a) == Held(funds, a) - Demand(ws, a)
  {
    hide Payable, Covered, Held, Demand, PaidOut;
    NoneFails(env, funds, ws);
    PaidOrFailed(env, funds, ws);
  }

  /** It has no units, custody does not hold as much, or its transfer is always refused. */
  ghost predicate Unpayable(env: Env, funds: Funds, w: Withdrawal) {
    || w.payment.units.None?
    || w.payment.units.value > Held(funds, w.payment.asset)
    || forall left: Funds :: !env.pays(left, w)
  }

  /** Such a withdrawal fails wherever it stands, and is not paid. */
  lemma {:induction false} UnpayableFails(env: Env, funds: Funds, ws: seq<Withdrawal>, w: Withdrawal)
    requires w in ws && Unpayable(env, funds, w)
    ensures var r := PaidOut(env, funds, ws); w in r.failed && w !in r.paid
    decreases |ws|
  {
    var last, rest := ws[|ws| - 1], ws[..|ws| - 1];
    assert ws == rest + [last];
    var after := if CanPay(env, funds, last) then AfterPaying(env, funds, last) else funds;
    assert Held(after, w.payment.asset) <= Held(funds, w.payment.asset);
    assert Unpayable(env, after, w);
    if w in rest {
      UnpayableFails(env, after, rest, w);
    } else {
      PaidOrFailed(env, after, rest);
      NotPaid(rest, PaidOut(env, after, rest), w);
    }
  }

  lemma NotPaid(ws: seq<Withdrawal>, r: Payout, w: Withdrawal)
    requires w !in ws && multiset(ws) == multiset(r.paid) + multiset(r.failed)
    ensures w !in r.paid
  {
    assert w !in multiset(ws);
    assert w in r.paid <==> w in multiset(r.paid);
  }

  /** A claim of what custody covers leaves nothing pending for the account, and pays each withdrawal once. */
  lemma ClaimPaysAll(env: Env, c: Chain, id: nat, x: Account)
    requires id in c.pending && x in c.pending[id] && Payable(env, c.pending[id][x])
             && Covered(c.funds, c.pending[id][x])
    ensures var e := Claimed(env, c, id, x);
            && (id !in e.chain.pending || x !in e.chain.pending[id])
            && PaidFor(e.log, id) == multiset(c.pending[id][x])
            && forall a :: Held(e.chain.funds, a) == Held(c.funds, a) - Demand(c.pending[id][x], a)
  {
    hide PaidOut, PaidFor, Demand;
    CoveredIsPaid(env, c.funds, c.pending[id][x]);
    PaidEventsPay(id, PaidOut(env, c.funds, c.pending[id][x]).paid);
  }

  /** A deposit raises what custody holds by its units. */
  lemma DepositAdds(env: Env, c: Chain, a: Asset, units: nat, b: Asset)
    ensures var e := Called(env, c, Deposit(a, units));
            && Held(e.chain.funds, b) == Held(c.funds, b) + (if a == b then units else 0)
            && e.chain.pending == c.pending && e.chain.snapshots == c.snapshots && e.chain.nonce == c.nonce
            && e.log == [Deposited(Payment(a, Some(units)))]
  {
  }

  /** Governance sets the snapshot id, or files a summary under its id, and a session adds a validator set; none of
      them pays or forgets a withdrawal. */
  lemma GovernanceSets(env: Env, c: Chain, nonce: nat, summary: Summary, authorities: seq<Authority>)
    ensures Called(env, c, SetNonce(nonce)) == Effect(Chain(nonce, c.snapshots, c.pending, c.funds, c.sets), [])
    ensures Called(env, c, ForceSubmit(summary))
            == Effect(Chain(summary.snapshotId, c.snapshots[summary.snapshotId := summary], c.pending, c.funds,
                            c.sets), [])
    ensures var e := Called(env, c, NewSession(authorities));
            && e.log == [] && e.chain == c.(sets := e.chain.sets) && e.chain.sets.active == c.sets.active + 1
            && e.chain.sets.Of(c.sets.active + 1) == authorities
            && forall id | id != c.sets.active + 1 :: e.chain.sets.Of(id) == c.sets.Of(id)
  {
  }

  // ------------------------------------------------------------------ all accounts of a snapshot

  /** What the listed accounts demand together. */
  function DemandOf(tree: Pending, order: seq<Account>, a: Asset): nat {
    if order == [] then 0 else DemandOf(tree, order[..|order| - 1], a) + Demand(Listed(tree, order[|order| - 1]), a)
  }

  ghost predicate AllPayable(env: Env, tree: Pending) {
    forall x | x in tree :: Payable(env, tree[x])
  }

  lemma {:induction false} EveryoneIsPaid(env: Env, funds: Funds, tree: Pending, order: seq<Account>)
    requires AllPayable(env, tree) && forall a :: DemandOf(tree, order, a) <= Held(funds, a)
    ensures var r := EveryonePaid(env, funds, tree, order);
            r.failed == map[] && forall a :: Held(r.funds, a) == Held(funds, a) - DemandOf(tree, order, a)
    decreases |order|
  {
    hide PaidOut, Payable, Held, Demand;
    if order != [] {
      var x, rest := order[|order| - 1], order[..|order| - 1];
      forall a
        ensures DemandOf(tree, rest, a) <= Held(funds, a)
      {
        assert DemandOf(tree, order, a) <= Held(funds, a);
      }
      EveryoneIsPaid(env, funds, tree, rest);
      var before := EveryonePaid(env, funds, tree, rest);
      forall a
        ensures Demand(Listed(tree, x), a) <= Held(before.funds, a)
      {
        assert DemandOf(tree, order, a) <= Held(funds, a);
      }
      NothingPayable(env);
      CoveredIsPaid(env, before.funds, Listed(tree, x));
    }
  }

  lemma NothingPayable(env: Env)
    ensures Payable(env, [])
  {
  }

  ghost predicate Once(order: seq<Account>) {
    forall i, j | 0 <= i < j < |order| :: order[i] != order[j]
  }

  /** One more withdrawal raises the demand of its account only. */
  lemma {:induction false} DemandMore(ws: seq<Withdrawal>, w: Withdrawal, order: seq<Account>, a: Asset)
    requires Once(order)
    ensures DemandOf(Tree(ws + [w]), order, a)
            == DemandOf(Tree(ws), order, a) + if w.main in order then Units(w.payment, a) else 0
    decreases |order|
  {
    var all := ws + [w];
    assert all[..|all| - 1] == ws && all[|all| - 1] == w;
    if order != [] {
      var x, rest := order[|order| - 1], order[..|order| - 1];
      assert Once(rest) && x !in rest && order == rest + [x];
      DemandMore(ws, w, rest, a);
      if x == w.main {
        var list := Listed(Tree(ws), x) + [w];
        assert list[..|list| - 1] == Listed(Tree(ws), x);
      }
    }
  }

  /** However the accounts are ordered, together they demand what the snapshot lists. */
  lemma {:induction false} DemandIsAll(ws: seq<Withdrawal>, order: seq<Account>, a: Asset)
    requires Once(order) && forall w | w in ws :: w.main in order
    ensures DemandOf(Tree(ws), order, a) == Demand(ws, a)
    decreases |ws|
  {
    if ws == [] {
      NoDemand(order, a);
    } else {
      var w, rest := ws[|ws| - 1], ws[..|ws| - 1];
      assert ws == rest + [w];
      assert w in ws;
      DemandIsAll(rest, order, a);
      DemandMore(rest, w, order, a);
    }
  }

  lemma {:induction false} NoDemand(order: seq<Account>, a: Asset)
    ensures DemandOf(map[], order, a) == 0
    decreases |order|
  {
    if order != [] {
      NoDemand(order[..|order| - 1], a);
    }
  }

  lemma {:induction false} TreePayable(env: Env, ws: seq<Withdrawal>)
    requires Payable(env, ws)
    ensures AllPayable(env, Tree(ws)) && forall w | w in ws :: w.main in Tree(ws)
    decreases |ws|
  {
    if ws != [] {
      var w, rest := ws[|ws| - 1], ws[..|ws| - 1];
      assert ws == rest + [w];
      assert w in ws && Payable(env, rest);
      TreePayable(env, rest);
      var list := Listed(Tree(rest), w.main);
      assert Payable(env, list);
      forall v | v in list + [w]
        ensures v.payment.units.Some? && forall funds: Funds :: env.pays(funds, v)
      {
        assert v in list || v == w;
      }
      assert Payable(env, list + [w]);
    }
  }

  // ------------------------------------------------------------------ a whole snapshot

  function FeeSum(ws: seq<Withdrawal>): nat {
    if ws == [] then 0 else FeeSum(ws[..|ws| - 1]) + ws[|ws| - 1].fee
  }

  function ReleaseSum(releases: seq<Payment>, a: Asset): nat {
    if releases == [] then 0 else ReleaseSum(releases[..|releases| - 1], a) + Units(releases[|releases| - 1], a)
  }

  ghost predicate Releasable(env: Env, releases: seq<Payment>) {
    forall i | 0 <= i < |releases| :: releases[i].units.Some? && forall funds: Funds :: env.releases(funds, releases[i])
  }

  lemma {:induction false} CoveredIsReleased(env: Env, funds: Funds, releases: seq<Payment>)
    requires Releasable(env, releases) && forall a :: ReleaseSum(releases, a) <= Held(funds, a)
    ensures var r := Released(env, funds, releases);
            r.Some? && forall a :: Held(r.value, a) == Held(funds, a) - ReleaseSum(releases, a)
    decreases |releases|
  {
    if releases != [] {
      var rest, last := releases[..|releases| - 1], releases[|releases| - 1];
      forall a
        ensures ReleaseSum(rest, a) <= Held(funds, a)
      {
        assert ReleaseSum(releases, a) <= Held(funds, a);
      }
      CoveredIsReleased(env, funds, rest);
      assert ReleaseSum(releases, last.asset) <= Held(funds, last.asset);
    }
  }

  lemma {:induction false} CoveredFees(env: Env, funds: Funds, ws: seq<Withdrawal>)
    requires FeeSum(ws) <= Held(funds, Polkadex) && forall left: Funds, fee: nat :: env.settles(left, fee)
    ensures var r := FeesSettled(env, funds, ws);
            && r.Some? && Held(r.value, Polkadex) == Held(funds, Polkadex) - FeeSum(ws)
            && forall a | a != Polkadex :: Held(r.value, a) == Held(funds, a)
    decreases |ws|
  {
    if ws != [] {
      CoveredFees(env, funds, ws[..|ws| - 1]);
    }
  }

  /** All that a snapshot takes out of custody. */
  function Taken(summary: Summary, a: Asset): nat {
    ReleaseSum(summary.releases, a) + Demand(summary.withdrawals, a)
    + if a == Polkadex then FeeSum(summary.withdrawals) else 0
  }

  /** The environment refuses nothing that the snapshot asks for. */
  ghost predicate Grants(env: Env, summary: Summary) {
    && Releasable(env, summary.releases) && Payable(env, summary.withdrawals)
    && forall left: Funds, fee: nat :: env.settles(left, fee)
  }

  ghost predicate CoversAll(funds: Funds, summary: Summary) {
    forall a :: Taken(summary, a) <= Held(funds, a)
  }

  lemma SharesAllPaid(env: Env, c: Chain, summary: Summary)
    requires Orderly(env) && Grants(env, summary) && CoversAll(c.funds, summary)
    ensures var released := Released(env, c.funds, summary.releases);
            && released.Some? && Shares(env, c, summary).failed == map[]
            && forall a :: Held(Shares(env, c, summary).funds, a)
                           == Held(c.funds, a) - ReleaseSum(summary.releases, a) - Demand(summary.withdrawals, a)
  {
    hide Held, ReleaseSum, Demand, DemandOf, Payable, Releasable, Tree, EveryonePaid, Released, FeeSum;
    forall a
      ensures ReleaseSum(summary.releases, a) <= Held(c.funds, a)
    {
      assert Taken(summary, a) <= Held(c.funds, a);
    }
    CoveredIsReleased(env, c.funds, summary.releases);
    var tree, left := Tree(summary.withdrawals), Released(env, c.funds, summary.releases).value;
    var order := env.order(tree);
    assert Lists(order, tree);
    TreePayable(env, summary.withdrawals);
    forall a
      ensures DemandOf(tree, order, a) == Demand(summary.withdrawals, a) <= Held(left, a)
    {
      DemandIsAll(summary.withdrawals, order, a);
      assert Taken(summary, a) <= Held(c.funds, a);
    }
    EveryoneIsPaid(env, left, tree, order);
  }

  /** A snapshot that passes its checks and asks for no more than custody holds takes effect: nothing stays pending,
      every withdrawal is paid once, and custody falls by the releases, the withdrawals and the fees. */
  lemma SnapshotPaysAll(env: Env, c: Chain, summary: Summary, sigs: seq<Signed>)
    requires Orderly(env) && Grants(env, summary) && CoversAll(c.funds, summary)
    requires Fault(env.rules, c.nonce, c.sets, summary, sigs).None?
    ensures var e := Submitted(env, c, summary, sigs, true);
            && e.chain.nonce == summary.snapshotId && e.chain.pending == c.pending
            && summary.snapshotId in e.chain.snapshots && e.chain.snapshots[summary.snapshotId] == summary
            && PaidFor(e.log, summary.snapshotId) == multiset(summary.withdrawals)
            && forall a :: Held(e.chain.funds, a) == Held(c.funds, a) - Taken(summary, a)
  {
    SharesAllPaid(env, c, summary);
    SharesAll(env, c, summary);
    NothingOutstanding();
    SettledInFull(env, c, summary);
    hide SnapshotSettled, Fault, PaidFor, Shares, Outstanding, Taken, Held, Released;
    var id := summary.snapshotId;
    SettledLog(env, c, summary, id);
    AcceptedLog(Accepted(summary, sigs, c.sets.Of(c.sets.active)), SnapshotSettled(env, c, summary).value.log, id);
  }

  lemma SettledInFull(env: Env, c: Chain, summary: Summary)
    requires Orderly(env) && Grants(env, summary) && CoversAll(c.funds, summary)
    ensures var r := SnapshotSettled(env, c, summary);
            && r.Some? && r.value.chain.pending == c.pending
            && forall a :: Held(r.value.chain.funds, a) == Held(c.funds, a) - Taken(summary, a)
  {
    SharesAllPaid(env, c, summary);
    hide ReleaseSum, Demand, Payable, Releasable, Tree, EveryonePaid, Released, FeesSettled, Orderly;
    assert Taken(summary, Polkadex) <= Held(c.funds, Polkadex);
    if summary.withdrawals == [] {
      NothingDemanded(summary);
      CoveredIsReleasedOf(env, c, summary);
    } else {
      CoveredFees(env, Shares(env, c, summary).funds, summary.withdrawals);
    }
  }

  lemma NothingDemanded(summary: Summary)
    requires summary.withdrawals == []
    ensures forall a :: Taken(summary, a) == ReleaseSum(summary.releases, a)
  {
  }

  lemma CoveredIsReleasedOf(env: Env, c: Chain, summary: Summary)
    requires Grants(env, summary) && CoversAll(c.funds, summary)
    ensures var r := Released(env, c.funds, summary.releases);
            r.Some? && forall a :: Held(r.value, a) == Held(c.funds, a) - ReleaseSum(summary.releases, a)
  {
    hide ReleaseSum, Demand, FeeSum, Held, Released;
    forall a
      ensures ReleaseSum(summary.releases, a) <= Held(c.funds, a)
    {
      assert Taken(summary, a) <= Held(c.funds, a);
    }
    CoveredIsReleased(env, c.funds, summary.releases);
  }

  /** It has no units, custody does not hold as much, or it is always refused. */
  ghost predicate Unreleasable(env: Env, funds: Funds, r: Payment) {
    r.units.None? || r.units.value > Held(funds, r.asset) || forall left: Funds :: !env.releases(left, r)
  }

  lemma {:induction false} UnreleasableStops(env: Env, funds: Funds, releases: seq<Payment>, i: nat)
    requires i < |releases| && Unreleasable(env, funds, releases[i])
    ensures Released(env, funds, releases).None?
    decreases |releases|
  {
    var rest, last := releases[..|releases| - 1], |releases| - 1;
    if i < last {
      UnreleasableStops(env, funds, rest, i);
    } else if Released(env, funds, rest).Some? {
      ReleasesFall(env, funds, rest, releases[i].asset);
    }
  }

  lemma {:induction false} ReleasesFall(env: Env, funds: Funds, releases: seq<Payment>, a: Asset)
    requires Released(env, funds, releases).Some?
    ensures Held(Released(env, funds, releases).value, a) <= Held(funds, a)
    decreases |releases|
  {
    if releases != [] {
      ReleasesFall(env, funds, releases[..|releases| - 1], a);
    }
  }

  /** A snapshot with a fault, or with a release that cannot be made, does nothing. */
  lemma SnapshotRefused(env: Env, c: Chain, summary: Summary, sigs: seq<Signed>, i: nat)
    requires Fault(env.rules, c.nonce, c.sets, summary, sigs).Some?
             || (i < |summary.releases| && Unreleasable(env, c.funds, summary.releases[i]))
    ensures Submitted(env, c, summary, sigs, true) == Effect(c, [])
  {
    hide Fault, Released;
    if Fault(env.rules, c.nonce, c.sets, summary, sigs).None? {
      UnreleasableStops(env, c.funds, summary.releases, i);
    }
  }
}
