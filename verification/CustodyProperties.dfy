/** What every run of settlement calls keeps: withdrawals, custody and snapshot ids are accounted for. */
module CustodyProperties {
  import opened ByteStrings
  import opened Settlement
  import opened SnapshotQuorum
  import opened Custody

  // ------------------------------------------------------------------ reading a log

  /** The withdrawals that accepted snapshots of this id included. */
  ghost function Included(log: seq<Event>, id: nat): multiset<Withdrawal> {
    if log == [] then multiset{} else Included(log[..|log| - 1], id) + Brought(log[|log| - 1], id)
  }

  ghost function Brought(e: Event, id: nat): multiset<Withdrawal> {
    if e.Accepted? && e.summary.snapshotId == id then multiset(e.summary.withdrawals) else multiset{}
  }

  /** The withdrawals paid for this id. */
  ghost function PaidFor(log: seq<Event>, id: nat): multiset<Withdrawal> {
    if log == [] then multiset{} else PaidFor(log[..|log| - 1], id) + Settles(log[|log| - 1], id)
  }

  ghost function Settles(e: Event, id: nat): multiset<Withdrawal> {
    if e.Paid? && e.snapshotId == id then multiset{e.withdrawal} else multiset{}
  }

  ghost function UnitsOf(p: Payment, a: Asset): nat {
    if p.asset == a && p.units.Some? then p.units.value else 0
  }

  /** The change of custody an event reports. */
  ghost function Moved(e: Event, a: Asset): int {
    match e
    case Accepted(_, _, _) => 0
    case Paid(_, w) => 0 - UnitsOf(w.payment, a)
    case Drained(p) => 0 - UnitsOf(p, a)
    case Deposited(p) => UnitsOf(p, a)
  }

  ghost function Movement(log: seq<Event>, a: Asset): int {
    if log == [] then 0 else Movement(log[..|log| - 1], a) + Moved(log[|log| - 1], a)
  }

  /** The ids of the accepted snapshots, in order. */
  ghost function AcceptedIds(log: seq<Event>): seq<nat> {
    if log == [] then []
    else
      var e := log[|log| - 1];
      AcceptedIds(log[..|log| - 1]) + if e.Accepted? then [e.summary.snapshotId] else []
  }

  lemma {:induction false} IncludedConcat(a: seq<Event>, b: seq<Event>, id: nat)
    ensures Included(a + b, id) == Included(a, id) + Included(b, id)
  {
    hide Brought;
    if b == [] {
      assert a + b == a;
    } else {
      var init := b[..|b| - 1];
      IncludedConcat(a, init, id);
      assert (a + b)[..|a + b| - 1] == a + init;
    }
  }

  lemma {:induction false} PaidConcat(a: seq<Event>, b: seq<Event>, id: nat)
    ensures PaidFor(a + b, id) == PaidFor(a, id) + PaidFor(b, id)
  {
    hide Settles;
    if b == [] {
      assert a + b == a;
    } else {
      var init := b[..|b| - 1];
      PaidConcat(a, init, id);
      assert (a + b)[..|a + b| - 1] == a + init;
    }
  }

  lemma {:induction false} MovementConcat(a: seq<Event>, b: seq<Event>, x: Asset)
    ensures Movement(a + b, x) == Movement(a, x) + Movement(b, x)
  {
    if b == [] {
      assert a + b == a;
    } else {
      var init := b[..|b| - 1];
      MovementConcat(a, init, x);
      assert (a + b)[..|a + b| - 1] == a + init;
    }
  }

  lemma {:induction false} AcceptedConcat(a: seq<Event>, b: seq<Event>)
    ensures AcceptedIds(a + b) == AcceptedIds(a) + AcceptedIds(b)
  {
    if b == [] {
      assert a + b == a;
    } else {
      var init := b[..|b| - 1];
      AcceptedConcat(a, init);
      assert (a + b)[..|a + b| - 1] == a + init;
    }
  }

  /** A log of payments and fees neither accepts a snapshot nor, but for its payments, pays a withdrawal. */
  lemma {:induction false} NothingAccepted(log: seq<Event>, id: nat)
    requires forall e | e in log :: !e.Accepted?
    ensures Included(log, id) == multiset{} && AcceptedIds(log) == []
  {
    if log != [] {
      NothingAccepted(log[..|log| - 1], id);
    }
  }

  lemma {:induction false} NothingPaid(log: seq<Event>, id: nat)
    requires forall e | e in log :: !e.Paid? || e.snapshotId != id
    ensures PaidFor(log, id) == multiset{}
  {
    if log != [] {
      NothingPaid(log[..|log| - 1], id);
    }
  }

  lemma {:induction false} PaidEventsPay(id: nat, ws: seq<Withdrawal>)
    ensures PaidFor(PaidEvents(id, ws), id) == multiset(ws)
  {
    var log := PaidEvents(id, ws);
    if ws != [] {
      var init, w := ws[..|ws| - 1], ws[|ws| - 1];
      PaidEventsPay(id, init);
      assert log[..|log| - 1] == PaidEvents(id, init) && log[|log| - 1] == Paid(id, w);
      assert ws == init + [w];
      assert PaidFor(log, id) == PaidFor(PaidEvents(id, init), id) + multiset{w};
    }
  }

  // ------------------------------------------------------------------ paying conserves

  lemma PaidFirst(id: nat, w: Withdrawal, ws: seq<Withdrawal>, a: Asset)
    ensures Movement(PaidEvents(id, [w] + ws), a) == Movement(PaidEvents(id, ws), a) - UnitsOf(w.payment, a)
  {
    assert PaidEvents(id, [w] + ws) == [Paid(id, w)] + PaidEvents(id, ws);
    MovementConcat([Paid(id, w)], PaidEvents(id, ws), a);
    assert [Paid(id, w)][..0] == [];
  }

  /** Every withdrawal is either paid or failed, once. */
  lemma {:induction false} PaidOrFailed(env: Env, funds: Funds, ws: seq<Withdrawal>)
    ensures var r := PaidOut(env, funds, ws); multiset(ws) == multiset(r.paid) + multiset(r.failed)
    decreases |ws|
  {
    if ws != [] {
      hide CanPay, AfterPaying;
      var w, rest := ws[|ws| - 1], ws[..|ws| - 1];
      assert ws == rest + [w];
      PaidOrFailed(env, if CanPay(env, funds, w) then AfterPaying(env, funds, w) else funds, rest);
    }
  }

  /** Custody falls by exactly what is paid. */
  lemma {:induction false} PaidOutBalanced(env: Env, funds: Funds, ws: seq<Withdrawal>, id: nat, a: Asset)
    ensures var r := PaidOut(env, funds, ws); Held(r.funds, a) == Held(funds, a) + Movement(PaidEvents(id, r.paid), a)
    decreases |ws|
  {
    if ws != [] {
      var w, rest := ws[|ws| - 1], ws[..|ws| - 1];
      assert ws == rest + [w];
      if CanPay(env, funds, w) {
        var after := AfterPaying(env, funds, w);
        PaidOutBalanced(env, after, rest, id, a);
        var r := PaidOut(env, after, rest);
        PaidFirst(id, w, r.paid, a);
      } else {
        PaidOutBalanced(env, funds, rest, id, a);
      }
    }
  }

  /** All withdrawals that a map of pending ones holds. */
  ghost function Outstanding(p: Pending): multiset<Withdrawal> {
    if p == map[] then multiset{}
    else
      var x :| x in p;
      multiset(p[x]) + Outstanding(p - {x})
  }

  lemma {:induction false} OutstandingWithout(p: Pending, x: Account)
    requires x in p
    ensures Outstanding(p) == multiset(p[x]) + Outstanding(p - {x})
    decreases |p|
  {
    var y :| y in p && Outstanding(p) == multiset(p[y]) + Outstanding(p - {y});
    if y != x {
      OutstandingWithout(p - {y}, x);
      OutstandingWithout(p - {x}, y);
      assert p - {y} - {x} == p - {x} - {y};
    }
  }

  lemma OutstandingUpdate(p: Pending, x: Account, ws: seq<Withdrawal>)
    ensures Outstanding(p[x := ws]) == multiset(ws) + Outstanding(p - {x})
  {
    OutstandingWithout(p[x := ws], x);
    assert p[x := ws] - {x} == p - {x};
  }

  lemma OutstandingNew(p: Pending, x: Account, ws: seq<Withdrawal>)
    requires x !in p
    ensures Outstanding(p[x := ws]) == multiset(ws) + Outstanding(p)
  {
    OutstandingUpdate(p, x, ws);
    assert p - {x} == p;
  }

  /** The tree groups the withdrawals and loses none. */
  lemma {:induction false} TreeHolds(ws: seq<Withdrawal>)
    ensures Outstanding(Tree(ws)) == multiset(ws)
  {
    if ws != [] {
      var w, rest := ws[|ws| - 1], ws[..|ws| - 1];
      assert ws == rest + [w];
      TreeHolds(rest);
      var before := Tree(rest);
      OutstandingUpdate(before, w.main, Listed(before, w.main) + [w]);
      if w.main in before {
        OutstandingWithout(before, w.main);
      } else {
        assert before - {w.main} == before;
      }
    }
  }

  ghost function OfAccount(ws: seq<Withdrawal>, x: Account): seq<Withdrawal> {
    if ws == [] then []
    else OfAccount(ws[..|ws| - 1], x) + if ws[|ws| - 1].main == x then [ws[|ws| - 1]] else []
  }

  /** Each account's list holds exactly its own withdrawals in the order of the snapshot, and is not empty. */
  lemma {:induction false} TreeGroups(ws: seq<Withdrawal>, x: Account)
    ensures Listed(Tree(ws), x) == OfAccount(ws, x)
    ensures x in Tree(ws) <==> OfAccount(ws, x) != []
  {
    if ws != [] {
      TreeGroups(ws[..|ws| - 1], x);
    }
  }

  /** The accounts are walked each once. */
  ghost predicate Lists(order: seq<Account>, tree: Pending) {
    && (forall x :: x in order <==> x in tree)
    && (forall i, j | 0 <= i < j < |order| :: order[i] != order[j])
  }

  ghost predicate Orderly(env: Env) {
    forall tree :: Lists(env.order(tree), tree)
  }

  ghost predicate AllOrderly(steps: seq<Step>) {
    forall i | 0 <= i < |steps| :: Orderly(steps[i].env)
  }

  ghost function Part(tree: Pending, order: seq<Account>): Pending {
    map x | x in tree && x in order :: tree[x]
  }

  /** No list of pending withdrawals is empty. */
  ghost predicate Proper(p: Pending) {
    forall x | x in p :: p[x] != []
  }

  lemma PartNext(tree: Pending, rest: seq<Account>, x: Account)
    requires x in tree && x !in rest
    ensures Part(tree, rest + [x]) == Part(tree, rest)[x := tree[x]]
    ensures Outstanding(Part(tree, rest + [x])) == multiset(tree[x]) + Outstanding(Part(tree, rest))
  {
    OutstandingNew(Part(tree, rest), x, tree[x]);
  }

  lemma MorePaid(id: nat, a: seq<Withdrawal>, b: seq<Withdrawal>, x: Asset)
    ensures Movement(PaidEvents(id, a + b), x) == Movement(PaidEvents(id, a), x) + Movement(PaidEvents(id, b), x)
  {
    assert PaidEvents(id, a + b) == PaidEvents(id, a) + PaidEvents(id, b);
    MovementConcat(PaidEvents(id, a), PaidEvents(id, b), x);
  }

  lemma {:induction false} EveryoneFunded(env: Env, funds: Funds, tree: Pending, order: seq<Account>, id: nat, a: Asset)
    ensures var r := EveryonePaid(env, funds, tree, order);
            Held(r.funds, a) == Held(funds, a) + Movement(PaidEvents(id, r.paid), a)
  {
    hide PaidOut, Held;
    if order != [] {
      hide Movement, PaidEvents;
      var x, rest := order[|order| - 1], order[..|order| - 1];
      EveryoneFunded(env, funds, tree, rest, id, a);
      var before := EveryonePaid(env, funds, tree, rest);
      PaidOutBalanced(env, before.funds, Listed(tree, x), id, a);
      MorePaid(id, before.paid, PaidOut(env, before.funds, Listed(tree, x)).paid, a);
    }
  }

  lemma {:induction false} FailedListed(env: Env, funds: Funds, tree: Pending, order: seq<Account>)
    ensures var r := EveryonePaid(env, funds, tree, order);
            Proper(r.failed) && forall x | x in r.failed :: x in order
  {
    hide PaidOut;
    if order != [] {
      FailedListed(env, funds, tree, order[..|order| - 1]);
    }
  }

  /** However the accounts are ordered, each withdrawal is paid or failed, once. */
  lemma {:induction false} EveryoneBalanced(env: Env, funds: Funds, tree: Pending, order: seq<Account>)
    requires forall x | x in order :: x in tree
    requires forall i, j | 0 <= i < j < |order| :: order[i] != order[j]
    ensures var r := EveryonePaid(env, funds, tree, order);
            Outstanding(Part(tree, order)) == multiset(r.paid) + Outstanding(r.failed)
  {
    hide PaidOut;
    if order == [] {
      assert Part(tree, order) == map[];
    } else {
      hide Outstanding, Part;
      var x, rest := order[|order| - 1], order[..|order| - 1];
      assert order == rest + [x] && x !in rest;
      EveryoneBalanced(env, funds, tree, rest);
      FailedListed(env, funds, tree, rest);
      var before := EveryonePaid(env, funds, tree, rest);
      PartNext(tree, rest, x);
      PaidOrFailed(env, before.funds, tree[x]);
      var r := PaidOut(env, before.funds, tree[x]);
      OutstandingNew(before.failed, x, r.failed);
      Regroup(Outstanding(Part(tree, rest)), multiset(before.paid), Outstanding(before.failed), multiset(tree[x]),
              multiset(r.paid), multiset(r.failed));
    }
  }

  lemma Regroup(all: multiset<Withdrawal>, paid: multiset<Withdrawal>, failed: multiset<Withdrawal>,
                more: multiset<Withdrawal>,
                morePaid: multiset<Withdrawal>, moreFailed: multiset<Withdrawal>)
    requires all == paid + failed && more == morePaid + moreFailed
    ensures more + all == (paid + morePaid) + (moreFailed + failed)
  {
  }

  lemma {:induction false} ReleasesBalanced(env: Env, funds: Funds, releases: seq<Payment>, a: Asset)
    requires Released(env, funds, releases).Some?
    ensures Held(Released(env, funds, releases).value, a) == Held(funds, a) + Movement(ReleaseEvents(releases), a)
  {
    if releases != [] {
      var rest := releases[..|releases| - 1];
      ReleasesBalanced(env, funds, rest, a);
      var log := ReleaseEvents(releases);
      assert log[..|log| - 1] == ReleaseEvents(rest);
    }
  }

  lemma {:induction false} FeesBalanced(env: Env, funds: Funds, ws: seq<Withdrawal>, a: Asset)
    requires FeesSettled(env, funds, ws).Some?
    ensures Held(FeesSettled(env, funds, ws).value, a) == Held(funds, a) + Movement(FeeEvents(ws), a)
  {
    if ws != [] {
      var rest := ws[..|ws| - 1];
      FeesBalanced(env, funds, rest, a);
      var log := FeeEvents(ws);
      assert log[..|log| - 1] == FeeEvents(rest);
    }
  }

  // ------------------------------------------------------------------ one call

  /** How a snapshot that passes its releases and fees is paid out. */
  ghost function Shares(env: Env, c: Chain, summary: Summary): AllPaid
    requires Released(env, c.funds, summary.releases).Some?
  {
    var tree := Tree(summary.withdrawals);
    EveryonePaid(env, Released(env, c.funds, summary.releases).value, tree, env.order(tree))
  }

  lemma SettledMoves(env: Env, c: Chain, summary: Summary, a: Asset)
    requires SnapshotSettled(env, c, summary).Some?
    ensures var e := SnapshotSettled(env, c, summary).value;
            Held(e.chain.funds, a) == Held(c.funds, a) + Movement(e.log, a)
  {
    hide Movement, Held, Tree, EveryonePaid, ReleaseEvents, PaidEvents, FeeEvents, Released, FeesSettled;
    ReleasesBalanced(env, c.funds, summary.releases, a);
    var ws, id := summary.withdrawals, summary.snapshotId;
    if ws != [] {
      var tree := Tree(ws);
      var released := Released(env, c.funds, summary.releases).value;
      var all := EveryonePaid(env, released, tree, env.order(tree));
      EveryoneFunded(env, released, tree, env.order(tree), id, a);
      FeesBalanced(env, all.funds, ws, a);
      MovementConcat(PaidEvents(id, all.paid), FeeEvents(ws), a);
      MovementConcat(ReleaseEvents(summary.releases), PaidEvents(id, all.paid) + FeeEvents(ws), a);
    }
  }

  lemma MovementOne(e: Event, a: Asset)
    ensures Movement([e], a) == Moved(e, a)
  {
    assert [e][..0] == [];
  }

  /** A call changes custody by exactly what its events report. */
  lemma CallConserves(env: Env, c: Chain, call: Call, a: Asset)
    ensures var e := Called(env, c, call);
            Held(e.chain.funds, a) == Held(c.funds, a) + Movement(e.log, a)
  {
    match call {
      case Submit(summary, sigs, proceeds) =>
        hide SnapshotSettled, Fault;
        var e := SnapshotSettled(env, c, summary);
        if e.Some? {
          SettledMoves(env, c, summary, a);
          var first := Accepted(summary, sigs, c.sets.Of(c.sets.active));
          MovementConcat([first], e.value.log, a);
          MovementOne(first, a);
        }
      case Claim(id, x) =>
        if id in c.pending && x in c.pending[id] {
          hide PaidOut, PaidEvents;
          PaidOutBalanced(env, c.funds, c.pending[id][x], id, a);
        }
      case Deposit(asset, units) =>
        MovementOne(Deposited(Payment(asset, Some(units))), a);
      case NewSession(_) =>
      case SetNonce(_) =>
      case ForceSubmit(_) =>
    }
  }

  /** Over every run, custody of every asset is what it was at first, plus deposits, less what was paid and drained. */
  lemma {:induction false} CustodyConserved(c: Chain, steps: seq<Step>, a: Asset)
    ensures var e := Run(c, steps);
            Held(e.chain.funds, a) == Held(c.funds, a) + Movement(e.log, a)
  {
    if steps != [] {
      hide Called, Movement, Held;
      var before := Run(c, steps[..|steps| - 1]);
      CustodyConserved(c, steps[..|steps| - 1], a);
      var env, call := steps[|steps| - 1].env, steps[|steps| - 1].call;
      CallConserves(env, before.chain, call, a);
      MovementConcat(before.log, Called(env, before.chain, call).log, a);
    }
  }

  // ------------------------------------------------------------------ nothing empty is kept

  ghost predicate Tidy(pending: map<nat, Pending>) {
    forall id | id in pending :: pending[id] != map[] && Proper(pending[id])
  }

  lemma CallTidy(env: Env, c: Chain, call: Call)
    requires Tidy(c.pending)
    ensures Tidy(Called(env, c, call).chain.pending)
  {
    hide PaidOut, EveryonePaid, Tree, Fault, Released, FeesSettled, ReleaseEvents, PaidEvents, FeeEvents;
    if call.Submit? && SnapshotSettled(env, c, call.summary).Some? {
      var tree := Tree(call.summary.withdrawals);
      FailedListed(env, Released(env, c.funds, call.summary.releases).value, tree, env.order(tree));
    }
  }

  /** No run ever stores an empty list or an empty map of pending withdrawals. */
  lemma {:induction false} AlwaysTidy(c: Chain, steps: seq<Step>)
    requires Tidy(c.pending)
    ensures Tidy(Run(c, steps).chain.pending)
  {
    if steps != [] {
      hide Called;
      AlwaysTidy(c, steps[..|steps| - 1]);
      CallTidy(steps[|steps| - 1].env, Run(c, steps[..|steps| - 1]).chain, steps[|steps| - 1].call);
    }
  }

  // ------------------------------------------------------------------ every withdrawal is accounted for

  ghost function PendingFor(c: Chain, id: nat): multiset<Withdrawal> {
    if id in c.pending then Outstanding(c.pending[id]) else multiset{}
  }

  /** An accepted snapshot whose failures are stored replaces whatever was pending under its id. */
  ghost predicate Overwrites(env: Env, c: Chain, call: Call, id: nat) {
    && call.Submit? && call.summary.snapshotId == id && Called(env, c, call).log != []
    && Shares(env, c, call.summary).failed != map[]
  }

  ghost function Dropped(env: Env, c: Chain, call: Call, id: nat): multiset<Withdrawal> {
    if Overwrites(env, c, call, id) then PendingFor(c, id) else multiset{}
  }

  lemma SettledLog(env: Env, c: Chain, summary: Summary, id: nat)
    requires SnapshotSettled(env, c, summary).Some?
    ensures var log := SnapshotSettled(env, c, summary).value.log;
            && Included(log, id) == multiset{} && AcceptedIds(log) == []
            && PaidFor(log, id)
               == if id == summary.snapshotId && summary.withdrawals != [] then multiset(Shares(env, c, summary).paid)
                                   else multiset{}
  {
    hide Included, AcceptedIds, PaidFor, EveryonePaid, Tree, Released, FeesSettled;
    var e := SnapshotSettled(env, c, summary).value;
    NothingAccepted(e.log, id);
    var ws := summary.withdrawals;
    if id != summary.snapshotId || ws == [] {
      NothingPaid(e.log, id);
    } else {
      var paid := Shares(env, c, summary).paid;
      PaidEventsPay(id, paid);
      NothingPaid(ReleaseEvents(summary.releases), id);
      NothingPaid(FeeEvents(ws), id);
      PaidConcat(PaidEvents(id, paid), FeeEvents(ws), id);
      PaidConcat(ReleaseEvents(summary.releases), PaidEvents(id, paid) + FeeEvents(ws), id);
    }
  }

  /** What a snapshot includes is paid or kept. */
  lemma SharesAll(env: Env, c: Chain, summary: Summary)
    requires Orderly(env) && Released(env, c.funds, summary.releases).Some?
    ensures var r := Shares(env, c, summary);
            multiset(summary.withdrawals) == multiset(r.paid) + Outstanding(r.failed)
  {
    hide Outstanding, Tree, EveryonePaid, Released;
    var tree := Tree(summary.withdrawals);
    assert Lists(env.order(tree), tree);
    EveryoneBalanced(env, Released(env, c.funds, summary.releases).value, tree, env.order(tree));
    assert Part(tree, env.order(tree)) == tree;
    TreeHolds(summary.withdrawals);
  }

  lemma AcceptedFirst(first: Event, id: nat)
    requires first.Accepted?
    ensures Included([first], id) == Brought(first, id) && PaidFor([first], id) == multiset{}
    ensures AcceptedIds([first]) == [first.summary.snapshotId]
  {
    assert [first][..0] == [];
  }

  lemma AcceptedLog(first: Event, log: seq<Event>, id: nat)
    requires first.Accepted?
    ensures Included([first] + log, id) == Brought(first, id) + Included(log, id)
    ensures PaidFor([first] + log, id) == PaidFor(log, id)
    ensures AcceptedIds([first] + log) == [first.summary.snapshotId] + AcceptedIds(log)
  {
    AcceptedFirst(first, id);
    hide Included, PaidFor, AcceptedIds, Brought;
    IncludedConcat([first], log, id);
    PaidConcat([first], log, id);
    AcceptedConcat([first], log);
  }

  lemma NoLog(id: nat)
    ensures Included([], id) == multiset{} && PaidFor([], id) == multiset{} && AcceptedIds([]) == []
  {
  }

  lemma SubmitAccounts(env: Env, c: Chain, call: Call, id: nat)
    requires Orderly(env) && call.Submit?
    ensures var e := Called(env, c, call);
            Included(e.log, id) + PendingFor(c, id)
            == PaidFor(e.log, id) + PendingFor(e.chain, id) + Dropped(env, c, call, id)
  {
    hide Included, PaidFor, Outstanding, SnapshotSettled, Fault, Lists, Orderly, Shares;
    NoLog(id);
    if Called(env, c, call).log != [] {
      AcceptedAccounts(env, c, call, id);
    }
  }

  /** What an accepted snapshot does to the pending withdrawals. */
  lemma AcceptedPending(env: Env, c: Chain, summary: Summary)
    requires Orderly(env) && SnapshotSettled(env, c, summary).Some?
    ensures Released(env, c.funds, summary.releases).Some?
    ensures SnapshotSettled(env, c, summary).value.chain.pending
            == Kept(c.pending, summary.snapshotId, Shares(env, c, summary).failed)
  {
    FailedOfNone(env, c, summary);
    hide EveryonePaid, Tree, Released, FeesSettled, ReleaseEvents, PaidEvents, FeeEvents, Orderly;
  }

  lemma AcceptedAccounts(env: Env, c: Chain, call: Call, id: nat)
    requires Orderly(env) && call.Submit? && Called(env, c, call).log != []
    ensures var e := Called(env, c, call);
            Included(e.log, id) + PendingFor(c, id)
            == PaidFor(e.log, id) + PendingFor(e.chain, id) + Dropped(env, c, call, id)
  {
    hide Included, PaidFor, Outstanding, SnapshotSettled, Fault, Released, Orderly;
    var summary := call.summary;
    SettledLog(env, c, summary, id);
    AcceptedLog(Accepted(summary, call.sigs, c.sets.Of(c.sets.active)), SnapshotSettled(env, c, summary).value.log, id);
    AcceptedPending(env, c, summary);
    SharesAll(env, c, summary);
    NothingOutstanding();
    hide Shares;
    if summary.withdrawals == [] {
      assert Shares(env, c, summary).paid == [] && Shares(env, c, summary).failed == map[] by {
        assert |Shares(env, c, summary).paid| == |multiset(Shares(env, c, summary).paid)|;
        FailedOfNone(env, c, summary);
      }
    }
  }

  lemma FailedOfNone(env: Env, c: Chain, summary: Summary)
    requires Orderly(env) && Released(env, c.funds, summary.releases).Some?
    ensures summary.withdrawals == [] ==> Shares(env, c, summary).failed == map[]
  {
    if summary.withdrawals == [] {
      var tree := Tree(summary.withdrawals);
      assert Lists(env.order(tree), tree);
      FailedListed(env, Released(env, c.funds, summary.releases).value, tree, env.order(tree));
    }
  }

  lemma NothingOutstanding()
    ensures Outstanding(map[]) == multiset{}
  {
  }

  lemma ClaimAccounts(env: Env, c: Chain, x: Account, paidId: nat, id: nat)
    ensures var e := Claimed(env, c, paidId, x);
            Included(e.log, id) + PendingFor(c, id) == PaidFor(e.log, id) + PendingFor(e.chain, id)
            && AcceptedIds(e.log) == []
  {
    hide Included, PaidFor, Outstanding, PaidOut, AcceptedIds;
    var e := Claimed(env, c, paidId, x);
    NothingAccepted(e.log, id);
    if id != paidId || id !in c.pending || x !in c.pending[id] {
      NothingPaid(e.log, id);
    } else {
      var p := c.pending[id];
      var r := PaidOut(env, c.funds, p[x]);
      PaidOrFailed(env, c.funds, p[x]);
      PaidEventsPay(id, r.paid);
      OutstandingWithout(p, x);
      ClaimLeaves(env, c, x, id);
      hide PendingFor, Claimed;
      assert PendingFor(c, id) == multiset(p[x]) + Outstanding(p - {x});
    }
  }

  lemma ClaimLeaves(env: Env, c: Chain, x: Account, id: nat)
    requires id in c.pending && x in c.pending[id]
    ensures var p := c.pending[id];
            PendingFor(c, id) == Outstanding(p)
            && PendingFor(Claimed(env, c, id, x).chain, id) == multiset(PaidOut(env, c.funds, p[x]).failed)
               + Outstanding(p - {x})
            && Claimed(env, c, id, x).log == PaidEvents(id, PaidOut(env, c.funds, p[x]).paid)
  {
    hide Outstanding, PaidOut, PaidEvents;
    var p := c.pending[id];
    OutstandingUpdate(p, x, PaidOut(env, c.funds, p[x]).failed);
    NothingOutstanding();
  }

  /** Under every id, what a call includes is paid, pending, or overwritten. */
  lemma CallAccounts(env: Env, c: Chain, call: Call, id: nat)
    requires Orderly(env)
    ensures var e := Called(env, c, call);
            Included(e.log, id) + PendingFor(c, id)
            == PaidFor(e.log, id) + PendingFor(e.chain, id) + Dropped(env, c, call, id)
  {
    hide Included, PaidFor, Submitted, Claimed, Outstanding;
    NoLog(id);
    match call {
      case Submit(_, _, _) => SubmitAccounts(env, c, call, id);
      case Claim(paidId, x) => ClaimAccounts(env, c, x, paidId, id);
      case Deposit(_, _) =>
        NothingAccepted(Called(env, c, call).log, id);
        NothingPaid(Called(env, c, call).log, id);
      case NewSession(_) =>
      case SetNonce(_) =>
      case ForceSubmit(_) =>
    }
  }

  /** The withdrawals that a run forgot under this id. */
  ghost function Lost(c: Chain, steps: seq<Step>, id: nat): multiset<Withdrawal> {
    if steps == [] then multiset{}
    else
      var rest := steps[..|steps| - 1];
      Lost(c, rest, id) + Dropped(steps[|steps| - 1].env, Run(c, rest).chain, steps[|steps| - 1].call, id)
  }

  /** Over every run, governance included, the withdrawals of a snapshot are each paid once, still pending, or
      overwritten: none is ever paid twice. */
  lemma {:induction false} WithdrawalsAccounted(c: Chain, steps: seq<Step>, id: nat)
    requires AllOrderly(steps)
    ensures var e := Run(c, steps);
            Included(e.log, id) + PendingFor(c, id) == PaidFor(e.log, id) + PendingFor(e.chain, id) + Lost(c, steps, id)
  {
    if steps != [] {
      hide Called, Included, PaidFor, PendingFor, Dropped, Orderly;
      var rest, env, call := steps[..|steps| - 1], steps[|steps| - 1].env, steps[|steps| - 1].call;
      var before := Run(c, rest);
      var last := Called(env, before.chain, call);
      WithdrawalsAccounted(c, rest, id);
      CallAccounts(env, before.chain, call, id);
      IncludedConcat(before.log, last.log, id);
      PaidConcat(before.log, last.log, id);
      Sum(Included(before.log, id), Included(last.log, id), PendingFor(c, id), PendingFor(before.chain, id),
          PaidFor(before.log, id),
          PaidFor(last.log, id), PendingFor(last.chain, id), Lost(c, rest, id), Dropped(env, before.chain, call, id));
    }
  }

  lemma Sum(a: multiset<Withdrawal>, b: multiset<Withdrawal>, p: multiset<Withdrawal>, q: multiset<Withdrawal>,
            x: multiset<Withdrawal>,
            y: multiset<Withdrawal>, r: multiset<Withdrawal>, l: multiset<Withdrawal>, d: multiset<Withdrawal>)
    requires a + p == x + q + l && b + q == y + r + d
    ensures (a + b) + p == (x + y) + r + (l + d)
  {
    var left, right := (a + b) + p, (x + y) + r + (l + d);
    forall w
      ensures left[w] == right[w]
    {
      assert (a + p)[w] == (x + q + l)[w] && (b + q)[w] == (y + r + d)[w];
    }
  }

  // ------------------------------------------------------------------ fresh ids lose nothing

  ghost predicate Distinct(ids: seq<nat>) {
    forall i, j | 0 <= i < j < |ids| :: ids[i] != ids[j]
  }

  lemma {:induction false} IncludedOnlyIfAccepted(log: seq<Event>, id: nat)
    requires id !in AcceptedIds(log)
    ensures Included(log, id) == multiset{}
  {
    if log != [] {
      var e := log[|log| - 1];
      assert e.Accepted? ==> AcceptedIds(log)[|AcceptedIds(log)| - 1] == e.summary.snapshotId;
      IncludedOnlyIfAccepted(log[..|log| - 1], id);
    }
  }

  lemma TidyIsPending(c: Chain, id: nat)
    requires Tidy(c.pending)
    ensures id in c.pending <==> PendingFor(c, id) != multiset{}
  {
    if id in c.pending {
      var p := c.pending[id];
      var x :| x in p;
      OutstandingWithout(p, x);
      assert p[x][0] in multiset(p[x]);
    }
  }

  // ------------------------------------------------------------------ exactly when something is lost

  /** Every withdrawal of the list can be paid when its turn comes. */
  predicate AllPayable(env: Env, funds: Funds, ws: seq<Withdrawal>)
    decreases |ws|
  {
    ws != [] ==>
      var w := ws[|ws| - 1];
      CanPay(env, funds, w) && AllPayable(env, AfterPaying(env, funds, w), ws[..|ws| - 1])
  }

  lemma {:induction false} AllPayableIff(env: Env, funds: Funds, ws: seq<Withdrawal>)
    ensures PaidOut(env, funds, ws).failed == [] <==> AllPayable(env, funds, ws)
    decreases |ws|
  {
    hide CanPay, AfterPaying;
    if ws != [] && CanPay(env, funds, ws[|ws| - 1]) {
      AllPayableIff(env, AfterPaying(env, funds, ws[|ws| - 1]), ws[..|ws| - 1]);
    }
  }

  /** A claim leaves nothing pending for the account exactly when every withdrawal can be paid in its turn, whatever
      failed before. */
  lemma ClaimClearsIff(env: Env, c: Chain, id: nat, x: Account)
    requires id in c.pending && x in c.pending[id]
    ensures var after := Claimed(env, c, id, x).chain.pending;
            id !in after || x !in after[id] <==> AllPayable(env, c.funds, c.pending[id][x])
  {
    hide PaidOut, AllPayable;
    AllPayableIff(env, c.funds, c.pending[id][x]);
    assert x in c.pending[id][x := PaidOut(env, c.funds, c.pending[id][x]).failed];
  }

  /** The account at this place of the order has a withdrawal that cannot be paid when its turn comes. */
  ghost predicate Fails(env: Env, funds: Funds, tree: Pending, order: seq<Account>, k: nat)
    requires k < |order|
  {
    !AllPayable(env, EveryonePaid(env, funds, tree, order[..k]).funds, Listed(tree, order[k]))
  }

  lemma {:induction false} FailedIff(env: Env, funds: Funds, tree: Pending, order: seq<Account>)
    ensures EveryonePaid(env, funds, tree, order).failed != map[]
            <==> exists k: nat | k < |order| :: Fails(env, funds, tree, order, k)
  {
    if order != [] {
      hide PaidOut, AllPayable;
      var rest, last := order[..|order| - 1], |order| - 1;
      FailedIff(env, funds, tree, rest);
      AllPayableIff(env, EveryonePaid(env, funds, tree, rest).funds, Listed(tree, order[last]));
      assert order[..last] == rest;
      assert forall k: nat | k < |rest| :: rest[..k] == order[..k];
      assert forall k: nat | k < |rest| :: Fails(env, funds, tree, order, k) <==> Fails(env, funds, tree, rest, k);
      if EveryonePaid(env, funds, tree, rest).failed != map[] {
        var k: nat :| k < |rest| && Fails(env, funds, tree, rest, k);
        assert Fails(env, funds, tree, order, k);
      } else if Fails(env, funds, tree, order, last) {
        assert order[last] in EveryonePaid(env, funds, tree, order).failed;
      }
    }
  }

  /** The guard of the losing branch: the submission is valid, its releases and fees go through, its id has
      withdrawals pending, and one of its own withdrawals cannot be paid. */
  ghost predicate Loses(env: Env, c: Chain, call: Call) {
    && call.Submit? && call.proceeds
    && Fault(env.rules, c.nonce, c.sets, call.summary, call.sigs).None?
    && call.summary.snapshotId in c.pending
    && Released(env, c.funds, call.summary.releases).Some?
    && var funds, tree := Released(env, c.funds, call.summary.releases).value, Tree(call.summary.withdrawals);
       var order := env.order(tree);
       && (exists k: nat | k < |order| :: Fails(env, funds, tree, order, k))
       && FeesSettled(env, EveryonePaid(env, funds, tree, order).funds, call.summary.withdrawals).Some?
  }

  /** What was included or pending is paid or pending. */
  ghost predicate Accounted(c: Chain, e: Effect, id: nat) {
    Included(e.log, id) + PendingFor(c, id) == PaidFor(e.log, id) + PendingFor(e.chain, id)
  }

  lemma LosesIffOverwrites(env: Env, c: Chain, call: Call)
    requires Orderly(env)
    ensures Loses(env, c, call)
            <==> call.Submit? && call.summary.snapshotId in c.pending
                 && Overwrites(env, c, call, call.summary.snapshotId)
  {
    if call.Submit? && Released(env, c.funds, call.summary.releases).Some? {
      var funds, tree := Released(env, c.funds, call.summary.releases).value, Tree(call.summary.withdrawals);
      FailedIff(env, funds, tree, env.order(tree));
      FailedOfNone(env, c, call.summary);
    }
    hide Released, FeesSettled, EveryonePaid, Tree, Fault, Fails, ReleaseEvents, PaidEvents, FeeEvents, Orderly;
  }

  lemma Cancel(a: multiset<Withdrawal>, b: multiset<Withdrawal>, d: multiset<Withdrawal>)
    requires a == b + d
    ensures a == b <==> d == multiset{}
  {
    if a == b {
      assert forall w :: a[w] == b[w] + d[w];
    }
  }

  /** A call keeps account of every withdrawal exactly when it does not take that branch. */
  lemma KeepsIff(env: Env, c: Chain, call: Call)
    requires Orderly(env) && Tidy(c.pending)
    ensures AllAccounted(c, Called(env, c, call)) <==> !Loses(env, c, call)
  {
    hide Called, Included, PaidFor, PendingFor, Loses, Orderly, Overwrites, Tidy;
    var e := Called(env, c, call);
    LosesIffOverwrites(env, c, call);
    forall id
      ensures Accounted(c, e, id) <==> !(id in c.pending && Overwrites(env, c, call, id))
    {
      CallAccounts(env, c, call, id);
      Cancel(Included(e.log, id) + PendingFor(c, id), PaidFor(e.log, id) + PendingFor(e.chain, id),
             Dropped(env, c, call, id));
      TidyIsPending(c, id);
    }
    OverwritesOwnId(env, c, call);
    if Loses(env, c, call) {
      assert !Accounted(c, e, call.summary.snapshotId);
    }
  }

  lemma OverwritesOwnId(env: Env, c: Chain, call: Call)
    ensures forall id | Overwrites(env, c, call, id) :: call.Submit? && id == call.summary.snapshotId
  {
  }

  ghost predicate NoneLoses(c: Chain, steps: seq<Step>) {
    steps != [] ==>
      var rest, last := steps[..|steps| - 1], steps[|steps| - 1];
      NoneLoses(c, rest) && !Loses(last.env, Run(c, rest).chain, last.call)
  }

  ghost predicate NothingLost(c: Chain, steps: seq<Step>) {
    forall id: nat :: Lost(c, steps, id) == multiset{}
  }

  lemma LostMore(c: Chain, rest: seq<Step>, step: Step, id: nat)
    requires Tidy(Run(c, rest).chain.pending)
    ensures var at := Run(c, rest).chain;
            Lost(c, rest + [step], id) == multiset{} <==>
            Lost(c, rest, id) == multiset{} && !(id in at.pending && Overwrites(step.env, at, step.call, id))
  {
    LostNext(c, rest, step, id);
    hide Run, Lost, Overwrites, PendingFor, Tidy;
    var at := Run(c, rest).chain;
    TidyIsPending(at, id);
    Cancel(Lost(c, rest + [step], id), Lost(c, rest, id), Dropped(step.env, at, step.call, id));
    Cancel(Lost(c, rest + [step], id), Dropped(step.env, at, step.call, id), Lost(c, rest, id));
  }

  lemma NothingLostMore(c: Chain, rest: seq<Step>, step: Step)
    requires Tidy(Run(c, rest).chain.pending) && Orderly(step.env)
    ensures NothingLost(c, rest + [step]) <==> NothingLost(c, rest) && !Loses(step.env, Run(c, rest).chain, step.call)
  {
    hide Run, Lost, Loses, Orderly, Overwrites, Tidy;
    var at, all := Run(c, rest).chain, rest + [step];
    LosesIffOverwrites(step.env, at, step.call);
    OverwritesOwnId(step.env, at, step.call);
    if NothingLost(c, all) {
      forall id: nat
        ensures Lost(c, rest, id) == multiset{}
      {
        assert Lost(c, all, id) == multiset{};
        LostMore(c, rest, step, id);
      }
      if Loses(step.env, at, step.call) {
        LostMore(c, rest, step, step.call.summary.snapshotId);
      }
    }
    if NothingLost(c, rest) && !Loses(step.env, at, step.call) {
      forall id: nat
        ensures Lost(c, all, id) == multiset{}
      {
        assert Lost(c, rest, id) == multiset{};
        LostMore(c, rest, step, id);
      }
    }
  }

  lemma {:induction false} LostIff(c: Chain, steps: seq<Step>)
    requires AllOrderly(steps) && Tidy(c.pending)
    ensures NothingLost(c, steps) <==> NoneLoses(c, steps)
  {
    if steps != [] {
      hide Run, Loses, Orderly, Tidy, NothingLost;
      var rest, last := steps[..|steps| - 1], steps[|steps| - 1];
      assert steps == rest + [last];
      LostIff(c, rest);
      AlwaysTidy(c, rest);
      NothingLostMore(c, rest, last);
    }
  }

  ghost predicate AllAccounted(c: Chain, e: Effect) {
    forall id: nat :: Accounted(c, e, id)
  }

  /** Over any run every withdrawal is paid once or pending exactly when no call takes the losing branch. */
  lemma RunKeepsIff(c: Chain, steps: seq<Step>)
    requires AllOrderly(steps) && Tidy(c.pending)
    ensures AllAccounted(c, Run(c, steps)) <==> NoneLoses(c, steps)
  {
    hide Run, Included, PaidFor, PendingFor, AllOrderly, Tidy, NoneLoses, Lost;
    var e := Run(c, steps);
    forall id: nat
      ensures Accounted(c, e, id) <==> Lost(c, steps, id) == multiset{}
    {
      WithdrawalsAccounted(c, steps, id);
      Cancel(Included(e.log, id) + PendingFor(c, id), PaidFor(e.log, id) + PendingFor(e.chain, id), Lost(c, steps, id));
    }
    LostIff(c, steps);
    if AllAccounted(c, e) {
      forall id: nat
        ensures Lost(c, steps, id) == multiset{}
      {
        assert Accounted(c, e, id);
      }
      assert NothingLost(c, steps);
    }
    if NothingLost(c, steps) {
      forall id: nat
        ensures Accounted(c, e, id)
      {
        assert Lost(c, steps, id) == multiset{};
      }
    }
  }

  lemma CallAccepts(env: Env, c: Chain, call: Call)
    ensures var e := Called(env, c, call);
            AcceptedIds(e.log) == if call.Submit? && e.log != [] then [call.summary.snapshotId] else []
  {
    hide SnapshotSettled, Fault, PaidOut;
    match call {
      case Submit(summary, sigs, proceeds) =>
        var e := SnapshotSettled(env, c, summary);
        if e.Some? {
          SettledLog(env, c, summary, 0);
          AcceptedLog(Accepted(summary, sigs, c.sets.Of(c.sets.active)), e.value.log, 0);
          assert [summary.snapshotId] + [] == [summary.snapshotId];
        }
      case Claim(id, x) => ClaimAccounts(env, c, x, id, 0);
      case Deposit(_, _) => NothingAccepted(Called(env, c, call).log, 0);
      case NewSession(_) =>
      case SetNonce(_) =>
      case ForceSubmit(_) =>
    }
  }

  lemma DistinctParts(a: seq<nat>, b: seq<nat>)
    requires Distinct(a + b)
    ensures Distinct(a)
    ensures b != [] ==> b[0] !in a
  {
    var ids := a + b;
    assert forall i | 0 <= i < |a| :: ids[i] == a[i];
    assert b != [] ==> ids[|a|] == b[0];
  }

  /** Nothing is pending under an id that was never accepted. */
  lemma NotYetPending(c: Chain, steps: seq<Step>, id: nat)
    requires AllOrderly(steps) && c.pending == map[] && id !in AcceptedIds(Run(c, steps).log)
    ensures PendingFor(Run(c, steps).chain, id) == multiset{}
  {
    hide Run, Lost, Included, PaidFor, AcceptedIds, Orderly, Outstanding;
    var e := Run(c, steps);
    WithdrawalsAccounted(c, steps, id);
    IncludedOnlyIfAccepted(e.log, id);
    var all := PaidFor(e.log, id) + PendingFor(e.chain, id) + Lost(c, steps, id);
    assert all == multiset{};
    assert forall w :: PendingFor(e.chain, id)[w] <= all[w];
  }

  lemma RunNext(c: Chain, rest: seq<Step>, step: Step)
    ensures var before := Run(c, rest);
            var last := Called(step.env, before.chain, step.call);
            Run(c, rest + [step]) == Effect(last.chain, before.log + last.log)
  {
    hide Called;
    assert (rest + [step])[..|rest|] == rest;
  }

  /** A call under a new id drops nothing. */
  lemma FreshDropsNothing(c: Chain, rest: seq<Step>, step: Step, id: nat)
    requires AllOrderly(rest) && c.pending == map[] && Distinct(AcceptedIds(Run(c, rest + [step]).log))
    ensures Distinct(AcceptedIds(Run(c, rest).log))
    ensures Dropped(step.env, Run(c, rest).chain, step.call, id) == multiset{}
  {
    RunNext(c, rest, step);
    hide Called, AcceptedIds, AllOrderly, Distinct, PendingFor, Run;
    var before := Run(c, rest);
    var last := Called(step.env, before.chain, step.call);
    AcceptedConcat(before.log, last.log);
    CallAccepts(step.env, before.chain, step.call);
    DistinctParts(AcceptedIds(before.log), AcceptedIds(last.log));
    if Overwrites(step.env, before.chain, step.call, id) {
      NotYetPending(c, rest, id);
    }
  }

  /** While no id is accepted a second time, nothing is lost: what was included is paid or pending. */
  lemma {:induction false} FreshIdsLoseNothing(c: Chain, steps: seq<Step>, id: nat)
    requires AllOrderly(steps) && c.pending == map[] && Distinct(AcceptedIds(Run(c, steps).log))
    ensures Lost(c, steps, id) == multiset{}
  {
    if steps != [] {
      hide AcceptedIds, Orderly, Distinct, Dropped, Run;
      var rest, last := steps[..|steps| - 1], steps[|steps| - 1];
      assert steps == rest + [last];
      FreshDropsNothing(c, rest, last, id);
      FreshIdsLoseNothing(c, rest, id);
    }
  }

  ghost function Walk(p: Pending): (order: seq<Account>)
    ensures Lists(order, p)
  {
    if p == map[] then []
    else
      var x :| x in p;
      Walk(p - {x}) + [x]
  }

  ghost function Example(): Env {
    Env(Rules(n => n, 1, (a, summary, signature) => true), (funds, w) => false, (funds, p) => false,
        (funds, fee) => true,
        p => Walk(p))
  }

  ghost function One(n: nat): Withdrawal {
    Withdrawal(n, 7, Payment(Polkadex, Some(1)), 0)
  }

  ghost function Sent(n: nat): Call {
    Submit(Summary(1, 0, n, [One(n)], []), [Signed(0, 0)], true)
  }

  lemma TreeOfOne(w: Withdrawal)
    ensures Tree([w]) == map[w.main := [w]]
  {
    assert [w][..0] == [];
    assert Listed(Tree([]), w.main) + [w] == [w];
  }

  lemma WalkOne(x: Account, ws: seq<Withdrawal>)
    ensures Walk(map[x := ws]) == [x]
  {
    var p: Pending := map[x := ws];
    hide Walk;
    var order := Walk(p);
    assert x in p;
    assert forall i | 0 <= i < |order| :: order[i] in order;
  }

  lemma ExampleShares(funds: Funds, w: Withdrawal)
    ensures EveryonePaid(Example(), funds, map[w.main := [w]], [w.main]) == AllPaid(funds, map[w.main := [w]], [])
  {
    assert [w.main][..0] == [] && [w][..0] == [];
    assert PaidOut(Example(), funds, []) == Payout(funds, [], []);
    assert PaidOut(Example(), funds, [w]) == Payout(funds, [w], []) by {
      assert [w] + [] == [w];
    }
  }

  lemma ExampleFee(funds: Funds, w: Withdrawal)
    requires w.fee == 0
    ensures FeesSettled(Example(), funds, [w]).Some?
  {
    assert [w][..0] == [];
  }

  lemma ExampleAccepted(c: Chain, n: nat)
    requires c.nonce == 0 && c.sets == Sets(0, map[0 := [5]])
    ensures Fault(Example().rules, c.nonce, c.sets, Sent(n).summary, Sent(n).sigs).None?
  {
    AcceptedIff(Example().rules, 0, c.sets, Sent(n).summary, Sent(n).sigs);
    hide Fault;
  }

  lemma ExamplePaid(funds: Funds, n: nat)
    ensures var tree := Tree([One(n)]);
            EveryonePaid(Example(), funds, tree, Example().order(tree)) == AllPaid(funds, map[7 := [One(n)]], [])
  {
    TreeOfOne(One(n));
    WalkOne(7, [One(n)]);
    ExampleShares(funds, One(n));
    hide Tree, Walk, EveryonePaid;
  }

  lemma ExampleFails(c: Chain, n: nat)
    requires c.nonce == 0 && c.sets == Sets(0, map[0 := [5]])
    ensures var e := Called(Example(), c, Sent(n));
            e.log != [] && e.chain.sets == c.sets && e.chain.pending == c.pending[1 := map[7 := [One(n)]]]
    ensures Overwrites(Example(), c, Sent(n), 1)
  {
    var env := Example();
    ExampleAccepted(c, n);
    ExamplePaid(c.funds, n);
    ExampleFee(c.funds, One(n));
    hide Example, One, Tree, EveryonePaid, FeesSettled, Fault, SnapshotSettled, Called, Overwrites;
    AllFail(env, c, Sent(n), [One(n)], map[7 := [One(n)]]);
  }

  /** An accepted submission that pays nothing and whose fees go through keeps all its withdrawals. */
  lemma AllFail(env: Env, c: Chain, call: Call, ws: seq<Withdrawal>, failed: Pending)
    requires call.Submit? && call.proceeds && call.summary.releases == [] && call.summary.withdrawals == ws != []
             && failed != map[]
    requires Fault(env.rules, c.nonce, c.sets, call.summary, call.sigs).None?
    requires EveryonePaid(env, c.funds, Tree(ws), env.order(Tree(ws))) == AllPaid(c.funds, failed, [])
    requires FeesSettled(env, c.funds, ws).Some?
    ensures var e := Called(env, c, call);
            e.log != [] && e.chain.sets == c.sets && e.chain.pending == c.pending[call.summary.snapshotId := failed]
    ensures Overwrites(env, c, call, call.summary.snapshotId)
  {
    assert Released(env, c.funds, []) == Some(c.funds);
    hide Tree, EveryonePaid, FeesSettled, Fault, FeeEvents, PaidEvents, ReleaseEvents, Released;
    assert SnapshotSettled(env, c, call.summary).Some?;
  }

  lemma LostNext(c: Chain, steps: seq<Step>, step: Step, id: nat)
    ensures Run(c, steps + [step]).chain == Called(step.env, Run(c, steps).chain, step.call).chain
    ensures Lost(c, steps + [step], id) == Lost(c, steps, id) + Dropped(step.env, Run(c, steps).chain, step.call, id)
  {
    assert (steps + [step])[..|steps|] == steps;
  }

  lemma LostOfThree(c: Chain, x: Step, y: Step, z: Step, steps: seq<Step>, id: nat)
    requires steps == [x, y, z]
    ensures var first := Called(x.env, c, x.call).chain;
            var second := Called(y.env, first, y.call).chain;
            Lost(c, steps, id) == Dropped(x.env, c, x.call, id) + Dropped(y.env, first, y.call, id)
                + Dropped(z.env, second, z.call, id)
  {
    hide Called, Dropped;
    assert Run(c, []) == Effect(c, []) && Lost(c, [], id) == multiset{};
    hide Run, Lost;
    assert [x] == [] + [x] && [x, y] == [x] + [y] && steps == [x, y] + [z];
    LostNext(c, [], x, id);
    LostNext(c, [x], y, id);
    LostNext(c, [x, y], z, id);
  }

  lemma OnePending(c: Chain, id: nat, x: Account, w: Withdrawal)
    requires id in c.pending && c.pending[id] == map[x := [w]]
    ensures PendingFor(c, id) == multiset{w}
  {
    OutstandingNew(map[], x, [w]);
    NothingOutstanding();
    hide Outstanding;
    assert map[][x := [w]] == c.pending[id];
  }

  lemma NothingPending(c: Chain, id: nat)
    requires c.pending == map[]
    ensures PendingFor(c, id) == multiset{}
  {
  }

  lemma Reset(env: Env, c: Chain, id: nat)
    ensures Called(env, c, SetNonce(0)).chain == c.(nonce := 0)
    ensures Dropped(env, c, SetNonce(0), id) == multiset{}
  {
  }

  lemma ExampleOrderly()
    ensures Orderly(Example())
  {
    hide Lists;
    assert forall tree :: Example().order(tree) == Walk(tree);
  }

  /** After governance puts the nonce back, the second snapshot of an id replaces the pending withdrawal of the
      first, which is then neither paid nor pending. */
  lemma ReusedIdForgets(env: Env, c: Chain, steps: seq<Step>)
    requires env == Example() && c == Chain(0, map[], map[], map[], Sets(0, map[0 := [5]]))
    requires steps == [Step(env, Sent(1)), Step(env, SetNonce(0)), Step(env, Sent(2))]
    ensures AllOrderly(steps) && Lost(c, steps, 1) == multiset{One(1)}
  {
    hide Lost, Example, Called, Overwrites, Outstanding, Orderly, Sent, One, PendingFor;
    ExampleOrderly();
    LostOfThree(c, Step(env, Sent(1)), Step(env, SetNonce(0)), Step(env, Sent(2)), steps, 1);
    ExampleFails(c, 1);
    NothingPending(c, 1);
    var first := Called(env, c, Sent(1)).chain;
    Reset(env, first, 1);
    ExampleFails(first.(nonce := 0), 2);
    OnePending(first.(nonce := 0), 1, 7, One(1));
  }

  // ------------------------------------------------------------------ ids in sequence

  predicate Ordinary(call: Call) {
    !call.SetNonce? && !call.ForceSubmit?
  }

  ghost function UpTo(first: nat, count: nat): seq<nat> {
    seq(count, i requires 0 <= i < count => first + i)
  }

  /** Exactly the ids after the nonce are accepted, in order, each once, and each is stored. */
  ghost predicate InSequence(c: Chain, e: Effect) {
    && c.nonce <= e.chain.nonce
    && AcceptedIds(e.log) == UpTo(c.nonce + 1, e.chain.nonce - c.nonce)
    && forall id :: id in e.chain.snapshots <==> id in c.snapshots || c.nonce < id <= e.chain.nonce
  }

  lemma CallInSequence(env: Env, c: Chain, call: Call)
    requires Ordinary(call) && c.nonce < U64_MAX
    ensures var e := Called(env, c, call); InSequence(c, e) && e.chain.nonce <= c.nonce + 1
  {
    hide Released, FeesSettled, EveryonePaid, Tree, PaidOut, AcceptedIds, ReleaseEvents, PaidEvents, FeeEvents,
         SignatureFault;
    CallAccepts(env, c, call);
  }

  /** An accepted snapshot is a new one exactly until the 64-bit counter saturates. */
  lemma NewUntilSaturated(env: Env, c: Chain, call: Call)
    requires call.Submit? && c.nonce <= U64_MAX && Called(env, c, call).log != []
    ensures InSequence(c, Called(env, c, call)) <==> c.nonce < U64_MAX
  {
    hide Released, FeesSettled, EveryonePaid, Tree, PaidOut, AcceptedIds, ReleaseEvents, PaidEvents, FeeEvents,
         SignatureFault;
    CallAccepts(env, c, call);
    if c.nonce < U64_MAX {
      CallInSequence(env, c, call);
    }
  }

  lemma SequenceGoesOn(c: Chain, before: Effect, last: Effect)
    requires InSequence(c, before) && InSequence(before.chain, last)
    ensures InSequence(c, Effect(last.chain, before.log + last.log))
  {
    hide AcceptedIds;
    AcceptedConcat(before.log, last.log);
  }

  /** Without governance and before the counter saturates, ids stay in sequence. */
  lemma {:induction false} SnapshotsInSequence(c: Chain, steps: seq<Step>)
    requires forall i | 0 <= i < |steps| :: Ordinary(steps[i].call)
    requires c.nonce + |steps| <= U64_MAX
    ensures var e := Run(c, steps); InSequence(c, e) && e.chain.nonce <= c.nonce + |steps|
  {
    if steps != [] {
      hide Called, InSequence, Ordinary;
      var rest, env, call := steps[..|steps| - 1], steps[|steps| - 1].env, steps[|steps| - 1].call;
      SnapshotsInSequence(c, rest);
      var before := Run(c, rest);
      CallInSequence(env, before.chain, call);
      SequenceGoesOn(c, before, Called(env, before.chain, call));
    }
  }

  /** So from a fresh start, without governance, every withdrawal of every snapshot is paid once or pending. */
  lemma NoWithdrawalForgotten(c: Chain, steps: seq<Step>, id: nat)
    requires AllOrderly(steps) && c.pending == map[] && c.nonce + |steps| <= U64_MAX
    requires forall i | 0 <= i < |steps| :: Ordinary(steps[i].call)
    ensures var e := Run(c, steps);
            Included(e.log, id) == PaidFor(e.log, id) + PendingFor(e.chain, id)
  {
    hide Run, Included, PaidFor, Orderly, AcceptedIds, Lost, Outstanding;
    SnapshotsInSequence(c, steps);
    FreshIdsLoseNothing(c, steps, id);
    WithdrawalsAccounted(c, steps, id);
    var e := Run(c, steps);
    assert Included(e.log, id) + multiset{} == Included(e.log, id);
  }

  // ------------------------------------------------------------------ who authorised it

  /** Signed by enough different members of the set that the summary names. */
  ghost predicate Authorised(rules: Rules, sets: Sets, e: Event) {
    e.Accepted? ==>
      && e.summary.setId <= sets.active && e.authorities == sets.Of(e.summary.setId) && e.authorities != []
      && Required(rules, |e.authorities|) <= |e.sigs|
      && DistinctSigners(e.sigs) && Genuine(rules, e.authorities, e.summary, e.sigs)
  }

  ghost predicate AllAuthorised(rules: Rules, sets: Sets, log: seq<Event>) {
    forall i | 0 <= i < |log| :: Authorised(rules, sets, log[i])
  }

  lemma StaysAuthorised(rules: Rules, sets: Sets, e: Event, next: seq<Authority>)
    requires Authorised(rules, sets, e)
    ensures Authorised(rules, sets.NewSession(next), e)
  {
    hide Genuine, DistinctSigners;
  }

  lemma StillAuthorised(env: Env, c: Chain, call: Call, e: Event)
    requires Authorised(env.rules, c.sets, e)
    ensures Authorised(env.rules, Called(env, c, call).chain.sets, e)
  {
    hide Authorised, Fault;
    if call.NewSession? {
      StaysAuthorised(env.rules, c.sets, e, call.authorities);
    }
  }

  lemma CallAuthorised(env: Env, c: Chain, call: Call, i: nat)
    requires i < |Called(env, c, call).log|
    ensures var e := Called(env, c, call); Authorised(env.rules, e.chain.sets, e.log[i])
  {
    hide Released, FeesSettled, EveryonePaid, Tree, PaidOut, Fault, Genuine, DistinctSigners;
    if call.Submit? && i == 0 {
      AcceptedIff(env.rules, c.nonce, c.sets, call.summary, call.sigs);
    }
  }

  lemma CallAllAuthorised(env: Env, c: Chain, call: Call, log: seq<Event>)
    requires AllAuthorised(env.rules, c.sets, log)
    ensures var e := Called(env, c, call); AllAuthorised(env.rules, e.chain.sets, log + e.log)
  {
    hide Authorised, Called;
    var e := Called(env, c, call);
    var all := log + e.log;
    forall i | 0 <= i < |all|
      ensures Authorised(env.rules, e.chain.sets, all[i])
    {
      if i < |log| {
        StillAuthorised(env, c, call, log[i]);
      } else {
        CallAuthorised(env, c, call, i - |log|);
      }
    }
  }

  /** In every run every accepted snapshot was, and by the sets then on record still is, signed by a quorum of
      the validator set it names. */
  lemma {:induction false} AlwaysAuthorised(rules: Rules, c: Chain, steps: seq<Step>)
    requires forall i | 0 <= i < |steps| :: steps[i].env.rules == rules
    ensures AllAuthorised(rules, Run(c, steps).chain.sets, Run(c, steps).log)
  {
    if steps != [] {
      hide AllAuthorised, Called;
      var rest, env, call := steps[..|steps| - 1], steps[|steps| - 1].env, steps[|steps| - 1].call;
      AlwaysAuthorised(rules, c, rest);
      CallAllAuthorised(env, Run(c, rest).chain, call, Run(c, rest).log);
    }
  }

  /** In every run any two snapshots accepted under one validator set of at least a hundred share a signer,
      however percentages round and however far apart they were accepted. */
  lemma RunSharesSigner(rules: Rules, c: Chain, steps: seq<Step>, i: nat, j: nat)
    requires forall k | 0 <= k < |steps| :: steps[k].env.rules == rules
    requires FairPercent(rules.percent51)
    requires i < |Run(c, steps).log| && j < |Run(c, steps).log|
    requires var e, f := Run(c, steps).log[i], Run(c, steps).log[j];
             e.Accepted? && f.Accepted? && e.summary.setId == f.summary.setId && |e.authorities| >= 100
    ensures Run(c, steps).log[i].authorities == Run(c, steps).log[j].authorities
    ensures Meet(Run(c, steps).log[i].sigs, Run(c, steps).log[j].sigs)
  {
    AlwaysAuthorised(rules, c, steps);
    var sets, log := Run(c, steps).chain.sets, Run(c, steps).log;
    assert Authorised(rules, sets, log[i]) && Authorised(rules, sets, log[j]);
    hide Run, AllAuthorised;
    var n := |log[i].authorities|;
    assert rules.percent51(n) >= 51 * n / 100;
    QuorumsMeet(log[i].sigs, log[j].sigs, n);
  }
}
