/** The sweep itself. Nothing is assumed about the node's answers: they are any functions of the query. */
module SweepClient {
  import opened ByteStrings
  import opened Sweeping

  /** How a part of the sweep ended: going on, or the script stopped, and why. */
  datatype Outcome = Going | Deadline | Mismatch | Refused | AllFailed

  datatype Reply = Accepted | AlreadyInPool | Rejected | OtherHash

  /** The node's answers to each kind of query, one after the other: the best and the finalised block, the calls in a
      block of the best chain and in the pool, the stashes that still need the call, the next nonce, and what becomes
      of a submission. */
  datatype Answers = Answers(best: nat -> nat, finalized: nat -> nat, block: nat -> set<TxId>,
                             pool: nat -> set<TxId>, needed: nat -> set<Stash>, nonce: nat -> nat, reply: nat -> Reply)

  /** How many queries of each kind were made. */
  datatype Asked = Asked(best: nat, finalized: nat, block: nat, pool: nat, needed: nat, nonce: nat, reply: nat)

  class Node {
    const answers: Answers
    var asked: Asked

    constructor (answers: Answers)
      ensures this.answers == answers && asked == Asked(0, 0, 0, 0, 0, 0, 0)
    {
      this.answers := answers;
      asked := Asked(0, 0, 0, 0, 0, 0, 0);
    }

    method Best() returns (n: nat)
      modifies this
      ensures n == answers.best(old(asked).best) && asked == old(asked).(best := old(asked).best + 1)
    {
      n := answers.best(asked.best);
      asked := asked.(best := asked.best + 1);
    }

    method Finalized() returns (n: nat)
      modifies this
      ensures n == answers.finalized(old(asked).finalized)
      ensures asked == old(asked).(finalized := old(asked).finalized + 1)
    {
      n := answers.finalized(asked.finalized);
      asked := asked.(finalized := asked.finalized + 1);
    }

    method NextBlock() returns (xts: set<TxId>)
      modifies this
      ensures xts == answers.block(old(asked).block) && asked == old(asked).(block := old(asked).block + 1)
    {
      xts := answers.block(asked.block);
      asked := asked.(block := asked.block + 1);
    }

    method Pool() returns (pool: set<TxId>)
      modifies this
      ensures pool == answers.pool(old(asked).pool) && asked == old(asked).(pool := old(asked).pool + 1)
    {
      pool := answers.pool(asked.pool);
      asked := asked.(pool := asked.pool + 1);
    }

    method NextNonce() returns (nonce: nat)
      modifies this
      ensures nonce == answers.nonce(old(asked).nonce) && asked == old(asked).(nonce := old(asked).nonce + 1)
    {
      nonce := answers.nonce(asked.nonce);
      asked := asked.(nonce := asked.nonce + 1);
    }

    method Submit() returns (reply: Reply)
      modifies this
      ensures reply == answers.reply(old(asked).reply) && asked == old(asked).(reply := old(asked).reply + 1)
    {
      reply := answers.reply(asked.reply);
      asked := asked.(reply := asked.reply + 1);
    }

    method StillNeeded() returns (needed: set<Stash>)
      modifies this
      ensures needed == answers.needed(old(asked).needed) && asked == old(asked).(needed := old(asked).needed + 1)
    {
      needed := answers.needed(asked.needed);
      asked := asked.(needed := asked.needed + 1);
    }
  }

  // ------------------------------------------------------------------ which stashes have rows

  /** The stashes with a row of this pass that is not just pending. */
  ghost function Done(rows: seq<Row>, pass: Pass): set<Stash> {
    if rows == [] then {}
    else
      var r := rows[|rows| - 1];
      Done(rows[..|rows| - 1], pass) + if r.pass == pass && r.status != Pending then {r.stash} else {}
  }

  lemma {:induction false} DoneConcat(a: seq<Row>, b: seq<Row>, pass: Pass)
    ensures Done(a + b, pass) == Done(a, pass) + Done(b, pass)
  {
    if b == [] {
      assert a + b == a;
    } else {
      DoneConcat(a, b[..|b| - 1], pass);
      assert (a + b)[..|a + b| - 1] == a + b[..|b| - 1];
    }
  }

  lemma {:induction false} DoneRow(rows: seq<Row>, i: nat, pass: Pass)
    requires i < |rows| && rows[i].pass == pass && rows[i].status != Pending
    ensures rows[i].stash in Done(rows, pass)
  {
    if i < |rows| - 1 {
      DoneRow(rows[..|rows| - 1], i, pass);
    }
  }

  lemma DoneOne(rows: seq<Row>, r: Row, pass: Pass)
    ensures Done(rows + [r], pass) == Done(rows, pass) + if r.pass == pass && r.status != Pending then {r.stash} else {}
  {
    assert (rows + [r])[..|rows|] == rows;
  }

  /** A row with a hash is about the call of that hash, and no row is pending before the script stops. */
  ghost predicate Running(rows: seq<Row>) {
    forall i | 0 <= i < |rows| ::
      && rows[i].status != Pending
      && (rows[i].hash.Some? ==> rows[i].stash == rows[i].hash.value.stash && rows[i].pass == rows[i].hash.value.pass)
  }

  // ------------------------------------------------------------------ small computations

  /** The node has the call, by this submission or an earlier one. */
  predicate Taken(reply: Reply) {
    reply == Accepted || reply == AlreadyInPool
  }

  function IdsOf(txs: seq<Tx>): set<TxId> {
    set i | 0 <= i < |txs| :: txs[i].id
  }

  function Filter(stashes: seq<Stash>, needed: set<Stash>): seq<Stash> {
    if stashes == [] then []
    else
      Filter(stashes[..|stashes| - 1], needed) + if stashes[|stashes| - 1] in needed then [stashes[|stashes| - 1]]
          else []
  }

  lemma {:induction false} FilterIn(stashes: seq<Stash>, needed: set<Stash>, st: Stash)
    ensures st in Filter(stashes, needed) <==> st in stashes && st in needed
    ensures |Filter(stashes, needed)| <= |stashes|
  {
    if stashes != [] {
      var rest := stashes[..|stashes| - 1];
      FilterIn(rest, needed, st);
      assert st in stashes <==> st in rest || st == stashes[|stashes| - 1];
    }
  }

  lemma OneNeeded(st: Stash, needed: set<Stash>)
    ensures Filter([st], needed) == [] <==> st !in needed
  {
    assert [st][..0] == [];
  }

  function StillOpen(txs: seq<Tx>, open: Open): seq<Tx> {
    if txs == [] then []
    else StillOpen(txs[..|txs| - 1], open) + if txs[|txs| - 1].id in open then [txs[|txs| - 1]] else []
  }

  lemma {:induction false} StillOpenIn(txs: seq<Tx>, open: Open, t: Tx)
    ensures t in StillOpen(txs, open) <==> t in txs && t.id in open
  {
    if txs != [] {
      StillOpenIn(txs[..|txs| - 1], open, t);
      assert t in txs <==> t in txs[..|txs| - 1] || t == txs[|txs| - 1];
    }
  }

  function LastBirth(txs: seq<Tx>): nat {
    if txs == [] then 0
    else
      var before := LastBirth(txs[..|txs| - 1]);
      if txs[|txs| - 1].id.birth > before then txs[|txs| - 1].id.birth else before
  }

  function PendingRow(t: Tx): Row {
    Row(t.id.stash, t.id.pass, Pending, Some(t.id))
  }

  /** The calls of a list in the order of their nonces, each once, and no others than these. */
  ghost predicate ListsByNonce(left: seq<Tx>, open: Open) {
    && (forall i | 0 <= i < |left| :: left[i].id in open && left[i] == open[left[i].id])
    && (forall h | h in open :: exists i | 0 <= i < |left| :: left[i].id == h)
    && (forall i, j | 0 <= i < j < |left| :: left[i].id != left[j].id && left[i].id.nonce <= left[j].id.nonce)
  }

  predicate IsLeast(open: Open, h: TxId) {
    h in open && forall g | g in open :: h.nonce <= g.nonce
  }

  lemma {:induction false} LeastNonce(open: Open)
    requires open != map[]
    ensures exists h | h in open :: IsLeast(open, h)
    decreases |open|
  {
    var x :| x in open;
    var rest := open - {x};
    assert forall g | g in open :: g in rest || g == x;
    if rest == map[] {
      assert IsLeast(open, x);
    } else {
      LeastNonce(rest);
      var h :| h in rest && IsLeast(rest, h);
      assert IsLeast(open, if h.nonce <= x.nonce then h else x);
    }
  }

  lemma ListsMore(left: seq<Tx>, part: Open, tx: Tx)
    requires ListsByNonce(left, part) && tx.id !in part && forall h | h in part :: h.nonce <= tx.id.nonce
    ensures ListsByNonce(left + [tx], part[tx.id := tx])
  {
    var more := left + [tx];
    assert forall i | 0 <= i < |left| :: more[i] == left[i];
    assert more[|left|] == tx;
  }

  /** The calls taken so far and the rest, with higher nonces. */
  ghost predicate Split(open: Open, part: Open, rest: Open) {
    && (forall h :: h in open <==> h in part || h in rest)
    && (forall h | h in part :: h !in rest && part[h] == open[h])
    && (forall h | h in rest :: rest[h] == open[h])
    && (forall g, h | g in part && h in rest :: g.nonce <= h.nonce)
  }

  lemma SplitMore(open: Open, part: Open, rest: Open, h: TxId)
    requires Split(open, part, rest) && IsLeast(rest, h)
    ensures Split(open, part[h := rest[h]], rest - {h})
  {
  }

  /** Calls sorted by nonce. */
  method ByNonce(open: Open) returns (left: seq<Tx>)
    requires Keyed(open)
    ensures ListsByNonce(left, open)
  {
    left := [];
    var rest := open;
    ghost var part: Open := map[];
    while rest != map[]
      invariant ListsByNonce(left, part) && Split(open, part, rest)
      decreases |rest|
    {
      hide ListsByNonce;
      LeastNonce(rest);
      var h :| h in rest && IsLeast(rest, h);
      SplitMore(open, part, rest, h);
      ListsMore(left, part, rest[h]);
      hide Split;
      left := left + [rest[h]];
      part := part[h := rest[h]];
      rest := rest - {h};
    }
    assert part == open;
  }

  ghost predicate AllTaken(answers: Answers, first: nat, end: nat) {
    forall k: nat | first <= k < end :: Taken(answers.reply(k))
  }

  lemma TakenMore(answers: Answers, first: nat, end: nat)
    requires AllTaken(answers, first, end) && Taken(answers.reply(end))
    ensures AllTaken(answers, first, end + 1)
  {
  }

  /** The calls in flight, and the calls of the pass, once these are sent. */
  ghost predicate InFlight(open0: Open, sent0: set<TxId>, txs: seq<Tx>, open: Open, sent: set<TxId>) {
    open.Keys == open0.Keys + IdsOf(txs) && sent == sent0 + IdsOf(txs)
  }

  lemma InFlightMore(open0: Open, sent0: set<TxId>, txs: seq<Tx>, open: Open, sent: set<TxId>, tx: Tx)
    requires InFlight(open0, sent0, txs, open, sent)
    ensures InFlight(open0, sent0, txs + [tx], open[tx.id := tx], sent + {tx.id})
  {
    IdsMore(txs, tx);
  }

  lemma NoneSent(stashes: seq<Stash>, first: nat, birth: nat, pass: Pass, attempt: nat, wave: nat, answers: Answers,
                 k: nat)
    ensures Calls([], stashes, first, birth, pass, attempt, wave) && AllTaken(answers, k, k)
    ensures forall open, sent :: InFlight(open, sent, [], open, sent)
  {
  }

  // ------------------------------------------------------------------ what waiting means

  /** The calls seen in the blocks that these queries asked for. */
  ghost function Seen(answers: Answers, first: nat, end: nat): set<TxId> {
    if end <= first then {} else Seen(answers, first, end - 1) + answers.block(end - 1)
  }

  /** Every call was seen in a block of the best chain, or they have expired, or those not seen are not in the pool. */
  ghost predicate Resolved(answers: Answers, before: Asked, after: Asked, txs: seq<Tx>, from: nat) {
    var missing := IdsOf(txs) - Seen(answers, before.block, after.block);
    || missing == {}
    || from + (after.block - before.block) > LastBirth(txs) + MORTAL_PERIOD
    || (after.pool > before.pool && missing * answers.pool(after.pool - 1) == {})
  }

  /** The number of the last block with a call not seen before, or the first number if there is none. */
  ghost predicate IsTop(answers: Answers, first: nat, end: nat, ids: set<TxId>, from: nat, top: nat) {
    && (forall k: nat | first <= k < end && NewIn(answers, first, k, ids) :: from + (k - first) <= top)
    && (top == from || exists k: nat | first <= k < end :: NewIn(answers, first, k, ids) && top == from + (k - first))
  }

  ghost predicate NewIn(answers: Answers, first: nat, k: nat, ids: set<TxId>) {
    (ids - Seen(answers, first, k)) * answers.block(k) != {}
  }

  lemma NothingSeen(answers: Answers, first: nat, ids: set<TxId>)
    ensures ids - Seen(answers, first, first) == ids && forall from :: IsTop(answers, first, first, ids, from, from)
  {
  }

  lemma SeenMore(answers: Answers, first: nat, end: nat, ids: set<TxId>, from: nat, top: nat)
    requires first <= end && IsTop(answers, first, end, ids, from, top)
    ensures ids - Seen(answers, first, end + 1) == ids - Seen(answers, first, end) - answers.block(end)
    ensures IsTop(answers, first, end + 1, ids, from,
                  if NewIn(answers, first, end, ids) then from + (end - first) else top)
  {
  }

  class Sweep {
    const blocks: nat -> seq<TxId>  // the finalised blocks
    const succeeds: (nat, nat) -> bool  // whether the call at an index of a finalised block succeeded
    const node: Node
    var rows: seq<Row>
    var open: Open
    var finScanned: Option<nat>
    var pass: Pass
    var wave: nat
    var now: nat
    ghost var sent: set<TxId>  // the calls of this pass
    ghost var start: nat  // where the scan of this pass begins
    ghost var scanned: seq<nat>  // the finalised blocks searched in this pass
    ghost var first: nat  // where the rows of this pass begin

    /** Calls in flight are calls of this pass; the stash of a call no longer in flight has a row; every block is
        scanned once, and each row about a call says how it fared there, no call found getting two. */
    ghost predicate Valid()
      reads this
    {
      && Keyed(open) && Running(rows)
      && (forall h | h in open :: h in sent)
      && (forall h | h in sent :: h.pass == pass && (h in open || h.stash in Done(rows, pass)))
      && finScanned.Some? && start <= finScanned.value && scanned == Between(start, finScanned.value)
      && first <= |rows| && OneRowEach(rows, first, blocks, succeeds, start, finScanned.value)
    }

    /** Every call of this pass has a row of its own, or its stash has one that is not just pending. */
    ghost predicate AllListed()
      reads this
    {
      forall h | h in sent :: HasRowFor(rows, h) || h.stash in Done(rows, pass)
    }

    constructor (blocks: nat -> seq<TxId>, succeeds: (nat, nat) -> bool, node: Node)
      ensures rows == [] && open == map[] && finScanned.None? && pass == Currency && sent == {}
    {
      this.blocks, this.succeeds, this.node := blocks, succeeds, node;
      rows, open, finScanned, pass, wave, now := [], map[], None, Currency, 0, 0;
      sent, start, scanned, first := {}, 0, [], 0;
    }

    method Sleep(seconds: nat)
      modifies `now
      ensures now >= old(now) + seconds
    {
      var more: nat :| 0 <= more;
      now := now + seconds + more;
    }

    /** Submits a call; it is in flight if the node has it. */
    method SendOne(tx: Tx) returns (reply: Reply)
      requires Valid() && tx.id.pass == pass
      modifies `open, `sent, node
      ensures Valid() && reply == node.answers.reply(old(node.asked).reply)
      ensures node.asked == old(node.asked).(reply := old(node.asked).reply + 1)
      ensures Taken(reply) ==> open == old(open)[tx.id := tx] && sent == old(sent) + {tx.id}
      ensures !Taken(reply) ==> open == old(open) && sent == old(sent)
    {
      hide Done, Running, Between, OneRowEach;
      reply := node.Submit();
      if Taken(reply) {
        open := open[tx.id := tx];
        sent := sent + {tx.id};
      }
    }

    /** Sign one call per stash with consecutive nonces and submit them, until the pool rejects one. */
    method Send(stashes: seq<Stash>, attempt: nat)
      returns (txs: seq<Tx>, rejected: bool, outcome: Outcome, ghost first: nat, ghost birth: nat)
      requires Valid()
      modifies `open, `sent, node
      ensures Valid()
      ensures first == node.answers.nonce(old(node.asked).nonce)
              && birth == node.answers.finalized(old(node.asked).finalized)
      ensures Calls(txs, stashes, first, birth, pass, attempt, wave)
      ensures InFlight(old(open), old(sent), txs, open, sent)
      ensures AllTaken(node.answers, old(node.asked).reply, old(node.asked).reply + |txs|)
      ensures |txs| < |stashes| ==> !Taken(node.answers.reply(old(node.asked).reply + |txs|))
      ensures rejected <==> |txs| < |stashes| && node.answers.reply(old(node.asked).reply + |txs|) == Rejected
      ensures outcome == if |txs| < |stashes| && !rejected then Mismatch else Going
    {
      hide Sweep.Valid;
      var era := node.Finalized();
      var nonce := node.NextNonce();
      birth, first := era, nonce;
      txs, rejected := [], false;
      NoneSent(stashes, first, birth, pass, attempt, wave, node.answers, node.asked.reply);
      hide IdsOf, Calls, AllTaken, InFlight;
      for k := 0 to |stashes|
        invariant |txs| == k && nonce == first + k && Valid() && node.asked.reply == old(node.asked).reply + k
        invariant Calls(txs, stashes, first, birth, pass, attempt, wave)
        invariant InFlight(old(open), old(sent), txs, open, sent)
        invariant AllTaken(node.answers, old(node.asked).reply, node.asked.reply)
      {
        var tx := Tx(TxId(stashes[k], nonce, era, pass), attempt, wave);
        ghost var before, flying := open, sent;
        var reply := SendOne(tx);
        if reply == OtherHash {
          return txs, false, Mismatch, first, birth;
        }
        if reply == Rejected {
          return txs, true, Going, first, birth;
        }
        InFlightMore(old(open), old(sent), txs, before, flying, tx);
        CallsMore(txs, stashes, first, birth, pass, attempt, wave);
        TakenMore(node.answers, old(node.asked).reply, node.asked.reply - 1);
        txs := txs + [tx];
        nonce := nonce + 1;
      }
      return txs, false, Going, first, birth;
    }

    method ScanBlock(m: nat, xts: seq<TxId>) returns (items: seq<Hit>)
      requires Keyed(open)
      modifies `open
      ensures items == HitsIn(old(open), m, xts) && open == old(open) - Found(items)
    {
      items := [];
      for i := 0 to |xts|
        invariant items == HitsIn(old(open), m, xts[..i]) && open == old(open) - Found(items)
      {
        ghost var next := xts[..i + 1];
        assert next[..|next| - 1] == xts[..i] && next[|next| - 1] == xts[i];
        var h := xts[i];
        if h in open {
          FoundMore(items, Hit(m, i, open[h]));
          items := items + [Hit(m, i, open[h])];
          open := open - {h};
        }
      }
      assert xts[..|xts|] == xts;
    }

    method Record(found: seq<Hit>)
      modifies `rows
      ensures rows == old(rows) + RowsOf(succeeds, found)
    {
      for i := 0 to |found|
        invariant rows == old(rows) + RowsOf(succeeds, found[..i])
      {
        ghost var next := found[..i + 1];
        assert next[..|next| - 1] == found[..i] && next[|next| - 1] == found[i];
        ConcatAssociates(old(rows), RowsOf(succeeds, found[..i]), [RowOf(succeeds, found[i])]);
        rows := rows + [RowOf(succeeds, found[i])];
      }
      assert found[..|found|] == found;
    }

    method SearchBlocks(from: nat, fin: nat) returns (found: seq<Hit>)
      requires Keyed(open) && start <= from && scanned == Between(start, from)
      modifies `open, `scanned
      ensures found == HitsTo(blocks, old(open), from, fin) && open == old(open) - Found(found)
      ensures scanned == Between(start, if fin > from then fin else from)
    {
      found := [];
      var m := from;
      while m < fin
        invariant from <= m && (m == from || m <= fin)
        invariant found == HitsTo(blocks, old(open), from, m) && open == old(open) - Found(found)
        invariant scanned == Between(start, m)
      {
        hide Found;
        m := m + 1;
        var items := ScanBlock(m, blocks(m));
        FoundBoth(found, items);
        found := found + items;
        scanned := scanned + [m];
      }
    }

    /** Search the blocks finalised since the last scan, then record what was found. */
    method ScanFinalized() returns (ghost hits: seq<Hit>, fin: nat)
      requires Valid()
      modifies `rows, `open, `finScanned, `scanned, node
      ensures Valid() && fin == node.answers.finalized(old(node.asked).finalized)
      ensures node.asked == old(node.asked).(finalized := old(node.asked).finalized + 1)
      ensures hits == HitsTo(blocks, old(open), old(finScanned).value, fin)
      ensures finScanned == Some(if fin > old(finScanned).value then fin else old(finScanned).value)
      ensures rows == old(rows) + RowsOf(succeeds, hits) && open == old(open) - Found(hits)
      ensures AllTell(rows[|old(rows)|..], blocks, succeeds, old(finScanned).value, fin)
      ensures Done(old(rows), pass) <= Done(rows, pass)
    {
      hide Done, Running, Between, OneRowEach, HitsTo, RowsOf, AllTell;
      fin := node.Finalized();
      var found := SearchBlocks(finScanned.value, fin);
      RecordedDone(blocks, succeeds, old(open), finScanned.value, fin, rows, pass);
      OneRowEachMore(rows, first, blocks, succeeds, old(open), start, finScanned.value, fin);
      ScanTells(blocks, succeeds, old(open), finScanned.value, fin);
      hits := found;
      finScanned := Some(if fin > finScanned.value then fin else finScanned.value);
      Record(found);
      assert rows[|old(rows)|..] == RowsOf(succeeds, hits);
    }

    /** Record what is finalised by now, write every call still open as pending, in nonce order, and stop. */
    method StopAtDeadline() returns (ghost hits: seq<Hit>, ghost left: seq<Tx>)
      requires Valid()
      modifies `rows, `open, `finScanned, `scanned, node
      ensures rows == old(rows) + RowsOf(succeeds, hits) + PendingRows(left)
      ensures open == old(open) - Found(hits) && ListsByNonce(left, open)
      ensures |left| <= |rows| && forall i | 0 <= i < |left| ::
                rows[|rows| - |left| + i] == Row(left[i].id.stash, left[i].id.pass, Pending, Some(left[i].id))
      ensures AllListed()
    {
      hide Done, Running, Between, OneRowEach, HitsTo, RowsOf, ListsByNonce, Found;
      var fin;
      hits, fin := ScanFinalized();
      ghost var before := rows;
      var calls := ByNonce(open);
      for i := 0 to |calls|
        modifies `rows
        invariant rows == before + PendingRows(calls[..i])
      {
        ghost var next := calls[..i + 1];
        assert next[..|next| - 1] == calls[..i] && next[|next| - 1] == calls[i];
        ConcatAssociates(before, PendingRows(calls[..i]), [PendingRow(calls[i])]);
        rows := rows + [PendingRow(calls[i])];
      }
      assert calls[..|calls|] == calls;
      left := calls;
      PendingRowsAre(left);
      forall h | h in sent
        ensures HasRowFor(rows, h) || h.stash in Done(rows, pass)
      {
        PendingListed(before, left, open, h);
        DoneConcat(before, PendingRows(left), pass);
      }
    }

    /** Searches the blocks of the best chain up to its end for the calls not seen yet. */
    method FollowBest(pending0: set<TxId>, n0: nat, top0: nat, idle0: nat, best: nat, ghost ids: set<TxId>,
                      ghost first: nat,
                      ghost from: nat)
      returns (pending: set<TxId>, n: nat, top: nat, idle: nat)
      requires first <= node.asked.block && n0 == from + (node.asked.block - first)
      requires pending0 == ids - Seen(node.answers, first, node.asked.block)
      requires IsTop(node.answers, first, node.asked.block, ids, from, top0)
      modifies node
      ensures node.asked == old(node.asked).(block := node.asked.block)
      ensures first <= node.asked.block && n == from + (node.asked.block - first)
      ensures pending == ids - Seen(node.answers, first, node.asked.block)
      ensures IsTop(node.answers, first, node.asked.block, ids, from, top)
      ensures pending == {} || n > best
    {
      hide Seen, IsTop;
      pending, n, top, idle := pending0, n0, top0, idle0;
      while n <= best && pending != {}
        invariant first <= node.asked.block && n == from + (node.asked.block - first)
        invariant node.asked == old(node.asked).(block := node.asked.block)
        invariant pending == ids - Seen(node.answers, first, node.asked.block)
        invariant IsTop(node.answers, first, node.asked.block, ids, from, top)
        decreases best - n
      {
        SeenMore(node.answers, first, node.asked.block, ids, from, top);
        var xts := node.NextBlock();
        var hit := pending * xts;
        assert pending - hit == pending - xts;
        if hit != {} {
          pending := pending - hit;
          top, idle := n, 0;
        } else {
          idle := idle + 1;
        }
        n := n + 1;
      }
    }

    /** Waits while some call is in no block of the best chain; gives up on calls that were dropped or have expired.
        Gives the number of the last block in which a missing call was seen. */
    method WaitInclusion(txs: seq<Tx>, from: nat, deadline: nat) returns (top: nat, outcome: Outcome)
      requires Valid() && txs != []
      modifies `rows, `open, `finScanned, `scanned, `now, node
      ensures outcome == Going || outcome == Deadline
      ensures outcome.Going? ==> Valid() && unchanged(`rows, `open, `finScanned, `scanned)
      ensures outcome.Going? ==> Resolved(node.answers, old(node.asked), node.asked, txs, from)
      ensures outcome.Going? ==> IsTop(node.answers, old(node.asked).block, node.asked.block, IdsOf(txs), from, top)
      ensures outcome.Deadline? ==> AllListed() && deadline <= now
    {
      hide Done, Running, Between, OneRowEach, IdsOf;
      var pending := IdsOf(txs);
      var expire := LastBirth(txs) + MORTAL_PERIOD;
      var n: nat, idle: nat := from, 0;
      top := from;
      NothingSeen(node.answers, node.asked.block, IdsOf(txs));
      while pending != {}
        invariant Valid() && unchanged(`rows, `open, `finScanned, `scanned)
        invariant n == from + (node.asked.block - old(node.asked).block) && old(node.asked).block <= node.asked.block
        invariant node.asked.pool >= old(node.asked).pool
        invariant pending == IdsOf(txs) - Seen(node.answers, old(node.asked).block, node.asked.block)
        invariant IsTop(node.answers, old(node.asked).block, node.asked.block, IdsOf(txs), from, top)
        decreases deadline - now
      {
        hide Seen, IsTop;
        var best := node.Best();
        pending, n, top, idle := FollowBest(pending, n, top, idle, best, IdsOf(txs), old(node.asked).block, from);
        if pending == {} || n > expire {
          break;
        }
        if idle >= STALL_BLOCKS {
          var pool := node.Pool();
          if pending * pool == {} {
            break;
          }
          idle := 0;
        }
        if now >= deadline {
          var _, _ := StopAtDeadline();
          return top, Deadline;
        }
        Sleep(1);
      }
      return top, Going;
    }

    method WaitFinality(n: nat, deadline: nat) returns (outcome: Outcome)
      requires Valid()
      modifies `rows, `open, `finScanned, `scanned, `now, node
      ensures outcome == Going || outcome == Deadline
      ensures outcome.Going? ==> Valid() && unchanged(`rows, `open, `finScanned, `scanned)
      ensures outcome.Going? ==> node.asked.finalized > old(node.asked).finalized
                                 && node.answers.finalized(node.asked.finalized - 1) >= n
                                 && node.asked == old(node.asked).(finalized := node.asked.finalized)
      ensures outcome.Deadline? ==> AllListed() && deadline <= now
    {
      hide Done, Running, Between, OneRowEach;
      while true
        invariant Valid() && unchanged(`rows, `open, `finScanned, `scanned)
        invariant node.asked.finalized >= old(node.asked).finalized
        invariant node.asked == old(node.asked).(finalized := node.asked.finalized)
        decreases deadline - now
      {
        var fin := node.Finalized();
        if fin >= n {
          return Going;
        }
        if now >= deadline {
          var _, _ := StopAtDeadline();
          return Deadline;
        }
        Sleep(2);
      }
    }

    /** Inclusion, then finality, then results; the calls not found in a finalised block are returned. */
    method Settle(txs: seq<Tx>, from: nat) returns (dropped: seq<Tx>, outcome: Outcome)
      requires Valid() && txs != []
      modifies `rows, `open, `finScanned, `scanned, `now, node
      ensures outcome == Going || outcome == Deadline
      ensures outcome.Going? ==>
                Valid() && dropped == StillOpen(txs, open) && open.Keys <= old(open).Keys && old(rows) <= rows
      ensures outcome.Deadline? ==> AllListed() && now >= old(now) + SETTLE_TIMEOUT
    {
      hide Done, Running, Between, OneRowEach, HitsTo, RowsOf, Found;
      dropped := [];
      var deadline := now + SETTLE_TIMEOUT;
      var top;
      top, outcome := WaitInclusion(txs, from, deadline);
      if outcome.Deadline? {
        return;
      }
      outcome := WaitFinality(top, deadline);
      if outcome.Deadline? {
        return;
      }
      var _, _ := ScanFinalized();
      for i := 0 to |txs|
        invariant dropped == StillOpen(txs[..i], open)
      {
        ghost var next := txs[..i + 1];
        assert next[..|next| - 1] == txs[..i] && next[|next| - 1] == txs[i];
        if txs[i].id in open {
          dropped := dropped + [txs[i]];
        }
      }
      assert txs[..|txs|] == txs;
    }

    /** The stashes that still need the call, as the chain says. */
    method StillNeeded(stashes: seq<Stash>) returns (live: seq<Stash>, ghost needed: set<Stash>)
      modifies node
      ensures needed == node.answers.needed(old(node.asked).needed) && live == Filter(stashes, needed)
    {
      var answer := node.StillNeeded();
      needed := answer;
      live := Filter(stashes, answer);
    }

    method Skip(st: Stash)
      requires Valid()
      modifies `rows
      ensures Valid() && Done(rows, pass) == Done(old(rows), pass) + {st}
              && rows == old(rows) + [Row(st, pass, Skipped, None)]
    {
      hide Between, OneRowEach;
      DoneOne(rows, Row(st, pass, Skipped, None), pass);
      OneRowEachBut(rows, first, blocks, succeeds, start, finScanned.value, Row(st, pass, Skipped, None));
      hide Done;
      rows := rows + [Row(st, pass, Skipped, None)];
    }

    /** The row of a call that was dropped too often. */
    method GiveUp(st: Stash)
      requires Valid()
      modifies `rows
      ensures Valid() && Done(rows, pass) == Done(old(rows), pass) + {st}
              && rows == old(rows) + [Row(st, pass, Error, None)]
    {
      hide Between, OneRowEach;
      DoneOne(rows, Row(st, pass, Error, None), pass);
      OneRowEachBut(rows, first, blocks, succeeds, start, finScanned.value, Row(st, pass, Error, None));
      hide Done;
      rows := rows + [Row(st, pass, Error, None)];
    }

    /** Whether a dropped call needs no further attempt: one of its calls landed late, its stash is done, or it was
        sent often enough. */
    method NoFurther(st: Stash, attempt: nat, mine: set<TxId>)
      returns (done: bool, outcome: Outcome, ghost found: seq<Row>)
      requires Valid() && mine <= sent && forall h | h in mine :: h.stash == st
      modifies `rows, `open, `finScanned, `scanned, `now, node
      ensures outcome == Going || outcome == Deadline
      ensures outcome.Going? ==> Valid() && old(rows) <= rows && open.Keys <= old(open).Keys
                                 && (if done then st in Done(rows, pass) else attempt < MAX_ATTEMPTS)
      ensures outcome.Going? ==> old(rows) <= found
      ensures outcome.Going? ==>
                var landed := Landed(found, mine);
                var skipped := st !in node.answers.needed(old(node.asked).needed);
                && (done <==> landed || skipped || attempt >= MAX_ATTEMPTS)
                && rows == found + (if landed then [] else if skipped then [Row(st, pass, Skipped, None)]
                                    else if attempt >= MAX_ATTEMPTS then [Row(st, pass, Error, None)] else [])
      ensures outcome.Deadline? ==> AllListed()
    {
      hide Done, Running, Between, OneRowEach, HitsTo, RowsOf, Found, Filter, Keyed, Landed, AllTell;
      var best := node.Best();
      found := rows;
      outcome := WaitFinality(best, now + SETTLE_TIMEOUT);
      if outcome.Deadline? {
        return true, outcome, found;
      }
      var _, _ := ScanFinalized();
      found := rows;
      ConcatNothing(found);
      var landed := HasRow(rows, mine);
      if landed {
        LandedDone(rows, mine, st, pass);
        return true, Going, found;
      }
      var live, needed := StillNeeded([st]);
      OneNeeded(st, needed);
      if live == [] {
        Skip(st);
        return true, Going, found;
      }
      if attempt >= MAX_ATTEMPTS {
        GiveUp(st);
        return true, Going, found;
      }
      return false, Going, found;
    }

    /** One more attempt, alone; None if the pool rejects it. */
    method SendAgain(st: Stash, attempt: nat) returns (id: Option<TxId>, outcome: Outcome)
      requires Valid()
      modifies `rows, `open, `finScanned, `scanned, `now, `sent, node
      ensures outcome == Going || outcome == Deadline || outcome == Mismatch
      ensures outcome.Going? ==> Valid() && old(rows) <= rows
                                 && (match id
                                     case None => open.Keys <= old(open).Keys && sent == old(sent)
                                     case Some(h) =>
                                       h.stash == st && sent == old(sent) + {h} && open.Keys <= old(open).Keys + {h})
      ensures outcome.Deadline? ==> AllListed()
    {
      hide Done, Running, Between, OneRowEach, Keyed;
      id := None;
      var from := node.Best();
      var txs, rejected, signed, _, _ := Send([st], attempt);
      outcome := signed;
      if outcome.Mismatch? {
        return;
      }
      if rejected {
        assert txs == [];
        Sleep(12);
        return;
      }
      SingleCall(txs);
      id := Some(txs[0].id);
      var _, settled := Settle(txs, from);
      outcome := settled;
    }

    /** Send a dropped call again, alone, until it or an earlier one lands, is not needed, or has been sent often
        enough. Whatever happens, its calls are no longer open afterwards. */
    method Resubmit(t: Tx) returns (outcome: Outcome)
      requires Valid() && t.id in sent
      modifies `rows, `open, `finScanned, `scanned, `now, `sent, node
      ensures outcome == Going || outcome == Deadline || outcome == Mismatch
      ensures outcome.Going? ==> Valid() && t.id.stash in Done(rows, pass) && old(rows) <= rows && old(sent) <= sent
                                 && t.id !in open && open.Keys <= old(open).Keys
      ensures outcome.Deadline? ==> AllListed()
    {
      hide Done, Running, Between, OneRowEach;
      var st, attempt, mine := t.id.stash, t.attempt, {t.id};
      while true
        invariant Valid() && t.id in mine && mine <= sent && old(rows) <= rows && old(sent) <= sent
        invariant forall h | h in mine :: h.stash == st
        invariant open.Keys <= old(open).Keys + mine
        decreases MAX_ATTEMPTS - attempt
      {
        hide Keyed;
        var done, waited, _ := NoFurther(st, attempt, mine);
        outcome := waited;
        if done || outcome.Deadline? {
          break;
        }
        attempt := attempt + 1;
        var id, sending := SendAgain(st, attempt);
        outcome := sending;
        if !outcome.Going? {
          break;
        }
        if id.Some? {
          mine := mine + {id.value};
        }
      }
      open := open - mine;
    }

    method SkipDone(stashes: seq<Stash>, live: seq<Stash>)
      requires Valid()
      modifies `rows
      ensures Valid() && old(rows) <= rows && forall st | st in stashes :: st in live || st in Done(rows, pass)
    {
      hide Done, Running, Between, OneRowEach, Keyed;
      for i := 0 to |stashes|
        invariant Valid() && old(rows) <= rows
        invariant forall k | 0 <= k < i :: stashes[k] in live || stashes[k] in Done(rows, pass)
      {
        if stashes[i] !in live {
          Skip(stashes[i]);
        }
      }
    }

    /** Resubmit the dropped calls of a wave, in nonce order: that is how they were sent. */
    method ResubmitAll(dropped: seq<Tx>) returns (outcome: Outcome)
      requires Valid() && open.Keys <= IdsOf(dropped) && IdsOf(dropped) <= sent
      modifies `rows, `open, `finScanned, `scanned, `now, `sent, node
      ensures outcome == Going || outcome == Deadline || outcome == Mismatch
      ensures outcome.Going? ==> Valid() && open == map[] && old(rows) <= rows && old(sent) <= sent
      ensures outcome.Deadline? ==> AllListed()
    {
      hide Done, Running, Between, OneRowEach, Keyed;
      for i := 0 to |dropped|
        invariant Valid() && old(rows) <= rows && old(sent) <= sent
        invariant forall h | h in open :: exists k | i <= k < |dropped| :: dropped[k].id == h
      {
        outcome := Resubmit(dropped[i]);
        if !outcome.Going? {
          return;
        }
      }
      outcome := Going;
    }

    /** Follow the calls of a wave to the end: when this returns normally none is open. */
    method SettleAll(txs: seq<Tx>, from: nat) returns (outcome: Outcome)
      requires Valid() && open.Keys <= IdsOf(txs) && IdsOf(txs) <= sent && txs != []
      modifies `rows, `open, `finScanned, `scanned, `now, `sent, node
      ensures outcome == Going || outcome == Deadline || outcome == Mismatch
      ensures outcome.Going? ==> Valid() && open == map[] && old(rows) <= rows && old(sent) <= sent
      ensures outcome.Deadline? ==> AllListed()
    {
      hide Done, Running, Between, OneRowEach, Keyed, IdsOf;
      var dropped, settled := Settle(txs, from);
      if settled.Deadline? {
        return Deadline;
      }
      DroppedAreOpen(txs, dropped, open, sent);
      outcome := ResubmitAll(dropped);
    }

    /** One wave. The stashes whose calls were not sent come back. */
    method RunWave(stashes: seq<Stash>)
      returns (left: seq<Stash>, outcome: Outcome, ghost calls: seq<Tx>, ghost since: nat)
      requires Valid() && open == map[] && stashes != []
      modifies `rows, `open, `finScanned, `scanned, `now, `sent, node
      ensures !outcome.Deadline? && !outcome.Mismatch? ==> Valid() && open == map[] && old(rows) <= rows
      ensures outcome.Going? ==> |left| < |stashes| && forall st | st in stashes :: st in left || st in Done(rows, pass)
      ensures outcome.Going? || outcome.AllFailed? ==> (outcome.AllFailed? <==> WaveFailed(rows, since, calls))
      ensures outcome.Deadline? ==> AllListed()
    {
      hide Done, Running, Between, OneRowEach, Keyed, WaveFailed;
      calls, since := [], |rows|;
      var live, needed := StillNeeded(stashes);
      FilterSize(stashes, needed);
      hide Filter;
      SkipDone(stashes, live);
      left := [];
      if live == [] {
        NoCallFailed(rows, since);
        outcome := Going;
        return;
      }
      var from := node.Best();
      ghost var before := rows;
      var txs, rejected, signed, first, birth := Send(live, 1);
      if signed.Mismatch? {
        outcome := Mismatch;
        return;
      }
      if txs == [] {
        assert open == map[];
        outcome := Refused;
        return;
      }
      calls, since := txs, |rows|;
      left := live[|txs|..];
      var nBefore := |rows|;
      outcome := SettleAll(txs, from);
      if !outcome.Going? {
        return;
      }
      WaveDone(stashes, live, txs, first, birth, pass, wave, before, rows, sent);
      var failed := EveryCallFailed(rows, nBefore, txs);
      outcome := if failed then AllFailed else Going;
    }

    /** A whole pass: when it ends without stopping, every target has a row and nothing is in flight. */
    method Run(targets: seq<Stash>, waveSize: nat) returns (outcome: Outcome)
      requires open == map[] && Running(rows) && waveSize >= 1
      modifies this, node
      ensures pass == old(pass)
      ensures outcome.Going? ==> forall st | st in targets :: st in Done(rows, pass)
      ensures !outcome.Deadline? && !outcome.Mismatch? ==> Valid() && open == map[] && old(rows) <= rows
      ensures outcome.Deadline? ==> AllListed()
    {
      hide Done, Running, Keyed;
      EmptyKeyed();
      var best: nat :| 1 <= best;
      finScanned := Some(best - 1);
      sent, start, scanned, first := {}, best - 1, [], |rows|;
      var queue := targets;
      var w := 0;
      while queue != []
        invariant Valid() && open == map[] && old(rows) <= rows && pass == old(pass)
        invariant forall st | st in targets :: st in queue || st in Done(rows, pass)
        decreases |queue|
      {
        hide Between;
        var size := if waveSize < |queue| then waveSize else |queue|;
        var next, others := queue[..size], queue[size..];
        assert queue == next + others;
        w := w + 1;
        wave := w;
        ghost var before := rows;
        var left, ended, _, _ := RunWave(next);
        if !ended.Going? {
          return ended;
        }
        DonePrefix(before, rows, pass);
        queue := left + others;
      }
      return Going;
    }

    /** The currency pass and then the payee pass: no call of the first is left over in the second. */
    method Passes(targets: seq<Stash>, payees: seq<Stash>, waveSize: nat) returns (outcome: Outcome)
      requires open == map[] && rows == [] && pass == Currency && waveSize >= 1
      modifies this, node
      ensures outcome.Going? ==> open == map[] && Running(rows)
                                 && (forall st | st in targets :: st in Done(rows, Currency))
                                 && (forall st | st in payees :: st in Done(rows, Payee))
    {
      hide Done, Keyed, Between;
      outcome := Going;
      if targets != [] {
        outcome := Run(targets, waveSize);
        if !outcome.Going? {
          return;
        }
      }
      ghost var before := rows;
      if payees != [] {
        pass := Payee;
        outcome := Run(payees, waveSize);
        if outcome.Going? {
          DonePrefix(before, rows, Currency);
        }
      }
    }
  }

  /** Calls for the first of these stashes, with consecutive nonces. */
  ghost predicate Calls(txs: seq<Tx>, stashes: seq<Stash>, first: nat, birth: nat, pass: Pass, attempt: nat,
                        wave: nat) {
    |txs| <= |stashes| && forall i | 0 <= i < |txs| ::
        txs[i] == Tx(TxId(stashes[i], first + i, birth, pass), attempt, wave)
  }

  ghost function PendingRows(left: seq<Tx>): seq<Row> {
    if left == [] then [] else PendingRows(left[..|left| - 1]) + [PendingRow(left[|left| - 1])]
  }

  lemma {:induction false} PendingRowsAre(left: seq<Tx>)
    ensures |PendingRows(left)| == |left| && forall i | 0 <= i < |left| :: PendingRows(left)[i] == PendingRow(left[i])
  {
    if left != [] {
      PendingRowsAre(left[..|left| - 1]);
    }
  }

  lemma PendingListed(rows: seq<Row>, left: seq<Tx>, open: Open, h: TxId)
    requires ListsByNonce(left, open)
    ensures h in open ==> HasRowFor(rows + PendingRows(left), h)
  {
    if h in open {
      var i :| 0 <= i < |left| && left[i].id == h;
      PendingRowsAre(left);
      var all := rows + PendingRows(left);
      assert all[|rows| + i] == PendingRow(left[i]);
    }
  }

  /** One of these calls has a row. */
  ghost predicate Landed(rows: seq<Row>, mine: set<TxId>) {
    exists i | 0 <= i < |rows| :: rows[i].hash.Some? && rows[i].hash.value in mine
  }

  method HasRow(rows: seq<Row>, mine: set<TxId>) returns (landed: bool)
    ensures landed <==> Landed(rows, mine)
  {
    landed := exists i | 0 <= i < |rows| :: rows[i].hash.Some? && rows[i].hash.value in mine;
  }

  /** A row for one of the calls of a stash is a row for the stash. */
  lemma LandedDone(rows: seq<Row>, mine: set<TxId>, st: Stash, pass: Pass)
    requires Running(rows) && Landed(rows, mine)
    requires forall h | h in mine :: h.stash == st && h.pass == pass
    ensures st in Done(rows, pass)
  {
    var i :| 0 <= i < |rows| && rows[i].hash.Some? && rows[i].hash.value in mine;
    DoneRow(rows, i, pass);
  }

  lemma SingleCall(txs: seq<Tx>)
    requires |txs| == 1
    ensures IdsOf(txs) == {txs[0].id}
  {
  }

  lemma EmptyKeyed()
    ensures Keyed(map[])
  {
  }

  lemma DonePrefix(a: seq<Row>, b: seq<Row>, pass: Pass)
    requires a <= b
    ensures Done(a, pass) <= Done(b, pass)
  {
    DoneConcat(a, b[|a|..], pass);
    assert a + b[|a|..] == b;
  }

  lemma FilterSize(stashes: seq<Stash>, needed: set<Stash>)
    ensures |Filter(stashes, needed)| <= |stashes|
    ensures forall st | st in Filter(stashes, needed) :: st in stashes
  {
    FilterIn(stashes, needed, 0);
    forall st | st in Filter(stashes, needed)
      ensures st in stashes
    {
      FilterIn(stashes, needed, st);
    }
  }

  lemma DroppedAreOpen(txs: seq<Tx>, dropped: seq<Tx>, open: Open, sent: set<TxId>)
    requires dropped == StillOpen(txs, open) && open.Keys <= IdsOf(txs) && IdsOf(txs) <= sent
    ensures open.Keys <= IdsOf(dropped) && IdsOf(dropped) <= sent
  {
    forall h | h in open
      ensures h in IdsOf(dropped)
    {
      var i :| 0 <= i < |txs| && txs[i].id == h;
      StillOpenIn(txs, open, txs[i]);
      var k :| 0 <= k < |dropped| && dropped[k] == txs[i];
    }
    forall k | 0 <= k < |dropped|
      ensures dropped[k].id in sent
    {
      StillOpenIn(txs, open, dropped[k]);
      var i :| 0 <= i < |txs| && txs[i] == dropped[k];
      assert txs[i].id in IdsOf(txs);
    }
  }

  /** The dropped calls of a wave are in the order of their nonces as they are: sorting changes nothing. */
  lemma {:induction false} DroppedByNonce(txs: seq<Tx>, open: Open)
    requires forall i, j | 0 <= i < j < |txs| :: txs[i].id.nonce < txs[j].id.nonce
    ensures var dropped := StillOpen(txs, open);
            forall i, j | 0 <= i < j < |dropped| :: dropped[i].id.nonce < dropped[j].id.nonce
  {
    if txs != [] {
      var rest, last := txs[..|txs| - 1], txs[|txs| - 1];
      DroppedByNonce(rest, open);
      var before := StillOpen(rest, open);
      forall i | 0 <= i < |before|
        ensures before[i].id.nonce < last.id.nonce
      {
        StillOpenIn(rest, open, before[i]);
        var k :| 0 <= k < |rest| && rest[k] == before[i];
        assert txs[k] == rest[k];
      }
    }
  }

  /** After a wave, each of its stashes was skipped, has a row for its call, or was not sent. */
  lemma WaveDone(stashes: seq<Stash>, live: seq<Stash>, txs: seq<Tx>, first: nat, birth: nat, pass: Pass, wave: nat,
                 before: seq<Row>, rows: seq<Row>, sent: set<TxId>)
    requires forall st | st in stashes :: st in live || st in Done(before, pass)
    requires Calls(txs, live, first, birth, pass, 1, wave) && IdsOf(txs) <= sent && before <= rows
    requires forall h | h in sent :: h.stash in Done(rows, pass)
    ensures forall st | st in stashes :: st in live[|txs|..] || st in Done(rows, pass)
  {
    hide Done;
    DonePrefix(before, rows, pass);
    forall k | 0 <= k < |txs|
      ensures live[k] in Done(rows, pass)
    {
      assert txs[k].id in IdsOf(txs);
    }
    assert live == live[..|txs|] + live[|txs|..];
  }

  predicate About(r: Row, txs: seq<Tx>) {
    exists k | 0 <= k < |txs| :: txs[k].id.stash == r.stash
  }

  /** Every new row about a stash of the wave is an error, and there is one. */
  ghost predicate WaveFailed(rows: seq<Row>, from: nat, txs: seq<Tx>) {
    && (exists i | from <= i < |rows| :: About(rows[i], txs))
    && (forall i | from <= i < |rows| && About(rows[i], txs) :: rows[i].status == Error)
  }

  lemma NoCallFailed(rows: seq<Row>, from: nat)
    ensures !WaveFailed(rows, from, [])
  {
  }

  method EveryCallFailed(rows: seq<Row>, from: nat, txs: seq<Tx>) returns (failed: bool)
    requires from <= |rows|
    ensures failed <==> WaveFailed(rows, from, txs)
  {
    var found, all := false, true;
    for i := from to |rows|
      invariant found <==> exists k | from <= k < i :: About(rows[k], txs)
      invariant all <==> forall k | from <= k < i && About(rows[k], txs) :: rows[k].status == Error
    {
      if About(rows[i], txs) {
        found := true;
        all := all && rows[i].status == Error;
      }
    }
    failed := found && all;
  }

  lemma CallsMore(txs: seq<Tx>, stashes: seq<Stash>, first: nat, birth: nat, pass: Pass, attempt: nat, wave: nat)
    requires Calls(txs, stashes, first, birth, pass, attempt, wave) && |txs| < |stashes|
    ensures Calls(txs + [Tx(TxId(stashes[|txs|], first + |txs|, birth, pass), attempt, wave)], stashes, first, birth,
                  pass, attempt, wave)
  {
  }

  lemma IdsMore(txs: seq<Tx>, tx: Tx)
    ensures IdsOf(txs + [tx]) == IdsOf(txs) + {tx.id}
  {
    var more := txs + [tx];
    assert forall i | 0 <= i < |txs| :: more[i] == txs[i];
    assert more[|txs|] == tx;
  }

  /** Recording what a scan found: every call found gets its row, and the rows stay in order. */
  lemma RecordedDone(blocks: nat -> seq<TxId>, succeeds: (nat, nat) -> bool, open: Open, from: nat, to: nat,
                     rows: seq<Row>, pass: Pass)
    requires Keyed(open) && Running(rows) && forall h | h in open :: h.pass == pass
    ensures var hits := HitsTo(blocks, open, from, to);
            var after := rows + RowsOf(succeeds, hits);
            && Running(after) && Done(rows, pass) <= Done(after, pass)
            && (forall h | h in Found(hits) :: h.stash in Done(after, pass))
  {
    hide HitsTo, Done, RowsOf;
    var hits := HitsTo(blocks, open, from, to);
    ScanHits(blocks, open, from, to);
    RowsOfHits(succeeds, hits);
    var more := RowsOf(succeeds, hits);
    var after := rows + more;
    DoneConcat(rows, more, pass);
    forall k | 0 <= k < |hits|
      ensures hits[k].tx.id.stash in Done(after, pass)
    {
      assert after[|rows| + k] == more[k];
      DoneRow(after, |rows| + k, pass);
    }
    forall i | 0 <= i < |after|
      ensures after[i].status != Pending
      ensures after[i].hash.Some? ==>
                after[i].stash == after[i].hash.value.stash && after[i].pass == after[i].hash.value.pass
    {
      if i >= |rows| {
        assert after[i] == more[i - |rows|];
      } else {
        assert after[i] == rows[i];
      }
    }
  }

  // ------------------------------------------------------------------ one row per stash

  function FinalOf(rows: seq<Row>): map<Stash, Row> {
    if rows == [] then map[]
    else
      var before, r := FinalOf(rows[..|rows| - 1]), rows[|rows| - 1];
      if r.stash in before && before[r.stash].status == Ok then before else before[r.stash := r]
  }

  method FinalRows(rows: seq<Row>) returns (out: map<Stash, Row>)
    ensures out == FinalOf(rows)
  {
    out := map[];
    for i := 0 to |rows|
      invariant out == FinalOf(rows[..i])
    {
      ghost var next := rows[..i + 1];
      assert next[..|next| - 1] == rows[..i] && next[|next| - 1] == rows[i];
      var r := rows[i];
      if r.stash !in out || out[r.stash].status != Ok {
        out := out[r.stash := r];
      }
    }
    assert rows[..|rows|] == rows;
  }

  /** The row at i is the first success of its stash. */
  ghost predicate FirstOk(rows: seq<Row>, i: nat, st: Stash) {
    && i < |rows| && rows[i].stash == st && rows[i].status == Ok
    && forall k | 0 <= k < i :: !(rows[k].stash == st && rows[k].status == Ok)
  }

  /** The row at i is the latest of its stash, and none of its rows is a success. */
  ghost predicate LatestOfFailures(rows: seq<Row>, i: nat, st: Stash) {
    && i < |rows| && rows[i].stash == st && (forall k | 0 <= k < |rows| && rows[k].stash == st :: rows[k].status != Ok)
    && forall k | i < k < |rows| :: rows[k].stash != st
  }

  /** A stash has a final row exactly when it has a row: its first success, or else its latest row. */
  lemma {:induction false} FinalRowIs(rows: seq<Row>, st: Stash)
    ensures st in FinalOf(rows) <==> exists i | 0 <= i < |rows| :: rows[i].stash == st
    ensures st in FinalOf(rows) ==>
              exists i: nat | i < |rows| :: FinalOf(rows)[st] == rows[i]
                  && (FirstOk(rows, i, st) || LatestOfFailures(rows, i, st))
  {
    if rows != [] {
      var rest, r := rows[..|rows| - 1], rows[|rows| - 1];
      FinalRowIs(rest, st);
      assert forall i | 0 <= i < |rest| :: rest[i] == rows[i];
      if st in FinalOf(rest) {
        var i: nat :| i < |rest| && FinalOf(rest)[st] == rest[i]
            && (FirstOk(rest, i, st) || LatestOfFailures(rest, i, st));
        if r.stash != st || FirstOk(rest, i, st) {
          assert FinalOf(rows)[st] == rows[i] && (FirstOk(rows, i, st) || LatestOfFailures(rows, i, st));
        } else {
          LastRow(rows, st);
        }
      } else if r.stash == st {
        assert forall k | 0 <= k < |rest| :: rest[k].stash != st;
        LastRow(rows, st);
      }
    }
  }

  lemma LastRow(rows: seq<Row>, st: Stash)
    requires rows != [] && rows[|rows| - 1].stash == st
    requires forall k | 0 <= k < |rows| - 1 && rows[k].stash == st :: rows[k].status != Ok
    ensures var i := |rows| - 1; FirstOk(rows, i, st) || LatestOfFailures(rows, i, st)
  {
  }
}
