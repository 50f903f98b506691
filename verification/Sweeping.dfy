/**
  The staking migration sweep: a client that signs calls in waves, follows them into finalised
  blocks, resubmits the dropped ones and stops at a deadline. The chain answers as it likes.
 */
module Sweeping {
  import opened ByteStrings

  const MORTAL_PERIOD := 64
  const STALL_BLOCKS := 4
  const SETTLE_TIMEOUT := 900
  const MAX_ATTEMPTS := 3

  type Stash = nat

  datatype Pass = Currency | Payee

  /** What a signed call is determined by, and so its hash: hashes are taken to be free of collisions. */
  datatype TxId = TxId(stash: Stash, nonce: nat, birth: nat, pass: Pass)

  datatype Tx = Tx(id: TxId, attempt: nat, wave: nat)

  datatype Status = Ok | Error | Skipped | Pending

  datatype Row = Row(stash: Stash, pass: Pass, status: Status, hash: Option<TxId>)

  type Open = map<TxId, Tx>

  // ------------------------------------------------------------------ what a scan finds

  /** A call found at an index of a finalised block. */
  datatype Hit = Hit(block: nat, index: nat, tx: Tx)

  function Found(hits: seq<Hit>): set<TxId> {
    set k | 0 <= k < |hits| :: hits[k].tx.id
  }

  /** The calls of a block that are still open, each taken out as it is found. */
  function HitsIn(open: Open, block: nat, xts: seq<TxId>): seq<Hit> {
    if xts == [] then []
    else
      var before := HitsIn(open, block, xts[..|xts| - 1]);
      var h := xts[|xts| - 1];
      if h in open && h !in Found(before) then before + [Hit(block, |xts| - 1, open[h])] else before
  }

  /** The calls found in the blocks after `from` up to `to`. */
  function HitsTo(blocks: nat -> seq<TxId>, open: Open, from: nat, to: nat): seq<Hit> {
    if to <= from then []
    else
      var before := HitsTo(blocks, open, from, to - 1);
      before + HitsIn(open - Found(before), to, blocks(to))
  }

  function RowOf(succeeds: (nat, nat) -> bool, hit: Hit): Row {
    var id := hit.tx.id;
    Row(id.stash, id.pass, if succeeds(hit.block, hit.index) then Ok else Error, Some(id))
  }

  function RowsOf(succeeds: (nat, nat) -> bool, hits: seq<Hit>): seq<Row> {
    if hits == [] then [] else RowsOf(succeeds, hits[..|hits| - 1]) + [RowOf(succeeds, hits[|hits| - 1])]
  }

  /** The open calls by their hashes. */
  ghost predicate Keyed(open: Open) {
    forall h | h in open :: open[h].id == h
  }

  ghost predicate NoneTwice(hits: seq<Hit>) {
    forall i, j | 0 <= i < j < |hits| :: hits[i].tx.id != hits[j].tx.id
  }

  lemma {:induction false} BlockHits(open: Open, block: nat, xts: seq<TxId>)
    requires Keyed(open)
    ensures var hits := HitsIn(open, block, xts);
            && NoneTwice(hits)
            && (forall i | 0 <= i < |hits| :: hits[i].tx.id in open && hits[i].tx == open[hits[i].tx.id])
            && (forall h :: h in Found(hits) <==> h in open && h in xts)
  {
    if xts != [] {
      var rest, h := xts[..|xts| - 1], xts[|xts| - 1];
      BlockHits(open, block, rest);
      var before := HitsIn(open, block, rest);
      assert forall g :: g in xts <==> g in rest || g == h;
      if h in open && h !in Found(before) {
        var hits := before + [Hit(block, |xts| - 1, open[h])];
        FoundMore(before, Hit(block, |xts| - 1, open[h]));
      }
    }
  }

  lemma FoundMore(hits: seq<Hit>, hit: Hit)
    ensures Found(hits + [hit]) == Found(hits) + {hit.tx.id}
  {
    var more := hits + [hit];
    assert forall k | 0 <= k < |hits| :: more[k] == hits[k];
    assert more[|hits|] == hit;
  }

  lemma {:induction false} FoundBoth(a: seq<Hit>, b: seq<Hit>)
    ensures Found(a + b) == Found(a) + Found(b)
  {
    var both := a + b;
    assert forall k | 0 <= k < |a| :: both[k] == a[k];
    assert forall k | 0 <= k < |b| :: both[|a| + k] == b[k];
  }

  /** A hash occurs in one of the finalised blocks after `from` up to `to`. */
  ghost predicate Finalised(blocks: nat -> seq<TxId>, from: nat, to: nat, h: TxId) {
    exists m | from < m <= to :: h in blocks(m)
  }

  /** Every call found while open is found once, and every open call that is in one of the blocks is found. */
  lemma {:induction false} ScanHits(blocks: nat -> seq<TxId>, open: Open, from: nat, to: nat)
    requires Keyed(open)
    ensures var hits := HitsTo(blocks, open, from, to);
            && NoneTwice(hits)
            && (forall i | 0 <= i < |hits| :: hits[i].tx.id in open && hits[i].tx == open[hits[i].tx.id])
            && (forall h :: h in Found(hits) <==> h in open && Finalised(blocks, from, to, h))
  {
    if to > from {
      ScanHits(blocks, open, from, to - 1);
      var before := HitsTo(blocks, open, from, to - 1);
      var rest := open - Found(before);
      BlockHits(rest, to, blocks(to));
      var last := HitsIn(rest, to, blocks(to));
      FoundBoth(before, last);
      ScanJoin(before, last, rest);
      forall h
        ensures h in Found(before + last) <==> h in open && Finalised(blocks, from, to, h)
      {
        assert Finalised(blocks, from, to, h) <==> Finalised(blocks, from, to - 1, h) || h in blocks(to);
      }
    }
  }

  lemma ScanJoin(a: seq<Hit>, b: seq<Hit>, rest: Open)
    requires NoneTwice(a) && NoneTwice(b)
    requires forall h | h in rest :: h !in Found(a)
    requires forall i | 0 <= i < |b| :: b[i].tx.id in rest
    ensures NoneTwice(a + b)
  {
    var both := a + b;
    forall i, j | 0 <= i < j < |both|
      ensures both[i].tx.id != both[j].tx.id
    {
      if i < |a| <= j {
        assert both[i] == a[i] && both[j] == b[j - |a|];
        assert a[i].tx.id in Found(a);
      } else if j < |a| {
        assert both[i] == a[i] && both[j] == a[j];
      } else {
        assert both[i] == b[i - |a|] && both[j] == b[j - |a|];
      }
    }
  }

  lemma {:induction false} RowsOfHits(succeeds: (nat, nat) -> bool, hits: seq<Hit>)
    ensures |RowsOf(succeeds, hits)| == |hits|
    ensures forall i | 0 <= i < |hits| :: RowsOf(succeeds, hits)[i] == RowOf(succeeds, hits[i])
  {
    if hits != [] {
      RowsOfHits(succeeds, hits[..|hits| - 1]);
    }
  }

  /** The first place of a hash in the blocks after `from`. */
  ghost predicate FirstAt(blocks: nat -> seq<TxId>, from: nat, h: TxId, m: nat, i: nat) {
    && from < m && i < |blocks(m)| && blocks(m)[i] == h && h !in blocks(m)[..i]
    && forall n | from < n < m :: h !in blocks(n)
  }

  lemma FirstOnly(blocks: nat -> seq<TxId>, from: nat, h: TxId, m: nat, i: nat, n: nat, j: nat)
    requires FirstAt(blocks, from, h, m, i) && FirstAt(blocks, from, h, n, j)
    ensures m == n && i == j
  {
    assert m == n;
    var xts := blocks(m);
    assert forall k, n | 0 <= k < n <= |xts| :: xts[..n][k] == xts[k];
  }

  /** A call is found in a block at its first index there. */
  lemma {:induction false} BlockPlaces(open: Open, block: nat, xts: seq<TxId>, k: nat)
    requires Keyed(open) && k < |HitsIn(open, block, xts)|
    ensures var hit := HitsIn(open, block, xts)[k];
            && hit.block == block && hit.index < |xts| && xts[hit.index] == hit.tx.id && hit.tx.id !in xts[..hit.index]
    decreases |xts|
  {
    var rest := xts[..|xts| - 1];
    var before := HitsIn(open, block, rest);
    if k < |before| {
      BlockPlaces(open, block, rest, k);
      var i := before[k].index;
      assert xts[i] == rest[i] && xts[..i] == rest[..i];
    } else {
      BlockHits(open, block, rest);
    }
  }

  /** So a scan finds it at its first place. */
  lemma {:induction false} ScanPlaces(blocks: nat -> seq<TxId>, open: Open, from: nat, to: nat, k: nat)
    requires Keyed(open) && k < |HitsTo(blocks, open, from, to)|
    ensures var hit := HitsTo(blocks, open, from, to)[k];
            hit.block <= to && FirstAt(blocks, from, hit.tx.id, hit.block, hit.index)
  {
    var before := HitsTo(blocks, open, from, to - 1);
    if k < |before| {
      ScanPlaces(blocks, open, from, to - 1, k);
    } else {
      var rest := open - Found(before);
      BlockPlaces(rest, to, blocks(to), k - |before|);
      BlockHits(rest, to, blocks(to));
      ScanHits(blocks, open, from, to - 1);
      var h := HitsIn(rest, to, blocks(to))[k - |before|].tx.id;
      assert h in open && !Finalised(blocks, from, to - 1, h);
    }
  }

  /** The row names its call's stash and pass, and says whether the call succeeded at its first place. */
  ghost predicate Tells(row: Row, blocks: nat -> seq<TxId>, succeeds: (nat, nat) -> bool, from: nat, to: nat) {
    && row.hash.Some? && row.stash == row.hash.value.stash && row.pass == row.hash.value.pass
    && exists m: nat, i: nat :: FirstAt(blocks, from, row.hash.value, m, i) && m <= to
                                && row.status == if succeeds(m, i) then Ok else Error
  }

  ghost predicate AllTell(rows: seq<Row>, blocks: nat -> seq<TxId>, succeeds: (nat, nat) -> bool, from: nat, to: nat) {
    forall k | 0 <= k < |rows| :: Tells(rows[k], blocks, succeeds, from, to)
  }

  /** Every row that a scan writes tells that. */
  lemma ScanTells(blocks: nat -> seq<TxId>, succeeds: (nat, nat) -> bool, open: Open, from: nat, to: nat)
    requires Keyed(open)
    ensures AllTell(RowsOf(succeeds, HitsTo(blocks, open, from, to)), blocks, succeeds, from, to)
  {
    hide HitsTo, RowsOf, FirstAt;
    var hits := HitsTo(blocks, open, from, to);
    var rows := RowsOf(succeeds, hits);
    RowsOfHits(succeeds, hits);
    forall k | 0 <= k < |rows|
      ensures Tells(rows[k], blocks, succeeds, from, to)
    {
      ScanPlaces(blocks, open, from, to, k);
      assert rows[k] == RowOf(succeeds, hits[k]);
      assert FirstAt(blocks, from, rows[k].hash.value, hits[k].block, hits[k].index);
    }
  }

  ghost predicate HasRowFor(rows: seq<Row>, h: TxId) {
    exists i | 0 <= i < |rows| :: rows[i].hash == Some(h)
  }

  /** The rows a scan writes: exactly one for every open call that is in one of the blocks, and no other. */
  lemma RecordedOnce(blocks: nat -> seq<TxId>, succeeds: (nat, nat) -> bool, open: Open, from: nat, to: nat)
    requires Keyed(open)
    ensures var rows := RowsOf(succeeds, HitsTo(blocks, open, from, to));
            && (forall i, j | 0 <= i < j < |rows| :: rows[i].hash != rows[j].hash)
            && (forall h :: HasRowFor(rows, h) <==> h in open && Finalised(blocks, from, to, h))
  {
    hide HitsTo, RowsOf, Finalised;
    var hits := HitsTo(blocks, open, from, to);
    ScanHits(blocks, open, from, to);
    RowsOfHits(succeeds, hits);
    var rows := RowsOf(succeeds, hits);
    forall h
      ensures HasRowFor(rows, h) <==> h in Found(hits)
    {
      if h in Found(hits) {
        var k :| 0 <= k < |hits| && hits[k].tx.id == h;
        assert rows[k].hash == Some(h);
      }
    }
  }

  /** No call stands in two finalised blocks. */
  ghost predicate OnlyOnce(blocks: nat -> seq<TxId>) {
    forall m: nat, n: nat, h | h in blocks(m) && h in blocks(n) :: m == n
  }

  /** The call stands at a place in the blocks scanned where it fared as the row says. */
  ghost predicate Fared(row: Row, blocks: nat -> seq<TxId>, succeeds: (nat, nat) -> bool, from: nat, to: nat) {
    && row.hash.Some? && row.stash == row.hash.value.stash && row.pass == row.hash.value.pass
    && exists m: nat, i: nat :: At(blocks, m, i, row.hash.value) && from < m <= to
                                && row.status == if succeeds(m, i) then Ok else Error
  }

  ghost predicate At(blocks: nat -> seq<TxId>, m: nat, i: nat, h: TxId) {
    i < |blocks(m)| && blocks(m)[i] == h
  }

  lemma FaredFinalised(row: Row, blocks: nat -> seq<TxId>, succeeds: (nat, nat) -> bool, from: nat, to: nat)
    requires Fared(row, blocks, succeeds, from, to)
    ensures Finalised(blocks, from, to, row.hash.value)
  {
    var m: nat, i: nat :| At(blocks, m, i, row.hash.value) && from < m <= to;
    assert row.hash.value in blocks(m);
  }

  lemma FaredWider(row: Row, blocks: nat -> seq<TxId>, succeeds: (nat, nat) -> bool, from: nat, to: nat, start: nat,
                   end: nat)
    requires start <= from && to <= end
    ensures Fared(row, blocks, succeeds, from, to) ==> Fared(row, blocks, succeeds, start, end)
    ensures Tells(row, blocks, succeeds, from, to) ==> Fared(row, blocks, succeeds, start, end)
  {
    if Tells(row, blocks, succeeds, from, to) {
      var m: nat, i: nat :| FirstAt(blocks, from, row.hash.value, m, i) && m <= to
                            && row.status == if succeeds(m, i) then Ok else Error;
      assert At(blocks, m, i, row.hash.value);
    }
  }

  /** The rows from `first` on that are about calls found: each says how its call fared in the blocks scanned, and
      none is of a call that has another, unless it stands in two blocks. */
  ghost predicate OneRowEach(rows: seq<Row>, first: nat, blocks: nat -> seq<TxId>, succeeds: (nat, nat) -> bool,
                             from: nat, to: nat) {
    && (forall i | first <= i < |rows| && rows[i].hash.Some? :: Fared(rows[i], blocks, succeeds, from, to))
    && (OnlyOnce(blocks) ==>
          forall i, j | first <= i < j < |rows| && rows[i].hash.Some? :: rows[i].hash != rows[j].hash)
  }

  lemma FinalisedLater(blocks: nat -> seq<TxId>, from: nat, mid: nat, to: nat, h: TxId)
    requires from <= mid <= to
    ensures Finalised(blocks, from, mid, h) || Finalised(blocks, mid, to, h) ==> Finalised(blocks, from, to, h)
    ensures OnlyOnce(blocks) ==> !(Finalised(blocks, from, mid, h) && Finalised(blocks, mid, to, h))
  {
  }

  /** Another scan keeps it so. */
  lemma OneRowEachMore(rows: seq<Row>, first: nat, blocks: nat -> seq<TxId>, succeeds: (nat, nat) -> bool, open: Open,
                       from: nat, mid: nat, to: nat)
    requires Keyed(open) && first <= |rows| && from <= mid && OneRowEach(rows, first, blocks, succeeds, from, mid)
    ensures OneRowEach(rows + RowsOf(succeeds, HitsTo(blocks, open, mid, to)), first, blocks, succeeds, from,
                       if to > mid then to else mid)
  {
    hide HitsTo, RowsOf, Finalised, OnlyOnce, Fared, Tells;
    var more, end := RowsOf(succeeds, HitsTo(blocks, open, mid, to)), if to > mid then to else mid;
    RowsAre(blocks, succeeds, open, mid, to, end);
    ScanTells(blocks, succeeds, open, mid, to);
    var all := rows + more;
    assert forall i | |rows| <= i < |all| :: all[i] == more[i - |rows|];
    forall i | first <= i < |all| && all[i].hash.Some?
      ensures Fared(all[i], blocks, succeeds, from, end)
      ensures OnlyOnce(blocks) ==> forall j | i < j < |all| :: all[i].hash != all[j].hash
    {
      if i < |rows| {
        FaredWider(all[i], blocks, succeeds, from, mid, from, end);
        FaredFinalised(rows[i], blocks, succeeds, from, mid);
      } else {
        FaredWider(all[i], blocks, succeeds, mid, to, from, end);
      }
      FinalisedLater(blocks, from, mid, end, all[i].hash.value);
      assert i >= |rows| ==> HasRowFor(more, all[i].hash.value);
      forall j | i < j < |all| && OnlyOnce(blocks)
        ensures all[i].hash != all[j].hash
      {
        assert j >= |rows| && all[j].hash.Some? ==> HasRowFor(more, all[j].hash.value);
      }
    }
  }

  lemma RowsAre(blocks: nat -> seq<TxId>, succeeds: (nat, nat) -> bool, open: Open, mid: nat, to: nat, end: nat)
    requires Keyed(open) && end == if to > mid then to else mid
    ensures var more := RowsOf(succeeds, HitsTo(blocks, open, mid, to));
            && (forall i, j | 0 <= i < j < |more| :: more[i].hash != more[j].hash)
            && (forall h | HasRowFor(more, h) :: Finalised(blocks, mid, end, h))
  {
    hide HitsTo, RowsOf;
    RecordedOnce(blocks, succeeds, open, mid, to);
  }

  lemma OneRowEachBut(rows: seq<Row>, first: nat, blocks: nat -> seq<TxId>, succeeds: (nat, nat) -> bool, from: nat,
                      to: nat, row: Row)
    requires OneRowEach(rows, first, blocks, succeeds, from, to) && row.hash.None?
    ensures OneRowEach(rows + [row], first, blocks, succeeds, from, to)
  {
    hide Fared, OnlyOnce;
    var all := rows + [row];
    assert forall i | 0 <= i < |rows| :: all[i] == rows[i];
  }

  /** The blocks after `from` up to `to`, in order. */
  ghost function Between(from: nat, to: nat): seq<nat> {
    if to <= from then [] else Between(from, to - 1) + [to]
  }

  /** Each of them once. */
  lemma {:induction false} BetweenOnce(from: nat, to: nat)
    requires from <= to
    ensures |Between(from, to)| == to - from && forall i | 0 <= i < to - from :: Between(from, to)[i] == from + 1 + i
  {
    if to > from {
      BetweenOnce(from, to - 1);
    }
  }
}
