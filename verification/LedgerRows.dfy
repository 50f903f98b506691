/**
  From database rows to the table the walk reads: the loader that keeps every node in memory,
  and the low-memory driver that keeps only an index of row keys.
 */
module LedgerRows {
  import opened ByteStrings
  import opened Scale

  datatype DbRow = DbRow(key: Bytes, value: Bytes)

  /** A loaded node: its bytes and its count, None when the row could not be read as one. */
  datatype Loaded = Loaded(bytes: Bytes, count: Option<Count>)

  predicate IsAscii(s: string) {
    forall i | 0 <= i < |s| :: s[i] < 128 as char
  }

  function Ascii(s: string): Bytes
    requires IsAscii(s)
  {
    seq(|s|, i requires 0 <= i < |s| => s[i] as int)
  }

  const FULL_PREFIX: Bytes := Ascii("storage" + "offchain-ocex::")

  const NAMED: set<Bytes> := {
    Ascii("trie_root"), Ascii("state_info"), Ascii("snapshot_id"),
    Ascii("worker_status"), Ascii("hashed_null_node"), Ascii("null_node_data")
  }

  predicate InScope(row: DbRow) {
    FULL_PREFIX <= row.key
  }

  function Rest(row: DbRow): Bytes
    requires InScope(row)
  {
    row.key[|FULL_PREFIX|..]
  }

  predicate IsNode(row: DbRow) {
    InScope(row) && !(Rest(row) in NAMED || |Rest(row)| < 32)
  }

  /** The digest a node row is filed under. */
  function Digest(row: DbRow): Bytes
    requires IsNode(row)
  {
    Rest(row)[|Rest(row)| - 32..]
  }

  function Load(value: Bytes): Loaded {
    match DecodeRow(value)
    case Some(row) => Loaded(row.bytes, Some(row.count))
    case None => Loaded(value, None)
  }

  function Rank(node: Loaded): int {
    if node.count.Some? then node.count.value as int else 0
  }

  /** The rows an iteration reaches: up to the first key outside the prefix. */
  function Scanned(col: seq<DbRow>): seq<DbRow> {
    if col == [] || !InScope(col[0]) then [] else [col[0]] + Scanned(col[1..])
  }

  function AllScanned(cols: seq<seq<DbRow>>): seq<DbRow> {
    if cols == [] then [] else AllScanned(cols[..|cols| - 1]) + Scanned(cols[|cols| - 1])
  }

  // ------------------------------------------------------------------ the in-memory table

  /** A row of this digest is among the rows. */
  ghost predicate Filed(rows: seq<DbRow>, h: Bytes) {
    exists row | row in rows :: IsNode(row) && Digest(row) == h
  }

  /** The table has one entry per digest: some row's node, and no row of that digest ranks higher. */
  ghost predicate TableOf(rows: seq<DbRow>, nodes: map<Bytes, Loaded>) {
    && (forall h :: h in nodes <==> Filed(rows, h))
    && (forall h | h in nodes ::
          exists row | row in rows :: IsNode(row) && Digest(row) == h && nodes[h] == Load(row.value))
    && (forall row | row in rows && IsNode(row) ::
          Digest(row) in nodes && Rank(Load(row.value)) <= Rank(nodes[Digest(row)]))
  }

  /** Each name maps to the value of its last row. */
  function NamesOf(rows: seq<DbRow>): map<Bytes, Bytes> {
    if rows == [] then map[]
    else
      var last := rows[|rows| - 1];
      var before := NamesOf(rows[..|rows| - 1]);
      if InScope(last) && !IsNode(last) then before[Rest(last) := last.value] else before
  }

  /** What is scanned of a column is everything up to the first key without the prefix. */
  lemma {:induction false} ScannedIs(col: seq<DbRow>, n: nat)
    requires n <= |col| && (forall i | 0 <= i < n :: Ascii("storageoffchain-ocex::") <= col[i].key)
    requires n < |col| ==> !(Ascii("storageoffchain-ocex::") <= col[n].key)
    ensures Scanned(col) == col[..n]
    decreases |col|
  {
    assert "storage" + "offchain-ocex::" == "storageoffchain-ocex::";
    if n > 0 {
      ScannedIs(col[1..], n - 1);
      assert col[..n] == [col[0]] + col[1..][..n - 1];
    }
  }

  /** Of the rows of one digest the table has one with the highest count; a row that cannot be read counts zero. */
  lemma HighestCount(rows: seq<DbRow>, nodes: map<Bytes, Loaded>, row: DbRow)
    requires TableOf(rows, nodes) && row in rows && IsNode(row)
    ensures Digest(row) in nodes
    ensures var count := if DecodeRow(row.value).Some? then DecodeRow(row.value).value.count as int else 0;
            var kept := nodes[Digest(row)].count;
            count <= if kept.Some? then kept.value as int else 0
  {
    hide DecodeRow, IsNode, Digest;
  }

  /** A name has the value of its last row. */
  lemma {:induction false} NamesAreLast(rows: seq<DbRow>, i: nat)
    requires i < |rows| && InScope(rows[i]) && !IsNode(rows[i])
    requires forall j | i < j < |rows| :: !(InScope(rows[j]) && !IsNode(rows[j]) && Rest(rows[j]) == Rest(rows[i]))
    ensures Rest(rows[i]) in NamesOf(rows) && NamesOf(rows)[Rest(rows[i])] == rows[i].value
    decreases |rows|
  {
    hide IsNode, InScope, Rest;
    if i < |rows| - 1 {
      NamesAreLast(rows[..|rows| - 1], i);
    }
  }

  lemma TableGrows(rows: seq<DbRow>, nodes: map<Bytes, Loaded>, row: DbRow)
    requires TableOf(rows, nodes) && InScope(row)
    ensures !IsNode(row) ==> TableOf(rows + [row], nodes)
    ensures IsNode(row) && (Digest(row) !in nodes || Rank(Load(row.value)) > Rank(nodes[Digest(row)]))
            ==> TableOf(rows + [row], nodes[Digest(row) := Load(row.value)])
    ensures IsNode(row) && Digest(row) in nodes && Rank(Load(row.value)) <= Rank(nodes[Digest(row)])
            ==> TableOf(rows + [row], nodes)
  {
    hide Load, Rank, IsNode, Digest;
    var all := rows + [row];
    assert forall r :: r in all <==> r in rows || r == row;
    if IsNode(row) {
      assert row in all;
    }
    forall h
      ensures Filed(all, h) <==> Filed(rows, h) || (IsNode(row) && Digest(row) == h)
    {
      if Filed(rows, h) {
        var r :| r in rows && IsNode(r) && Digest(r) == h;
        assert r in all;
      }
    }
    forall h | h in nodes
      ensures exists r | r in all :: IsNode(r) && Digest(r) == h && nodes[h] == Load(r.value)
    {
      var r :| r in rows && IsNode(r) && Digest(r) == h && nodes[h] == Load(r.value);
      assert r in all;
    }
  }

  lemma ScanStep(before: seq<DbRow>, col: seq<DbRow>, i: nat)
    requires i < |col|
    ensures InScope(col[i]) ==> before + Scanned(col[i..]) == (before + [col[i]]) + Scanned(col[i + 1..])
    ensures !InScope(col[i]) ==> before + Scanned(col[i..]) == before
  {
    assert col[i..][1..] == col[i + 1..];
  }

  /** Adds the rows of one column to the table. */
  method ScanColumn(ghost before: seq<DbRow>, col: seq<DbRow>, named0: map<Bytes, Bytes>, nodes0: map<Bytes, Loaded>)
    returns (named: map<Bytes, Bytes>, nodes: map<Bytes, Loaded>)
    requires TableOf(before, nodes0) && named0 == NamesOf(before)
    ensures TableOf(before + Scanned(col), nodes) && named == NamesOf(before + Scanned(col))
  {
    hide TableOf, IsNode, Rest, Digest, Rank, Load, Scanned, InScope;
    named, nodes := named0, nodes0;
    var i := 0;
    ghost var seen := before;
    assert col[0..] == col;
    while true
      invariant 0 <= i <= |col|
      invariant before + Scanned(col) == seen + Scanned(col[i..])
      invariant TableOf(seen, nodes) && named == NamesOf(seen)
      decreases |col| - i
    {
      if i == |col| {
        ScanEnd(seen);
        assert col[i..] == [];
        break;
      }
      var row := col[i];
      ScanStep(seen, col, i);
      if !InScope(row) {
        break;
      }
      TableGrows(seen, nodes, row);
      NameStep(seen, row);
      if !IsNode(row) {
        named := named[Rest(row) := row.value];
      } else {
        var h, node := Digest(row), Load(row.value);
        if h !in nodes || Rank(node) > Rank(nodes[h]) {
          nodes := nodes[h := node];
        }
      }
      seen := seen + [row];
      i := i + 1;
    }
  }

  lemma ScanEnd(seen: seq<DbRow>)
    ensures seen + Scanned([]) == seen
  {
  }

  lemma NameStep(rows: seq<DbRow>, row: DbRow)
    requires InScope(row)
    ensures NamesOf(rows + [row]) == (if IsNode(row) then NamesOf(rows) else NamesOf(rows)[Rest(row) := row.value])
  {
    assert (rows + [row])[..|rows|] == rows;
  }

  method LoadKeys(cols: seq<seq<DbRow>>) returns (named: map<Bytes, Bytes>, nodes: map<Bytes, Loaded>)
    ensures TableOf(AllScanned(cols), nodes)
    ensures named == NamesOf(AllScanned(cols))
  {
    named, nodes := map[], map[];
    for c := 0 to |cols|
      invariant TableOf(AllScanned(cols[..c]), nodes) && named == NamesOf(AllScanned(cols[..c]))
    {
      named, nodes := ScanColumn(AllScanned(cols[..c]), cols[c], named, nodes);
      assert cols[..c + 1][..c] == cols[..c];
    }
    assert cols[..|cols|] == cols;
  }

  /** The bytes the walk sees: each digest gives the bytes of some row filed under it. */
  ghost predicate FromRows(rows: seq<DbRow>, nodes: map<Bytes, Bytes>) {
    && (forall h :: h in nodes <==> Filed(rows, h))
    && (forall h | h in nodes :: Backed(rows, h, nodes[h]))
  }

  /** Some row of this digest holds these bytes. */
  ghost predicate Backed(rows: seq<DbRow>, h: Bytes, bytes: Bytes) {
    exists row | row in rows :: IsNode(row) && Digest(row) == h && bytes == Load(row.value).bytes
  }

  function BytesTable(nodes: map<Bytes, Loaded>): map<Bytes, Bytes> {
    map h | h in nodes :: nodes[h].bytes
  }

  lemma TableFromRows(rows: seq<DbRow>, nodes: map<Bytes, Loaded>)
    requires TableOf(rows, nodes)
    ensures FromRows(rows, BytesTable(nodes))
  {
    hide Load, Digest, IsNode, Rank;
    var table := BytesTable(nodes);
    forall h | h in table
      ensures exists row | row in rows :: IsNode(row) && Digest(row) == h && table[h] == Load(row.value).bytes
    {
      var row :| row in rows && IsNode(row) && Digest(row) == h && nodes[h] == Load(row.value);
      assert table[h] == Load(row.value).bytes;
    }
  }

  // ------------------------------------------------------------------ the low-memory index

  /** Where a node's row is: its column and its key there. */
  datatype Location = Location(col: nat, key: Bytes)

  /** A location names a scanned row of its digest. */
  ghost predicate Locates(cols: seq<seq<DbRow>>, h: Bytes, loc: Location) {
    && loc.col < |cols|
    && exists row | row in Scanned(cols[loc.col]) :: IsNode(row) && Digest(row) == h && row.key == loc.key
  }

  ghost predicate IndexOf(cols: seq<seq<DbRow>>, rows: seq<DbRow>, idx: map<Bytes, Location>) {
    && (forall h :: h in idx <==> Filed(rows, h))
    && (forall h | h in idx :: Locates(cols, h, idx[h]))
  }

  lemma FiledGrows(rows: seq<DbRow>, row: DbRow, h: Bytes)
    ensures Filed(rows + [row], h) <==> Filed(rows, h) || (IsNode(row) && Digest(row) == h)
  {
    hide IsNode, Digest;
    var all := rows + [row];
    assert row in all;
    if Filed(rows, h) {
      var r :| r in rows && IsNode(r) && Digest(r) == h;
      assert r in all;
    }
  }

  lemma IndexGrows(cols: seq<seq<DbRow>>, rows: seq<DbRow>, idx: map<Bytes, Location>, row: DbRow, c: nat)
    requires IndexOf(cols, rows, idx) && c < |cols| && row in Scanned(cols[c])
    ensures !IsNode(row) || Digest(row) in idx ==> IndexOf(cols, rows + [row], idx)
    ensures IsNode(row) && Digest(row) !in idx ==>
              IndexOf(cols, rows + [row], idx[Digest(row) := Location(c, row.key)])
  {
    hide Filed, IsNode, Digest, Scanned;
    forall h
      ensures Filed(rows + [row], h) <==> Filed(rows, h) || (IsNode(row) && Digest(row) == h)
    {
      FiledGrows(rows, row, h);
    }
    if IsNode(row) {
      assert Locates(cols, Digest(row), Location(c, row.key));
    }
  }

  lemma {:induction false} ScannedMember(col: seq<DbRow>, i: nat, row: DbRow)
    requires i < |col| && row == col[i] && (forall k | 0 <= k <= i :: InScope(col[k]))
    ensures row in Scanned(col)
  {
    hide InScope;
    if i > 0 {
      var rest := col[1..];
      assert forall k | 0 <= k < |rest| :: rest[k] == col[k + 1];
      ScannedMember(rest, i - 1, row);
      assert Scanned(col) == [col[0]] + Scanned(rest);
    }
  }

  method IndexColumn(ghost before: seq<DbRow>, cols: seq<seq<DbRow>>, c: nat,
                     named0: map<Bytes, Bytes>, idx0: map<Bytes, Location>)
    returns (named: map<Bytes, Bytes>, idx: map<Bytes, Location>)
    requires c < |cols| && IndexOf(cols, before, idx0) && named0 == NamesOf(before)
    ensures IndexOf(cols, before + Scanned(cols[c]), idx) && named == NamesOf(before + Scanned(cols[c]))
  {
    hide IndexOf, IsNode, Rest, Digest, Scanned, InScope;
    var col := cols[c];
    named, idx := named0, idx0;
    var i := 0;
    ghost var seen := before;
    assert col[0..] == col;
    while true
      invariant 0 <= i <= |col|
      invariant forall k | 0 <= k < i :: InScope(col[k])
      invariant before + Scanned(col) == seen + Scanned(col[i..])
      invariant IndexOf(cols, seen, idx) && named == NamesOf(seen)
      decreases |col| - i
    {
      if i == |col| {
        ScanEnd(seen);
        assert col[i..] == [];
        break;
      }
      var row := col[i];
      ScanStep(seen, col, i);
      if !InScope(row) {
        break;
      }
      ScannedMember(col, i, row);
      IndexGrows(cols, seen, idx, row, c);
      NameStep(seen, row);
      if !IsNode(row) {
        named := named[Rest(row) := row.value];
      } else if Digest(row) !in idx {
        idx := idx[Digest(row) := Location(c, row.key)];
      }
      seen := seen + [row];
      i := i + 1;
    }
  }

  method BuildIndex(cols: seq<seq<DbRow>>) returns (named: map<Bytes, Bytes>, idx: map<Bytes, Location>)
    ensures IndexOf(cols, AllScanned(cols), idx)
    ensures named == NamesOf(AllScanned(cols))
  {
    named, idx := map[], map[];
    for c := 0 to |cols|
      invariant IndexOf(cols, AllScanned(cols[..c]), idx) && named == NamesOf(AllScanned(cols[..c]))
    {
      named, idx := IndexColumn(AllScanned(cols[..c]), cols, c, named, idx);
      assert cols[..c + 1][..c] == cols[..c];
    }
    assert cols[..|cols|] == cols;
  }

  /** Keys are unique within a column. */
  ghost predicate UniqueKeys(col: seq<DbRow>) {
    forall i, j | 0 <= i < j < |col| :: col[i].key != col[j].key
  }

  /** A point lookup in a column. */
  function ColumnGet(col: seq<DbRow>, key: Bytes): Option<Bytes> {
    if col == [] then None
    else if col[0].key == key then Some(col[0].value)
    else ColumnGet(col[1..], key)
  }

  lemma {:induction false} ColumnGetFinds(col: seq<DbRow>, row: DbRow)
    requires UniqueKeys(col) && row in col
    ensures ColumnGet(col, row.key) == Some(row.value)
  {
    if col[0] != row {
      var i :| 0 <= i < |col| && col[i] == row;
      assert col[1..][i - 1] == row;
      ColumnGetFinds(col[1..], row);
    }
  }

  lemma {:induction false} ScannedInColumn(col: seq<DbRow>, row: DbRow)
    requires row in Scanned(col)
    ensures row in col
  {
    if col[0] != row {
      ScannedInColumn(col[1..], row);
    }
  }

  /** What the low-memory table answers for a digest. */
  function LazyGet(cols: seq<seq<DbRow>>, idx: map<Bytes, Location>, h: Bytes): Option<Loaded> {
    if h !in idx || |cols| <= idx[h].col then None
    else
      var value :- ColumnGet(cols[idx[h].col], idx[h].key);
      Some(Load(value))
  }

  lemma LazyGetFinds(cols: seq<seq<DbRow>>, idx: map<Bytes, Location>, h: Bytes) returns (row: DbRow)
    requires (forall c | 0 <= c < |cols| :: UniqueKeys(cols[c])) && IndexOf(cols, AllScanned(cols), idx) && h in idx
    ensures row in AllScanned(cols) && IsNode(row) && Digest(row) == h
    ensures LazyGet(cols, idx, h) == Some(Load(row.value))
  {
    hide Load, Digest, IsNode;
    var c := idx[h].col;
    assert Locates(cols, h, idx[h]);
    row :| row in Scanned(cols[c]) && IsNode(row) && Digest(row) == h && row.key == idx[h].key;
    ScannedInColumn(cols[c], row);
    ColumnGetFinds(cols[c], row);
    ScannedIsScanned(cols, c, row);
  }

  lemma {:induction false} ScannedIsScanned(cols: seq<seq<DbRow>>, c: nat, row: DbRow)
    requires c < |cols| && row in Scanned(cols[c])
    ensures row in AllScanned(cols)
  {
    hide Scanned;
    if c < |cols| - 1 {
      ScannedIsScanned(cols[..|cols| - 1], c, row);
    }
  }

  function LazyTable(cols: seq<seq<DbRow>>, idx: map<Bytes, Location>): map<Bytes, Bytes> {
    map h | h in idx && LazyGet(cols, idx, h).Some? :: LazyGet(cols, idx, h).value.bytes
  }

  lemma LazyEntry(cols: seq<seq<DbRow>>, idx: map<Bytes, Location>, h: Bytes)
    requires (forall c | 0 <= c < |cols| :: UniqueKeys(cols[c])) && IndexOf(cols, AllScanned(cols), idx) && h in idx
    ensures h in LazyTable(cols, idx) && Backed(AllScanned(cols), h, LazyTable(cols, idx)[h])
  {
    hide Load, Digest, IsNode, LazyGet, UniqueKeys, AllScanned, IndexOf;
    var row := LazyGetFinds(cols, idx, h);
  }

  lemma LazyFromRows(cols: seq<seq<DbRow>>, idx: map<Bytes, Location>)
    requires (forall c | 0 <= c < |cols| :: UniqueKeys(cols[c])) && IndexOf(cols, AllScanned(cols), idx)
    ensures FromRows(AllScanned(cols), LazyTable(cols, idx))
  {
    hide LazyGet, UniqueKeys, AllScanned, Filed, Backed, Locates;
    forall h | h in idx
      ensures h in LazyTable(cols, idx) && Backed(AllScanned(cols), h, LazyTable(cols, idx)[h])
    {
      LazyEntry(cols, idx, h);
    }
  }
}
