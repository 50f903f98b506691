/**
  The extraction end to end: the two drivers agree, and every root the worker ever committed
  can still be extracted from its database.
 */
module LedgerExtraction {
  import opened ByteStrings
  import opened Scale
  import opened Tries
  import opened TrieWalk
  import opened LedgerRows
  import opened NodeStore

  /** No scanned row collides with these bytes: the same digest means the same bytes. */
  ghost predicate Clear(hash: Bytes -> Hash, rows: seq<DbRow>, bytes: Bytes) {
    forall row | row in rows && IsNode(row) ::
      hash(Load(row.value).bytes) == hash(bytes) ==> Load(row.value).bytes == bytes
  }

  ghost function ClearIn(hash: Bytes -> Hash, rows: seq<DbRow>): Bytes -> bool {
    bytes => Clear(hash, rows, bytes)
  }

  lemma ClearTrusted(hash: Bytes -> Hash, rows: seq<DbRow>, nodes: map<Bytes, Bytes>, bytes: Bytes)
    requires FromRows(rows, nodes) && Clear(hash, rows, bytes)
    ensures Trusted(hash, nodes, true, bytes)
  {
    hide Load, Digest, IsNode, Filed;
    if hash(bytes) in nodes {
      var row :| row in rows && IsNode(row) && Digest(row) == hash(bytes)
          && nodes[hash(bytes)] == Load(row.value).bytes;
    }
  }

  lemma {:induction false} AllDigestedImplies(hash: Bytes -> Hash, t: Trie, p: Bytes -> bool, q: Bytes -> bool)
    requires Committable(hash, t) && AllDigested(hash, t, p) && forall bytes | p(bytes) :: q(bytes)
    ensures AllDigested(hash, t, q)
    decreases t, 0
  {
    hide TrieBytes;
    if t.BranchTrie? {
      forall i | 0 <= i < 16 && t.kids[i].Kid?
        ensures AllKid(hash, t.kids[i], q)
      {
        assert CommittableKid(hash, t.kids[i]) && AllKid(hash, t.kids[i], p);
        AllDigestedImplies(hash, t.kids[i].sub, p, q);
      }
    }
  }

  lemma RootTrusted(hash: Bytes -> Hash, rows: seq<DbRow>, nodes: map<Bytes, Bytes>, t: Trie)
    requires FromRows(rows, nodes) && Committable(hash, t) && AllKid(hash, Root(t), ClearIn(hash, rows))
    ensures AllKid(hash, Root(t), TrustedIn(hash, nodes, true))
  {
    hide FromRows, TrieBytes, Clear, Trusted;
    forall bytes | ClearIn(hash, rows)(bytes)
      ensures TrustedIn(hash, nodes, true)(bytes)
    {
      ClearTrusted(hash, rows, nodes, bytes);
    }
    AllDigestedImplies(hash, t, ClearIn(hash, rows), TrustedIn(hash, nodes, true));
  }

  /** The in-memory and the low-memory driver over one database. When both finish they give the same
      pairs in the same order. */
  method ExtractBothWays(hash: Bytes -> Hash, cols: seq<seq<DbRow>>, root: Hash, ghost t: Trie)
    returns (full: seq<(Bytes, Bytes)>, fullError: Option<WalkError>, lazy: seq<(Bytes, Bytes)>,
             lazyError: Option<WalkError>)
    requires forall c | 0 <= c < |cols| :: UniqueKeys(cols[c])
    requires Committable(hash, t) && Shaped(t) && root == hash(TrieBytes(hash, t))
    requires AllKid(hash, Root(t), ClearIn(hash, AllScanned(cols)))
    ensures fullError.None? && lazyError.None? ==> full == lazy
    ensures fullError.None? ==> forall key, value :: (key, value) in full <==> Lookup(t, Expand(key)) == Some(value)
    ensures lazyError.None? ==> forall key, value :: (key, value) in lazy <==> Lookup(t, Expand(key)) == Some(value)
  {
    hide UniqueKeys, Committable, Shaped, TrieBytes, AllKid, TableOf, IndexOf, FromRows, Lookup, Expand, LexLess;
    var names, nodes := LoadKeys(cols);
    TableFromRows(AllScanned(cols), nodes);
    RootTrusted(hash, AllScanned(cols), BytesTable(nodes), t);
    full, fullError := Walk(hash, BytesTable(nodes), root, true, t);

    var lazyNames, idx := BuildIndex(cols);
    assert names == lazyNames;
    LazyFromRows(cols, idx);
    RootTrusted(hash, AllScanned(cols), LazyTable(cols, idx), t);
    lazy, lazyError := Walk(hash, LazyTable(cols, idx), root, true, t);
  }

  // ------------------------------------------------------------------ historical roots

  /** The database form of a store row. */
  ghost predicate StoredAs(k: Bytes, stored: StoredRow, row: DbRow) {
    && Compactable(|stored.bytes|) && -0x8000_0000 <= stored.rc < 0x8000_0000
    && row == DbRow(FULL_PREFIX + k, EncodeRow(Row(stored.bytes, stored.rc as Count)))
  }

  /** The scanned node rows are exactly the rows of the store. */
  ghost predicate Mirrors(rows: seq<DbRow>, store: Rows) {
    && (forall k | k in store :: exists row | row in rows :: StoredAs(k, store[k], row))
    && (forall row | row in rows && IsNode(row) :: exists k | k in store :: StoredAs(k, store[k], row))
  }

  /** These bytes were inserted, under some prefix, during these operations. */
  ghost predicate InsertedBy(hash: Bytes -> Hash, ops: seq<StoreOp>, bytes: Bytes) {
    exists prefix :: Inserts(hash, ops, PrefixedKey(hash(bytes), prefix)) > 0
  }

  ghost predicate InsertedAndClear(hash: Bytes -> Hash, ops: seq<StoreOp>, rows: seq<DbRow>, bytes: Bytes) {
    InsertedBy(hash, ops, bytes) && Clear(hash, rows, bytes)
  }

  ghost function InsertedAndClearIn(hash: Bytes -> Hash, ops: seq<StoreOp>, rows: seq<DbRow>): Bytes -> bool {
    bytes => InsertedAndClear(hash, ops, rows, bytes)
  }

  lemma StoredAsNode(k: Bytes, stored: StoredRow, row: DbRow)
    requires StoredAs(k, stored, row) && |k| >= 32
    ensures IsNode(row) && Digest(row) == k[|k| - 32..] && Load(row.value).bytes == stored.bytes
  {
    hide EncodeRow, DecodeRow, Compactable;
    assert row.key[|FULL_PREFIX|..] == k;
    NamedAreShort(k);
    var r := Row(stored.bytes, stored.rc as Count);
    RowRoundTrip(r, []);
    ConcatNothing(EncodeRow(r));
  }

  lemma NamedAreShort(k: Bytes)
    requires |k| >= 32
    ensures k !in NAMED
  {
  }

  /** No row was removed that had never been inserted. It follows when no row is removed more often than inserted. */
  ghost predicate NoStrayRemove(hash: Bytes -> Hash, ops: seq<StoreOp>) {
    forall row :: Removes(hash, ops, row) > 0 ==> Inserts(hash, ops, row) > 0
  }

  lemma HeldIsClear(hash: Bytes -> Hash, ops: seq<StoreOp>, rows: seq<DbRow>, held: DbRow, bytes: Bytes)
    requires Addressed(hash, ops) && NoStrayRemove(hash, ops) && Mirrors(rows, Run(hash, ops))
             && Clear(hash, rows, bytes)
    requires held in rows && IsNode(held) && Digest(held) == hash(bytes)
    ensures Load(held.value).bytes == bytes
  {
    hide StoredAs, Load, IsNode, Digest, Run;
    var store := Run(hash, ops);
    var k :| k in store && StoredAs(k, store[k], held);
    RowHistory(hash, ops, k);
    StoredAsNode(k, store[k], held);
  }

  /** The table holds every byte string that was ever inserted. */
  lemma InsertedIsHeld(hash: Bytes -> Hash, earlier: seq<StoreOp>, later: seq<StoreOp>, rows: seq<DbRow>,
                       nodes: map<Bytes, Bytes>, bytes: Bytes)
    requires Addressed(hash, earlier + later) && NoStrayRemove(hash, earlier + later)
    requires Mirrors(rows, Run(hash, earlier + later)) && FromRows(rows, nodes)
    requires InsertedAndClear(hash, earlier, rows, bytes)
    ensures Holds(hash, nodes, bytes)
  {
    hide StoredAs, Load, IsNode, Digest, PrefixedKey, Run, Clear, NoStrayRemove;
    var ops := earlier + later;
    var store := Run(hash, ops);
    var prefix :| Inserts(hash, earlier, PrefixedKey(hash(bytes), prefix)) > 0;
    var k := PrefixedKey(hash(bytes), prefix);
    InsertsGrow(hash, earlier, later, k);
    RowHistory(hash, ops, k);
    var row :| row in rows && StoredAs(k, store[k], row);
    StoredAsNode(k, store[k], row);
    assert Filed(rows, hash(bytes));
    var held :| held in rows && IsNode(held) && Digest(held) == hash(bytes)
        && nodes[hash(bytes)] == Load(held.value).bytes;
    HeldIsClear(hash, ops, rows, held, bytes);
  }

  /** Every root whose nodes were inserted at some time can still be extracted after any later operations,
      with exactly that version's entries: the walk's condition holds for it. */
  lemma HistoricalRoot(hash: Bytes -> Hash, earlier: seq<StoreOp>, later: seq<StoreOp>, rows: seq<DbRow>,
                       nodes: map<Bytes, Bytes>, t: Trie)
    requires Addressed(hash, earlier + later) && NoStrayRemove(hash, earlier + later)
    requires Mirrors(rows, Run(hash, earlier + later)) && FromRows(rows, nodes)
    requires Committable(hash, t) && Shaped(t) && EvenKeys(Entries(t, []))
    requires AllKid(hash, Root(t), InsertedAndClearIn(hash, earlier, rows))
    ensures Extractable(hash, nodes, t) && AllKid(hash, Root(t), TrustedIn(hash, nodes, true))
  {
    hide FromRows, TrieBytes, Clear, Trusted, Holds, Mirrors, Addressed, NoStrayRemove, InsertedBy, Entries;
    var p, q, r := InsertedAndClearIn(hash, earlier, rows), HoldsIn(hash, nodes), TrustedIn(hash, nodes, true);
    forall bytes | p(bytes)
      ensures q(bytes) && r(bytes)
    {
      InsertedIsHeld(hash, earlier, later, rows, nodes, bytes);
      ClearTrusted(hash, rows, nodes, bytes);
    }
    AllDigestedImplies(hash, t, p, q);
    AllDigestedImplies(hash, t, p, r);
  }
}
