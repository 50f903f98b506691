/**
  The reference-counted, content-addressed store behind the off-chain trie. Rows are counted
  up and down but never deleted, so what was once inserted stays on disk.
 */
module NodeStore {
  import opened ByteStrings

  datatype Prefix = Prefix(path: Bytes, padding: Option<Byte>)

  datatype StoredRow = StoredRow(bytes: Bytes, rc: int)

  type Rows = map<Bytes, StoredRow>

  const NULL_NODE: Bytes := [0]

  function PrefixedKey(key: Hash, prefix: Prefix): (row: Bytes)
    ensures |row| == |prefix.path| + (if prefix.padding.Some? then 33 else 32) && row[|row| - 32..] == key
    ensures prefix.path <= row && (prefix.padding.Some? ==> row[|prefix.path|] == prefix.padding.value)
  {
    prefix.path + (if prefix.padding.Some? then [prefix.padding.value] else []) + key
  }

  datatype StoreOp =
    | Insert(prefix: Prefix, value: Bytes)
    | Emplace(key: Hash, prefix: Prefix, value: Bytes)
    | Remove(key: Hash, prefix: Prefix)

  // ------------------------------------------------------------------ what an operation does to the rows

  function Added(rows: Rows, row: Bytes, value: Bytes): Rows {
    if row in rows then
      var now := rows[row];
      rows[row := StoredRow(if now.rc <= 0 then value else now.bytes, now.rc + 1)]
    else rows[row := StoredRow(value, 1)]
  }

  function Dropped(rows: Rows, row: Bytes): Rows {
    if row in rows then rows[row := rows[row].(rc := rows[row].rc - 1)]
    else rows[row := StoredRow([], -1)]
  }

  function After(hash: Bytes -> Hash, rows: Rows, op: StoreOp): Rows {
    match op
    case Insert(prefix, value) =>
      if value == NULL_NODE then rows else Added(rows, PrefixedKey(hash(value), prefix), value)
    case Emplace(key, prefix, value) =>
      if value == NULL_NODE then rows else Added(rows, PrefixedKey(key, prefix), value)
    case Remove(key, prefix) =>
      if key == hash(NULL_NODE) then rows else Dropped(rows, PrefixedKey(key, prefix))
  }

  function Readable(hash: Bytes -> Hash, rows: Rows, key: Hash, prefix: Prefix): Option<Bytes> {
    if key == hash(NULL_NODE) then Some(NULL_NODE)
    else
      var row := PrefixedKey(key, prefix);
      if row in rows && rows[row].rc > 0 then Some(rows[row].bytes) else None
  }

  class State {
    const hash: Bytes -> Hash
    var rows: Rows

    constructor (hash: Bytes -> Hash)
      ensures rows == map[] && this.hash == hash
    {
      this.hash := hash;
      rows := map[];
    }

    method Get(key: Hash, prefix: Prefix) returns (r: Option<Bytes>)
      ensures r == Readable(hash, rows, key, prefix)
    {
      if key == hash(NULL_NODE) {
        return Some(NULL_NODE);
      }
      var row := PrefixedKey(key, prefix);
      if row in rows && rows[row].rc > 0 {
        return Some(rows[row].bytes);
      }
      return None;
    }

    method Contains(key: Hash, prefix: Prefix) returns (r: bool)
      ensures r == Readable(hash, rows, key, prefix).Some?
    {
      if key == hash(NULL_NODE) {
        return true;
      }
      var row := PrefixedKey(key, prefix);
      return row in rows && rows[row].rc > 0;
    }

    method InsertValue(prefix: Prefix, value: Bytes) returns (key: Hash)
      modifies this
      ensures key == hash(value)
      ensures rows == After(hash, old(rows), Insert(prefix, value))
    {
      if value == NULL_NODE {
        return hash(NULL_NODE);
      }
      key := hash(value);
      EmplaceValue(key, prefix, value);
    }

    method EmplaceValue(key: Hash, prefix: Prefix, value: Bytes)
      modifies this
      ensures rows == After(hash, old(rows), Emplace(key, prefix, value))
    {
      if value == NULL_NODE {
        return;
      }
      var row := PrefixedKey(key, prefix);
      if row in rows {
        var oldValue, rc := rows[row].bytes, rows[row].rc;
        if rc <= 0 {
          oldValue := value;
        }
        rc := rc + 1;
        rows := rows[row := StoredRow(oldValue, rc)];
      } else {
        rows := rows[row := StoredRow(value, 1)];
      }
    }

    method RemoveValue(key: Hash, prefix: Prefix)
      modifies this
      ensures rows == After(hash, old(rows), Remove(key, prefix))
    {
      if key == hash(NULL_NODE) {
        return;
      }
      var row := PrefixedKey(key, prefix);
      if row in rows {
        rows := rows[row := StoredRow(rows[row].bytes, rows[row].rc - 1)];
      } else {
        rows := rows[row := StoredRow([], -1)];
      }
    }
  }

  // ------------------------------------------------------------------ counting, from the operations alone

  /** The operation inserts under this row. */
  predicate InsertsAt(hash: Bytes -> Hash, op: StoreOp, row: Bytes) {
    match op
    case Insert(prefix, value) => value != NULL_NODE && PrefixedKey(hash(value), prefix) == row
    case Emplace(key, prefix, value) => value != NULL_NODE && PrefixedKey(key, prefix) == row
    case Remove(_, _) => false
  }

  predicate RemovesAt(hash: Bytes -> Hash, op: StoreOp, row: Bytes) {
    op.Remove? && op.key != hash(NULL_NODE) && PrefixedKey(op.key, op.prefix) == row
  }

  function Inserts(hash: Bytes -> Hash, ops: seq<StoreOp>, row: Bytes): nat {
    if ops == [] then 0
    else Inserts(hash, ops[..|ops| - 1], row) + (if InsertsAt(hash, ops[|ops| - 1], row) then 1 else 0)
  }

  function Removes(hash: Bytes -> Hash, ops: seq<StoreOp>, row: Bytes): nat {
    if ops == [] then 0
    else Removes(hash, ops[..|ops| - 1], row) + (if RemovesAt(hash, ops[|ops| - 1], row) then 1 else 0)
  }

  function Run(hash: Bytes -> Hash, ops: seq<StoreOp>): Rows {
    if ops == [] then map[] else After(hash, Run(hash, ops[..|ops| - 1]), ops[|ops| - 1])
  }

  /** Values are emplaced under their own digest. */
  ghost predicate Addressed(hash: Bytes -> Hash, ops: seq<StoreOp>) {
    forall i | 0 <= i < |ops| :: ops[i].Emplace? ==> ops[i].key == hash(ops[i].value)
  }

  /** Over any run: a row's count is its inserts minus its removes, and once inserted a row holds
      bytes with the digest that ends its key, whatever is removed before or after. */
  lemma {:induction false} RowHistory(hash: Bytes -> Hash, ops: seq<StoreOp>, row: Bytes)
    requires Addressed(hash, ops)
    ensures var rows, ins, rem := Run(hash, ops), Inserts(hash, ops, row), Removes(hash, ops, row);
            && (row in rows <==> ins + rem > 0)
            && (row in rows ==> rows[row].rc == ins - rem)
            && (ins > 0 ==> |row| >= 32 && hash(rows[row].bytes) == row[|row| - 32..])
            && (ins == 0 && row in rows ==> rows[row].rc < 0 && rows[row].bytes == [])
            && ins + rem <= |ops|
  {
    hide PrefixedKey;
    if ops != [] {
      var before := ops[..|ops| - 1];
      assert Addressed(hash, before);
      RowHistory(hash, before, row);
    }
  }

  /** A node is readable exactly while it has been inserted more often than removed, and then gives
      bytes with the digest asked for. */
  lemma ReadableHistory(hash: Bytes -> Hash, ops: seq<StoreOp>, key: Hash, prefix: Prefix)
    requires Addressed(hash, ops)
    ensures var r, row := Readable(hash, Run(hash, ops), key, prefix), PrefixedKey(key, prefix);
            && (r.Some? <==> key == hash(NULL_NODE) || Inserts(hash, ops, row) > Removes(hash, ops, row))
            && (r.Some? ==> hash(r.value) == key)
  {
    RowHistory(hash, ops, PrefixedKey(key, prefix));
  }

  /** Every row holds bytes with the digest that ends its key, unless it was removed and never inserted:
      such a row is left holding nothing. */
  lemma RowsHoldTheirDigest(hash: Bytes -> Hash, ops: seq<StoreOp>, row: Bytes)
    requires Addressed(hash, ops) && row in Run(hash, ops) && |row| >= 32
    ensures hash(Run(hash, ops)[row].bytes) == row[|row| - 32..]
            <==> Inserts(hash, ops, row) > 0 || hash([]) == row[|row| - 32..]
  {
    RowHistory(hash, ops, row);
  }

  /** With fewer than 2^31 operations no count leaves the signed 32-bit range. */
  lemma CountsFit(hash: Bytes -> Hash, ops: seq<StoreOp>, row: Bytes)
    requires Addressed(hash, ops) && |ops| < 0x8000_0000 && row in Run(hash, ops)
    ensures -0x8000_0000 < Run(hash, ops)[row].rc < 0x8000_0000
  {
    RowHistory(hash, ops, row);
  }

  lemma {:induction false} InsertsGrow(hash: Bytes -> Hash, ops: seq<StoreOp>, more: seq<StoreOp>, row: Bytes)
    ensures Inserts(hash, ops, row) <= Inserts(hash, ops + more, row)
    decreases |more|
  {
    if more == [] {
      assert ops + more == ops;
    } else {
      InsertsGrow(hash, ops, more[..|more| - 1], row);
      assert (ops + more)[..|ops + more| - 1] == ops + more[..|more| - 1];
    }
  }
}
