/**
  The SCALE encodings the ledger is stored in: compact integers and the (bytes, refcount)
  rows of the node store.
 */
module Scale {
  import opened ByteStrings

  datatype Parsed<+T> = Parsed(value: T, next: nat)

  /** SCALE compact integers have at most 67 bytes in the long form. */
  ghost predicate Compactable(n: nat) {
    ByteLen(n) <= 67
  }

  /** Bytes needed to write n; zero needs none. */
  function ByteLen(n: nat): (len: nat)
    ensures n < Pow(256, len)
    ensures len > 0 ==> Pow(256, len - 1) <= n
  {
    if n == 0 then 0 else
      var rest := ByteLen(n / 256);
      1 + rest
  }

  /** Reads a compact integer at `pos`. None where the reader raises. */
  function Compact(data: Bytes, pos: nat): (r: Option<Parsed<nat>>) {
    if |data| <= pos then None else
    var mode := data[pos] % 4;
    if mode == 0 then Some(Parsed(data[pos] / 4, pos + 1))
    else if mode == 1 then
      if |data| < pos + 2 then None else Some(Parsed(LeNat(data[pos..pos + 2]) / 4, pos + 2))
    else if mode == 2 then
      if |data| < pos + 4 then None else Some(Parsed(LeNat(data[pos..pos + 4]) / 4, pos + 4))
    else
      var n := data[pos] / 4 + 4;
      Some(Parsed(LeNat(Slice(data, pos + 1, pos + 1 + n)), pos + 1 + n))
  }

  /** Writes a compact integer in its shortest form. */
  function EncodeCompact(n: nat): (s: Bytes)
    requires Compactable(n)
    ensures s != []
  {
    if n < 0x40 then [4 * n]
    else if n < 0x4000 then LeBytes(4 * n + 1, 2)
    else if n < 0x4000_0000 then LeBytes(4 * n + 2, 4)
    else
      ByteLenBounds(n);
      [4 * (ByteLen(n) - 4) + 3] + LeBytes(n, ByteLen(n))
  }

  lemma PowMonotone(base: nat, i: nat, j: nat)
    requires base >= 1 && i <= j
    ensures 1 <= Pow(base, i) <= Pow(base, j)
  {
  }

  lemma ByteLenBounds(n: nat)
    requires 0x4000_0000 <= n && Compactable(n)
    ensures 4 <= ByteLen(n) <= 67
  {
    var len := ByteLen(n);
    assert Pow(256, 3) == 0x100_0000;
    if len < 4 {
      PowMonotone(256, len, 3);
    }
  }

  lemma Pow256Of2And4()
    ensures Pow(256, 2) == 0x1_0000 && Pow(256, 4) == 0x1_0000_0000
  {
    assert Pow(256, 2) == 0x1_0000;
  }

  /** A number written in `width` bytes with the mode in its low two bits. */
  lemma TaggedRoundTrip(data: Bytes, pos: nat, n: nat, mode: nat, width: nat)
    requires mode < 4 && width > 0 && 4 * n + mode < Pow(256, width)
    requires At(data, pos, LeBytes(4 * n + mode, width))
    ensures pos + width <= |data| && data[pos] % 4 == mode && LeNat(data[pos..pos + width]) / 4 == n
  {
    hide At, LeNat;
    var part := LeBytes(4 * n + mode, width);
    LeRoundTrip(4 * n + mode, width);
    AtHead(data, pos, part);
    SliceAt(data, pos, part);
  }

  lemma LongCompact(data: Bytes, pos: nat, digits: Bytes)
    requires 4 <= |digits| <= 67 && pos < |data| && data[pos] == 4 * (|digits| - 4) + 3 && At(data, pos + 1, digits)
    ensures Compact(data, pos) == Some(Parsed(LeNat(digits), pos + 1 + |digits|))
  {
    hide LeNat, At, Slice;
    var k := |digits| - 4;
    assert data[pos] % 4 == 3 && data[pos] / 4 == k;
    SliceAt(data, pos + 1, digits);
  }

  lemma LongRoundTrip(data: Bytes, pos: nat, n: nat)
    requires 0x4000_0000 <= n && Compactable(n) && At(data, pos, EncodeCompact(n))
    ensures Compact(data, pos) == Some(Parsed(n, pos + |EncodeCompact(n)|))
  {
    hide At, ByteLen, LeNat, LeBytes, Compact;
    ByteLenBounds(n);
    var digits := LeBytes(n, ByteLen(n));
    LeRoundTrip(n, ByteLen(n));
    AtConcat(data, pos, [4 * (|digits| - 4) + 3], digits);
    AtHead(data, pos, [4 * (|digits| - 4) + 3]);
    LongCompact(data, pos, digits);
  }

  /** Reading back a compact integer, wherever it stands, gives the integer and the place after it. */
  lemma CompactRoundTrip(data: Bytes, pos: nat, n: nat)
    requires Compactable(n) && At(data, pos, EncodeCompact(n))
    ensures Compact(data, pos) == Some(Parsed(n, pos + |EncodeCompact(n)|))
  {
    hide At, LeNat, LeBytes, ByteLen;
    AtHead(data, pos, EncodeCompact(n));
    if n < 0x40 {
    } else if n < 0x4000_0000 {
      Pow256Of2And4();
      if n < 0x4000 {
        TaggedRoundTrip(data, pos, n, 1, 2);
      } else {
        TaggedRoundTrip(data, pos, n, 2, 4);
      }
    } else {
      LongRoundTrip(data, pos, n);
    }
  }

  // Rows of the node store: a byte string followed by a signed 32-bit count

  newtype Count = c: int | -0x8000_0000 <= c < 0x8000_0000

  datatype Row = Row(bytes: Bytes, count: Count)

  function CountOf(word: nat): Count
    requires word < 0x1_0000_0000
  {
    (if word < 0x8000_0000 then word else word - 0x1_0000_0000) as Count
  }

  function WordOf(c: Count): nat {
    if c >= 0 then c as int else c as int + 0x1_0000_0000
  }

  /** Reads a stored row. None where the reader raises. */
  function DecodeRow(raw: Bytes): (r: Option<Row>) {
    var len :- Compact(raw, 0);
    var end := len.next + len.value;
    if |raw| < end + 4 then None else
      LeBound(raw[end..end + 4]);
      Pow256Of2And4();
      Some(Row(raw[len.next..end], CountOf(LeNat(raw[end..end + 4]))))
  }

  lemma LeBound(s: Bytes)
    ensures LeNat(s) < Pow(256, |s|)
  {
  }

  function EncodeRow(row: Row): Bytes
    requires Compactable(|row.bytes|)
  {
    EncodeCompact(|row.bytes|) + (row.bytes + LeBytes(WordOf(row.count), 4))
  }

  lemma RowAt(raw: Bytes, row: Row)
    requires Compactable(|row.bytes|) && At(raw, 0, EncodeRow(row))
    ensures DecodeRow(raw) == Some(row)
  {
    hide At, Slice, EncodeCompact, Compact, LeNat, LeBytes;
    var head := EncodeCompact(|row.bytes|);
    var tail := LeBytes(WordOf(row.count), 4);
    AtConcat(raw, 0, head, row.bytes + tail);
    AtConcat(raw, |head|, row.bytes, tail);
    CompactRoundTrip(raw, 0, |row.bytes|);
    Pow256Of2And4();
    LeRoundTrip(WordOf(row.count), 4);
    SliceAt(raw, |head|, row.bytes);
    SliceAt(raw, |head| + |row.bytes|, tail);
  }

  /** A row reads back as it was written, whatever follows it. */
  lemma RowRoundTrip(row: Row, rest: Bytes)
    requires Compactable(|row.bytes|)
    ensures DecodeRow(EncodeRow(row) + rest) == Some(row)
  {
    hide At, EncodeRow, DecodeRow;
    AtStart(EncodeRow(row), rest);
    RowAt(EncodeRow(row) + rest, row);
  }
}
