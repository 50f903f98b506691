/**
  The stored formats, byte by byte: what the readers make of given bytes, without going through
  an encoder.
 */
module Formats {
  import opened ByteStrings
  import opened Scale
  import opened NodeCodec
  import opened Decimals
  import opened Export

  // ------------------------------------------------------------------ SCALE

  lemma LeOfTwo(a: Byte, b: Byte)
    ensures LeNat([a, b]) == a + 256 * b
  {
    var two: Bytes, one: Bytes := [a, b], [b];
    assert two[1..] == one && one[1..] == [];
    assert LeNat(one) == b;
  }

  lemma LeOfFour(a: Byte, b: Byte, c: Byte, d: Byte)
    ensures LeNat([a, b, c, d]) == a + 256 * (b + 256 * (c + 256 * d))
  {
    assert [a, b, c, d][1..] == [b, c, d] && [b, c, d][1..] == [c, d];
    LeOfTwo(c, d);
  }

  /** The four modes of a compact integer by its two lowest bits: one, two and four bytes shifted by two, and a long
      form of given length. */
  lemma CompactModes(a: Byte, b: Byte, c: Byte, d: Byte, rest: Bytes)
    ensures a % 4 == 0 ==> Compact([a] + rest, 0) == Some(Parsed(a / 4, 1))
    ensures a % 4 == 1 ==> Compact([a, b] + rest, 0) == Some(Parsed((a + 256 * b) / 4, 2))
    ensures a % 4 == 2 ==> Compact([a, b, c, d] + rest, 0)
                           == Some(Parsed((a + 256 * (b + 256 * (c + 256 * d))) / 4, 4))
    ensures a % 4 == 3 && |rest| >= a / 4 + 4 ==>
              Compact([a] + rest, 0) == Some(Parsed(LeNat(rest[..a / 4 + 4]), a / 4 + 5))
  {
    hide LeNat;
    assert ([a, b] + rest)[0..2] == [a, b];
    LeOfTwo(a, b);
    assert ([a, b, c, d] + rest)[0..4] == [a, b, c, d];
    LeOfFour(a, b, c, d);
    if a % 4 == 3 && |rest| >= a / 4 + 4 {
      assert Slice([a] + rest, 1, 1 + (a / 4 + 4)) == rest[..a / 4 + 4];
    }
  }

  /** A row is a length, that many bytes, and a count as a signed 32-bit word. */
  lemma RowIs(len: Bytes, bytes: Bytes, count: Count, rest: Bytes, raw: Bytes)
    requires var word := if count >= 0 then count as int else count as int + 0x1_0000_0000;
             raw == len + (bytes + (LeBytes(word, 4) + rest))
    requires Compact(raw, 0) == Some(Parsed(|bytes|, |len|))
    ensures DecodeRow(raw) == Some(Row(bytes, count))
  {
    hide Compact, LeNat, LeBytes;
    var word: nat := if count >= 0 then count as int else count as int + 0x1_0000_0000;
    var tail := LeBytes(word, 4);
    assert raw[|len|..|len| + |bytes|] == bytes;
    assert raw[|len| + |bytes|..|len| + |bytes| + 4] == tail;
    Pow256Of2And4();
    LeRoundTrip(word, 4);
  }

  // ------------------------------------------------------------------ trie nodes

  /** The kind of a node by its first byte, and the number of its nibbles when the byte holds it. */
  lemma HeaderKinds(b: Byte, rest: Bytes)
    ensures var h := HeaderOf([b] + rest);
            && (b == 0 ==> h == Some(Header(EmptyKind, 0, 1)))
            && (1 <= b < 0x10 ==> h == None)
            && (0x10 <= b < 0x1F ==> h == Some(Header(BranchHashedKind, b - 0x10, 1)))
            && (0x20 <= b < 0x3F ==> h == Some(Header(LeafHashedKind, b - 0x20, 1)))
            && (0x40 <= b < 0x7F ==> h == Some(Header(LeafKind, b - 0x40, 1)))
            && (0x80 <= b < 0xBF ==> h == Some(Header(BranchKind, b - 0x80, 1)))
            && (0xC0 <= b < 0xFF ==> h == Some(Header(BranchValueKind, b - 0xC0, 1)))
    ensures b in {0x1F, 0x3F, 0x7F, 0xBF, 0xFF} && rest != [] && rest[0] < 255 ==>
              var h := HeaderOf([b] + rest);
              h.Some? && h.value.next == 2
              && h.value.nibbles - rest[0] == if b == 0x1F then 15 else if b == 0x3F then 31 else 63
  {
    var data := [b] + rest;
    assert data[0] == b;
    assert rest != [] ==> data[1] == rest[0];
  }

  /** A leaf of two nibbles and three bytes. */
  lemma LeafExample(data: Bytes)
    requires data == [0x42, 0x12, 0x0C, 7, 8, 9]
    ensures NodeOf(data) == Some(Leaf([1, 2], Inline([7, 8, 9])))
  {
    HeaderKinds(0x42, data[1..]);
    assert data == [0x42] + data[1..];
    hide HeaderOf;
    assert Slice(data, 1, 2) == [0x12] && [0x12][1..] == [];
    assert Expand([0x12]) == [1, 2];
    assert Slice(data, 3, 6) == [7, 8, 9];
  }

  /** A leaf of one nibble with its value behind a digest. */
  lemma HashedLeafExample(data: Bytes, digest: Bytes)
    requires |digest| == 32 && data == [0x21, 0x05] + digest
    ensures NodeOf(data) == Some(Leaf([5], Hashed(digest)))
  {
    HeaderKinds(0x21, data[1..]);
    assert data == [0x21] + data[1..];
    hide HeaderOf;
    var one: Bytes := [0x05];
    assert Slice(data, 1, 2) == one && one[1..] == [];
    assert Expand([]) == [] && [5] + [] == [5];
    assert PartialOf(data, 1, 1) == Some(Parsed([5], 2));
    hide PartialOf;
    assert Slice(data, 2, 34) == digest;
  }

  function NoChildren(n: nat): (s: seq<Option<ChildRef>>)
    ensures |s| == n && forall i | 0 <= i < n :: s[i] == None
  {
    seq(n, _ => None)
  }

  lemma {:induction false} NoneLeft(data: Bytes, pos: nat, n: nat)
    ensures ChildrenOf(data, pos, 0, n) == Some(NoChildren(n))
  {
    if n > 0 {
      NoneLeft(data, pos, n - 1);
      assert [None] + NoChildren(n - 1) == NoChildren(n);
    }
  }

  lemma SecondOnly(data: Bytes, pos: nat, digest: Bytes)
    requires ChildOf(data, pos) == Some(Parsed(HashRef(digest), pos + 33))
    ensures ChildrenOf(data, pos, 2, 16) == Some([None, Some(HashRef(digest))] + NoChildren(14))
  {
    hide ChildOf;
    NoneLeft(data, pos + 33, 14);
    assert ChildrenOf(data, pos, 1, 15) == Some([Some(HashRef(digest))] + NoChildren(14));
    assert [None] + ([Some(HashRef(digest))] + NoChildren(14)) == [None, Some(HashRef(digest))] + NoChildren(14);
  }

  /** A branch without nibbles or a value, with a child behind a digest in its second slot. */
  lemma BranchExample(data: Bytes, digest: Bytes)
    requires |digest| == 32 && data == [0x80, 0x02, 0x00, 0x80] + digest
    ensures NodeOf(data) == Some(Branch([], None, [None, Some(HashRef(digest))] + NoChildren(14)))
  {
    HeaderKinds(0x80, data[1..]);
    assert data == [0x80] + data[1..];
    assert data[1..3] == [2, 0];
    LeOfTwo(2, 0);
    assert Slice(data, 1, 1) == [];
    assert Slice(data, 4, 36) == digest;
    assert ChildOf(data, 3) == Some(Parsed(HashRef(digest), 36));
    hide HeaderOf, ChildOf, LeNat, Slice, ChildrenOf;
    SecondOnly(data, 3, digest);
  }

  // ------------------------------------------------------------------ balances

  /** A decimal is four words: the flags with the scale in the third byte and the sign in the highest bit, then the
      high, the low and the middle word of the mantissa. */
  lemma DecimalIs(neg: bool, scale: nat, hi: nat, lo: nat, mid: nat, rest: Bytes)
    requires scale < 256 && hi < 0x1_0000_0000 && lo < 0x1_0000_0000 && mid < 0x1_0000_0000
    ensures var flags := [0, 0, scale, if neg then 0x80 else 0];
            var data := flags + (LeBytes(hi, 4) + (LeBytes(lo, 4) + (LeBytes(mid, 4) + rest)));
            var mant := (hi * 0x1_0000_0000 + mid) * 0x1_0000_0000 + lo;
            DecodeDecimal(data, 0)
            == if scale <= 28 then Some(Parsed(Decimal(neg && mant != 0, mant, scale), 16)) else None
  {
    var flags: Bytes := [0, 0, scale, if neg then 0x80 else 0];
    var h, l, m := LeBytes(hi, 4), LeBytes(lo, 4), LeBytes(mid, 4);
    var data := flags + (h + (l + (m + rest)));
    FlagsAre(neg, scale);
    hide LeNat, LeBytes, At, DecodeDecimal;
    FourWords(flags, h, l, m, rest);
    WordRoundTrip(data, 4, hi);
    WordRoundTrip(data, 8, lo);
    WordRoundTrip(data, 12, mid);
    WordsAre(data, LeNat(flags), hi, lo, mid);
  }

  lemma FlagsAre(neg: bool, scale: nat)
    requires scale < 256
    ensures var word := LeNat([0, 0, scale, if neg then 0x80 else 0]);
            word / 0x1_0000 % 0x100 == scale && (word / 0x8000_0000 == 1 <==> neg)
  {
    LeOfFour(0, 0, scale, if neg then 0x80 else 0);
    hide LeNat;
  }

  lemma WordsAre(data: Bytes, flags: nat, hi: nat, lo: nat, mid: nat)
    requires |data| >= 16 && Word(data, 0) == flags && Word(data, 4) == hi && Word(data, 8) == lo
             && Word(data, 12) == mid
    ensures var mant, scale := (hi * 0x1_0000_0000 + mid) * 0x1_0000_0000 + lo, flags / 0x1_0000 % 0x100;
            DecodeDecimal(data, 0)
            == if scale <= 28 then Some(Parsed(Decimal(flags / 0x8000_0000 == 1 && mant != 0, mant, scale), 16))
               else None
  {
    hide Word;
  }

  lemma FourWords(f: Bytes, h: Bytes, l: Bytes, m: Bytes, rest: Bytes)
    requires |f| == 4 && |h| == 4 && |l| == 4 && |m| == 4
    ensures var data := f + (h + (l + (m + rest)));
            |data| >= 16 && data[0..4] == f && At(data, 4, h) && At(data, 8, l) && At(data, 12, m)
  {
    var data := f + (h + (l + (m + rest)));
    assert data[0..4] == f && data[4..8] == h && data[8..12] == l && data[12..16] == m;
  }

  /** Printed with the point before the last digits, without trailing zeros. */
  lemma FormatExamples(d: Decimal, small: Decimal, whole: Decimal)
    requires d == Decimal(true, 12500, 3) && small == Decimal(false, 7, 2) && whole == Decimal(false, 1200, 2)
    ensures FormatDecimal(d) == "-12.5" && FormatDecimal(small) == "0.07" && FormatDecimal(whole) == "12"
  {
    hide FormatDecimal;
    FormatIsTrimmed(d);
    FormatIsTrimmed(small);
    FormatIsTrimmed(whole);
    assert Trim(125, 1) == (125, 1) && Trim(1250, 2) == (125, 1) && Trim(d.mant, d.scale) == (125, 1);
    assert Trim(12, 0) == (12, 0) && Trim(120, 1) == (12, 0) && Trim(whole.mant, whole.scale) == (12, 0);
    assert Trim(small.mant, small.scale) == (7, 2);
    hide Trim;
    assert Digits(1) == "1" && Digits(12) == "12" && Digits(0) == "0";
    hide Digits;
    assert Pointed(12, 0) == "12." && Pointed(125, 1) == "12.5";
    assert Pointed(0, 0) == "0." && Pointed(0, 1) == "0.0" && Pointed(7, 2) == "0.07";
  }

  /** An asset id is a tag: zero before sixteen bytes of a number, one for the native asset, and no other. */
  lemma AssetIdIs(id: nat, tag: Byte, rest: Bytes)
    requires id < Pow(256, 16)
    ensures DecodeAssetId([0] + (LeBytes(id, 16) + rest), 0) == Some(Parsed(Asset(id), 17))
    ensures DecodeAssetId([1] + rest, 0) == Some(Parsed(Pdex, 1))
    ensures tag > 1 ==> DecodeAssetId([tag] + rest, 0) == None
  {
    hide LeNat, LeBytes, Pow;
    LeRoundTrip(id, 16);
    assert Slice([0] + (LeBytes(id, 16) + rest), 1, 17) == LeBytes(id, 16);
  }

  /** The state info is four words, the first of four bytes and the others of eight. */
  lemma StateInfoIs(lastBlock: nat, workerNonce: nat, stid: nat, snapshotId: nat, rest: Bytes)
    requires lastBlock < Pow(256, 4) && workerNonce < Pow(256, 8) && stid < Pow(256, 8) && snapshotId < Pow(256, 8)
    ensures DecodeStateInfo(LeBytes(lastBlock, 4) + (LeBytes(workerNonce, 8) + (LeBytes(stid, 8)
                            + (LeBytes(snapshotId, 8) + rest))))
            == Some(StateInfo(lastBlock, workerNonce, stid, snapshotId))
  {
    hide LeNat, LeBytes, Pow;
    var a, b, c, d := LeBytes(lastBlock, 4), LeBytes(workerNonce, 8), LeBytes(stid, 8), LeBytes(snapshotId, 8);
    var data := a + (b + (c + (d + rest)));
    assert data[..4] == a && data[4..12] == b && data[12..20] == c && data[20..28] == d;
    LeRoundTrip(lastBlock, 4);
    LeRoundTrip(workerNonce, 8);
    LeRoundTrip(stid, 8);
    LeRoundTrip(snapshotId, 8);
  }
}
