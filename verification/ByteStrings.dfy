/**
  Byte strings as the ledger tools handle them: slices that stop at the end of the data,
  little-endian numbers, and keys written as nibbles.
 */
module ByteStrings {

  datatype Option<+T> = None | Some(value: T) {
    predicate IsFailure() {
      None?
    }

    function PropagateFailure<U>(): Option<U>
      requires None?
    {
      None
    }

    function Extract(): T
      requires Some?
    {
      value
    }
  }

  type Byte = b: int | 0 <= b < 256
  type Nibble = n: int | 0 <= n < 16
  type Bytes = seq<Byte>
  type Nibbles = seq<Nibble>

  /** A 32-byte digest. */
  type Hash = h: Bytes | |h| == 32 witness seq(32, _ => 0)

  /** `data[lo:hi]`, which is cut short rather than refused when the data ends early. */
  function Slice(data: Bytes, lo: nat, hi: nat): Bytes
    requires lo <= hi
  {
    if |data| <= lo then [] else if |data| <= hi then data[lo..] else data[lo..hi]
  }

  lemma ConcatAssociates<T>(a: seq<T>, b: seq<T>, c: seq<T>)
    ensures (a + b) + c == a + (b + c)
  {
  }

  lemma ConcatNothing<T>(a: seq<T>)
    ensures [] + a == a && a + [] == a
  {
  }

  /** `part` occurs in `data` at position `pos`. */
  predicate At(data: Bytes, pos: nat, part: Bytes) {
    pos + |part| <= |data| && data[pos..pos + |part|] == part
  }

  lemma AtConcat(data: Bytes, pos: nat, a: Bytes, b: Bytes)
    ensures At(data, pos, a + b) <==> At(data, pos, a) && At(data, pos + |a|, b)
  {
    if At(data, pos, a + b) {
      var part := data[pos..pos + |a + b|];
      assert data[pos..pos + |a|] == part[..|a|] == a;
      assert data[pos + |a|..pos + |a| + |b|] == part[|a|..] == b;
    }
    if At(data, pos, a) && At(data, pos + |a|, b) {
      assert data[pos..pos + |a + b|] == data[pos..pos + |a|] + data[pos + |a|..pos + |a| + |b|];
    }
  }

  lemma AtStart(part: Bytes, rest: Bytes)
    ensures At(part + rest, 0, part)
  {
    assert (part + rest)[0..|part|] == part;
  }

  lemma AtHead(data: Bytes, pos: nat, part: Bytes)
    requires part != [] && At(data, pos, part)
    ensures pos < |data| && data[pos] == part[0]
  {
    assert data[pos] == data[pos..pos + |part|][0];
  }

  lemma SliceAt(data: Bytes, pos: nat, part: Bytes)
    requires At(data, pos, part)
    ensures Slice(data, pos, pos + |part|) == part
    ensures pos + |part| <= |data| && data[pos..pos + |part|] == part
  {
  }

  // Little-endian numbers

  function LeNat(s: Bytes): nat {
    if s == [] then 0 else s[0] + 256 * LeNat(s[1..])
  }

  function LeBytes(n: nat, width: nat): (s: Bytes)
    ensures |s| == width
  {
    if width == 0 then [] else [n % 256] + LeBytes(n / 256, width - 1)
  }

  function Pow(base: nat, exponent: nat): nat {
    if exponent == 0 then 1 else base * Pow(base, exponent - 1)
  }

  lemma {:induction false} LeRoundTrip(n: nat, width: nat)
    requires n < Pow(256, width)
    ensures LeNat(LeBytes(n, width)) == n
  {
    if width > 0 {
      LeRoundTrip(n / 256, width - 1);
      assert LeBytes(n, width)[1..] == LeBytes(n / 256, width - 1);
    }
  }

  // Keys as nibbles

  /** The nibbles of a byte string, high nibble first. */
  function Expand(s: Bytes): (ns: Nibbles)
    ensures |ns| == 2 * |s|
  {
    if s == [] then [] else [s[0] / 16, s[0] % 16] + Expand(s[1..])
  }

  /** The byte string of an even number of nibbles. */
  function Pack(ns: Nibbles): (s: Bytes)
    requires |ns| % 2 == 0
    ensures 2 * |s| == |ns|
  {
    if ns == [] then [] else
      var high: int := ns[0];
      [16 * high + ns[1]] + Pack(ns[2..])
  }

  lemma {:induction false} ExpandPack(ns: Nibbles)
    requires |ns| % 2 == 0
    ensures Expand(Pack(ns)) == ns
  {
    if ns != [] {
      ExpandPack(ns[2..]);
      assert Pack(ns)[1..] == Pack(ns[2..]);
      assert ns == [ns[0], ns[1]] + ns[2..];
    }
  }

  lemma {:induction false} PackExpand(s: Bytes)
    ensures Pack(Expand(s)) == s
  {
    if s != [] {
      PackExpand(s[1..]);
      assert Expand(s)[2..] == Expand(s[1..]);
    }
  }

  // Lexicographic order

  predicate LexLess(a: Nibbles, b: Nibbles) {
    b != [] && (a == [] || a[0] < b[0] || (a[0] == b[0] && LexLess(a[1..], b[1..])))
  }

  lemma {:induction false} LexCommonPrefix(p: Nibbles, a: Nibbles, b: Nibbles)
    ensures LexLess(p + a, p + b) <==> LexLess(a, b)
  {
    if p == [] {
      assert p + a == a && p + b == b;
    } else {
      LexCommonPrefix(p[1..], a, b);
      assert (p + a)[1..] == p[1..] + a && (p + b)[1..] == p[1..] + b;
    }
  }

  lemma {:induction false} LexIrreflexive(a: Nibbles)
    ensures !LexLess(a, a)
  {
    if a != [] {
      LexIrreflexive(a[1..]);
    }
  }
}
