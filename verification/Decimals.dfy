/**
  Balances as the ledger stores and prints them: sign, 96-bit mantissa and decimal scale.
 */
module Decimals {
  import opened ByteStrings
  import opened Scale

  const MAX_SCALE := 28
  const MANTISSA_END := 0x1_0000_0000_0000_0000_0000_0000

  datatype Decimal = Decimal(neg: bool, mant: nat, scale: nat) {
    /** What the reader can produce: no negative zero, a 96-bit mantissa, at most 28 decimals. */
    predicate Valid() {
      mant < MANTISSA_END && scale <= MAX_SCALE && (neg ==> mant != 0)
    }
  }

  // ------------------------------------------------------------------ the stored form

  function Word(data: Bytes, pos: nat): (w: nat)
    requires pos + 4 <= |data|
    ensures w < 0x1_0000_0000
  {
    LeBound(data[pos..pos + 4]);
    Pow256Of2And4();
    LeNat(data[pos..pos + 4])
  }

  /** Reads four words: flags, then the mantissa as high, low and middle word. None where the reader raises. */
  function DecodeDecimal(data: Bytes, pos: nat): (r: Option<Parsed<Decimal>>)
    ensures r.Some? ==> r.value.value.Valid() && r.value.next == pos + 16
  {
    if |data| < pos + 16 then None else
    var flags, hi, lo, mid := Word(data, pos), Word(data, pos + 4), Word(data, pos + 8), Word(data, pos + 12);
    var mant := hi * 0x1_0000_0000_0000_0000 + mid * 0x1_0000_0000 + lo;
    var scale := flags / 0x1_0000 % 0x100;
    if scale > MAX_SCALE then None
    else Some(Parsed(Decimal(flags / 0x8000_0000 == 1 && mant != 0, mant, scale), pos + 16))
  }

  function EncodeDecimal(neg: bool, mant: nat, scale: nat): Bytes
    requires mant < MANTISSA_END && scale <= MAX_SCALE
  {
    LeBytes(scale * 0x1_0000 + (if neg then 0x8000_0000 else 0), 4) +
    (LeBytes(mant / 0x1_0000_0000_0000_0000, 4) +
     (LeBytes(mant % 0x1_0000_0000, 4) + LeBytes(mant / 0x1_0000_0000 % 0x1_0000_0000, 4)))
  }

  lemma WordRoundTrip(data: Bytes, pos: nat, w: nat)
    requires w < 0x1_0000_0000 && At(data, pos, LeBytes(w, 4))
    ensures pos + 4 <= |data| && Word(data, pos) == w
  {
    hide LeNat, LeBytes, At;
    Pow256Of2And4();
    LeRoundTrip(w, 4);
    SliceAt(data, pos, LeBytes(w, 4));
  }

  /** A stored balance reads back as itself; a stored negative zero reads back as zero. */
  lemma DecimalRoundTrip(data: Bytes, pos: nat, neg: bool, mant: nat, scale: nat)
    requires mant < MANTISSA_END && scale <= MAX_SCALE && At(data, pos, EncodeDecimal(neg, mant, scale))
    ensures DecodeDecimal(data, pos) == Some(Parsed(Decimal(neg && mant != 0, mant, scale), pos + 16))
  {
    hide At, LeBytes, Word;
    var flags := scale * 0x1_0000 + (if neg then 0x8000_0000 else 0);
    var hi, lo, mid := mant / 0x1_0000_0000_0000_0000, mant % 0x1_0000_0000, mant / 0x1_0000_0000 % 0x1_0000_0000;
    var w0, w1, w2, w3 := LeBytes(flags, 4), LeBytes(hi, 4), LeBytes(lo, 4), LeBytes(mid, 4);
    AtConcat(data, pos, w0, w1 + (w2 + w3));
    AtConcat(data, pos + 4, w1, w2 + w3);
    AtConcat(data, pos + 8, w2, w3);
    WordRoundTrip(data, pos, flags);
    WordRoundTrip(data, pos + 4, hi);
    WordRoundTrip(data, pos + 8, lo);
    WordRoundTrip(data, pos + 12, mid);
  }

  // ------------------------------------------------------------------ the printed form

  function Digit(n: nat): char
    requires n < 10
  {
    '0' + n as char
  }

  /** The digits of a number, without leading zeros. */
  function Digits(n: nat): (s: string)
    ensures s != []
  {
    if n < 10 then [Digit(n)] else Digits(n / 10) + [Digit(n % 10)]
  }

  /** The digits with a point before the last `scale` of them and at least one before the point. */
  function Pointed(mant: nat, scale: nat): string {
    if scale == 0 then Digits(mant) + "." else Pointed(mant / 10, scale - 1) + [Digit(mant % 10)]
  }

  /** Plain notation, as `format(d, "f")` writes it. */
  function Plain(mant: nat, scale: nat): string {
    if scale == 0 then Digits(mant) else Pointed(mant, scale)
  }

  /** Removes every trailing c. */
  function RStrip(s: string, c: char): string {
    if s != [] && s[|s| - 1] == c then RStrip(s[..|s| - 1], c) else s
  }

  function FormatDecimal(d: Decimal): string {
    var s := (if d.neg then "-" else "") + Plain(d.mant, d.scale);
    if '.' in s then RStrip(RStrip(s, '0'), '.') else s
  }

  // ------------------------------------------------------------------ the value

  /** The same number in lowest terms: no trailing zero after the point. */
  function Trim(mant: nat, scale: nat): (nat, nat) {
    if scale > 0 && mant % 10 == 0 then Trim(mant / 10, scale - 1) else (mant, scale)
  }

  /** m / 10^s and n / 10^r are the same number. */
  ghost predicate SameRatio(m: nat, s: nat, n: nat, r: nat) {
    m * Pow(10, r) == n * Pow(10, s)
  }

  ghost predicate SameValue(a: Decimal, b: Decimal) {
    a.neg == b.neg && SameRatio(a.mant, a.scale, b.mant, b.scale)
  }

  // What the printed form reads as

  datatype Read = Read(mant: nat, scale: Option<nat>)

  function ReadMore(st: Read, c: char): Option<Read> {
    if c == '.' && st.scale.None? then Some(st.(scale := Some(0)))
    else if '0' <= c <= '9' then
      Some(Read(10 * st.mant + (c as int - '0' as int), if st.scale.Some? then Some(st.scale.value + 1) else None))
    else None
  }

  /** Reads digits with at most one point among them. */
  function ReadPlain(s: string): Option<Read> {
    if s == [] then Some(Read(0, None))
    else
      var st :- ReadPlain(s[..|s| - 1]);
      ReadMore(st, s[|s| - 1])
  }

  lemma ReadAppend(s: string, c: char)
    ensures ReadPlain(s + [c]) == (match ReadPlain(s) case None => None case Some(st) => ReadMore(st, c))
  {
    assert (s + [c])[..|s|] == s;
  }

  lemma {:induction false} ReadDigits(n: nat)
    ensures ReadPlain(Digits(n)) == Some(Read(n, None))
  {
    if n < 10 {
      ReadAppend([], Digit(n));
      assert [] + [Digit(n)] == [Digit(n)];
    } else {
      ReadDigits(n / 10);
      ReadAppend(Digits(n / 10), Digit(n % 10));
    }
  }

  lemma {:induction false} ReadPointed(mant: nat, scale: nat)
    ensures ReadPlain(Pointed(mant, scale)) == Some(Read(mant, Some(scale)))
  {
    if scale == 0 {
      ReadDigits(mant);
      ReadAppend(Digits(mant), '.');
    } else {
      ReadPointed(mant / 10, scale - 1);
      ReadAppend(Pointed(mant / 10, scale - 1), Digit(mant % 10));
    }
  }

  /** Reads a printed decimal: an optional sign, then digits. */
  function ReadDecimal(s: string): Option<Decimal> {
    var neg := s != [] && s[0] == '-';
    var st :- ReadPlain(if neg then s[1..] else s);
    Some(Decimal(neg, st.mant, if st.scale.Some? then st.scale.value else 0))
  }

  // ------------------------------------------------------------------ printing is exact and canonical

  lemma RStripEnd(s: string, c: char)
    ensures RStrip(s + [c], c) == RStrip(s, c)
    ensures forall d | d != c :: RStrip(s + [d], c) == s + [d]
  {
    assert (s + [c])[..|s|] == s;
  }

  lemma {:induction false} StripZeros(sign: string, mant: nat, scale: nat)
    ensures var (m, r) := Trim(mant, scale); RStrip(sign + Pointed(mant, scale), '0') == sign + Pointed(m, r)
    decreases scale
  {
    if scale == 0 {
      ConcatAssociates(sign, Digits(mant), ".");
      RStripEnd(sign + Digits(mant), '0');
    } else {
      var head, last := Pointed(mant / 10, scale - 1), Digit(mant % 10);
      ConcatAssociates(sign, head, [last]);
      RStripEnd(sign + head, '0');
      if mant % 10 == 0 {
        StripZeros(sign, mant / 10, scale - 1);
      }
    }
  }

  lemma {:induction false} DigitsPointless(n: nat)
    ensures forall i | 0 <= i < |Digits(n)| :: '0' <= Digits(n)[i] <= '9'
  {
    if n >= 10 {
      DigitsPointless(n / 10);
    }
  }

  lemma {:induction false} PointedHasPoint(mant: nat, scale: nat)
    ensures '.' in Pointed(mant, scale) && '0' <= Pointed(mant, scale)[0] <= '9'
  {
    if scale == 0 {
      DigitsPointless(mant);
    } else {
      PointedHasPoint(mant / 10, scale - 1);
    }
  }

  lemma StripPoint(sign: string, mant: nat, scale: nat)
    requires scale > 0 ==> mant % 10 != 0
    ensures RStrip(sign + Pointed(mant, scale), '.') == sign + Plain(mant, scale)
  {
    if scale == 0 {
      var s := sign + Digits(mant);
      DigitsPointless(mant);
      ConcatAssociates(sign, Digits(mant), ".");
      RStripEnd(s, '.');
      assert s[|s| - 1] == Digits(mant)[|Digits(mant)| - 1];
    } else {
      ConcatAssociates(sign, Pointed(mant / 10, scale - 1), [Digit(mant % 10)]);
      RStripEnd(sign + Pointed(mant / 10, scale - 1), '.');
    }
  }

  lemma TenTimes(mant: nat, p: nat, m: nat, q: nat)
    requires mant % 10 == 0 && (mant / 10) * p == m * q
    ensures mant * p == m * (10 * q)
  {
    var k := mant / 10;
    assert (10 * k) * p == 10 * (k * p) && m * (10 * q) == 10 * (m * q);
  }

  lemma {:induction false} Trimmed(mant: nat, scale: nat)
    ensures var (m, r) := Trim(mant, scale); (r > 0 ==> m % 10 != 0) && r <= scale && SameRatio(mant, scale, m, r)
  {
    if scale > 0 && mant % 10 == 0 {
      Trimmed(mant / 10, scale - 1);
      var (m, r) := Trim(mant, scale);
      TenTimes(mant, Pow(10, r), m, Pow(10, scale - 1));
    }
  }

  /** The printed form is the sign and the number in lowest terms. */
  lemma FormatIsTrimmed(d: Decimal)
    ensures var (m, r) := Trim(d.mant, d.scale);
            FormatDecimal(d) == (if d.neg then "-" else "") + Plain(m, r)
  {
    var sign := if d.neg then "-" else "";
    var (m, r) := Trim(d.mant, d.scale);
    Trimmed(d.mant, d.scale);
    if d.scale == 0 {
      DigitsPointless(d.mant);
    } else {
      PointedHasPoint(d.mant, d.scale);
      StripZeros(sign, d.mant, d.scale);
      StripPoint(sign, m, r);
    }
  }

  lemma {:induction false} CancelTens(m: nat, s: nat, n: nat, r: nat)
    requires SameRatio(m, s, n, r) && s > 0 && r > 0
    ensures SameRatio(m, s - 1, n, r - 1)
  {
    var p, q := Pow(10, r - 1), Pow(10, s - 1);
    assert m * (10 * p) == 10 * (m * p) && n * (10 * q) == 10 * (n * q);
  }

  lemma TensDivide(m: nat, n: nat, s: nat)
    requires s > 0 && m == n * Pow(10, s)
    ensures m % 10 == 0
  {
    assert m == 10 * (n * Pow(10, s - 1));
  }

  /** Lowest terms are unique. */
  lemma {:induction false} LowestUnique(m: nat, s: nat, n: nat, r: nat)
    requires SameRatio(m, s, n, r) && (s > 0 ==> m % 10 != 0) && (r > 0 ==> n % 10 != 0)
    ensures m == n && s == r
    decreases s
  {
    if s > 0 && r > 0 {
      CancelTens(m, s, n, r);
      LowestUnique(m, s - 1, n, r - 1);
    } else if s > 0 {
      TensDivide(m, n, s);
      assert false;
    } else if r > 0 {
      TensDivide(n, m, r);
      assert false;
    }
  }

  lemma CancelFactor(x: nat, y: nat, p: nat)
    requires p > 0 && x * p == y * p
    ensures x == y
  {
    var d: int := x - y;
    assert d * p == 0;
  }

  lemma CrossCancel(m: nat, n: nat, k: nat, ps: nat, pr: nat, pq: nat)
    requires pr > 0 && m * pr == n * ps && n * pq == k * pr
    ensures m * pq == k * ps
  {
    calc {
      (m * pq) * pr;
      (m * pr) * pq;
      (n * ps) * pq;
      (n * pq) * ps;
      (k * pr) * ps;
      (k * ps) * pr;
    }
    CancelFactor(m * pq, k * ps, pr);
  }

  lemma RatioTransitive(m: nat, s: nat, n: nat, r: nat, k: nat, q: nat)
    requires SameRatio(m, s, n, r) && SameRatio(n, r, k, q)
    ensures SameRatio(m, s, k, q)
  {
    PowMonotone(10, 0, r);
    CrossCancel(m, n, k, Pow(10, s), Pow(10, r), Pow(10, q));
  }

  lemma ReadPrinted(m: nat, r: nat)
    ensures ReadPlain(Plain(m, r)) == Some(Read(m, if r == 0 then None else Some(r)))
    ensures Plain(m, r) != [] && Plain(m, r)[0] != '-'
  {
    ReadDigits(m);
    ReadPointed(m, r);
    DigitsPointless(m);
    PointedHasPoint(m, r);
  }

  lemma ReadSigned(neg: bool, body: string)
    requires body != [] && body[0] != '-' && ReadPlain(body).Some?
    ensures var s := (if neg then "-" else "") + body; var st := ReadPlain(body).value;
            ReadDecimal(s) == Some(Decimal(neg, st.mant, if st.scale.Some? then st.scale.value else 0))
  {
    hide ReadPlain;
    if neg {
      assert ("-" + body)[1..] == body;
    } else {
      ConcatNothing(body);
    }
  }

  /** Printing loses nothing: the printed text reads back as the same value. */
  lemma FormatExact(d: Decimal)
    requires d.Valid()
    ensures ReadDecimal(FormatDecimal(d)).Some? && SameValue(ReadDecimal(FormatDecimal(d)).value, d)
  {
    var (m, r) := Trim(d.mant, d.scale);
    hide Plain, Trim, FormatDecimal, ReadDecimal, ReadPlain, Pow;
    FormatIsTrimmed(d);
    Trimmed(d.mant, d.scale);
    ReadPrinted(m, r);
    ReadSigned(d.neg, Plain(m, r));
  }

  /** Two balances print the same exactly when they are the same number. */
  lemma FormatCanonical(a: Decimal, b: Decimal)
    requires a.Valid() && b.Valid()
    ensures FormatDecimal(a) == FormatDecimal(b) <==> SameValue(a, b)
  {
    var (m, s) := Trim(a.mant, a.scale);
    var (n, r) := Trim(b.mant, b.scale);
    Trimmed(a.mant, a.scale);
    Trimmed(b.mant, b.scale);
    if SameValue(a, b) {
      RatioTransitive(m, s, a.mant, a.scale, b.mant, b.scale);
      RatioTransitive(m, s, b.mant, b.scale, n, r);
      LowestUnique(m, s, n, r);
      FormatIsTrimmed(a);
      FormatIsTrimmed(b);
    }
    if FormatDecimal(a) == FormatDecimal(b) {
      hide FormatDecimal, ReadDecimal;
      FormatExact(a);
      FormatExact(b);
      var d := ReadDecimal(FormatDecimal(a)).value;
      RatioTransitive(a.mant, a.scale, d.mant, d.scale, b.mant, b.scale);
    }
  }

  // ------------------------------------------------------------------ totals

  /** A running total: coef / 10^scale. */
  datatype Total = Total(coef: int, scale: nat)

  /** 10^100: a total of more digits would be rounded, which the exporter traps. */
  const PRECISION_END: int :=
    1_00000_00000_00000_00000_00000_00000_00000_00000_00000_00000_00000_00000_00000_00000_00000_00000_00000_00000_00000_00000

  function Signed(d: Decimal): int {
    if d.neg then 0 - d.mant else d.mant
  }

  function Max(a: nat, b: nat): nat {
    if a < b then b else a
  }

  /** Exact addition at the finer of the two scales; None where it would round. */
  function AddExact(t: Total, d: Decimal): Option<Total> {
    var scale := Max(t.scale, d.scale);
    var coef := t.coef * Pow(10, scale - t.scale) + Signed(d) * Pow(10, scale - d.scale);
    if -PRECISION_END < coef < PRECISION_END then Some(Total(coef, scale)) else None
  }

  /** The value in units of 10^-28. */
  function Units(coef: int, scale: nat): int
    requires scale <= MAX_SCALE
  {
    coef * Pow(10, MAX_SCALE - scale)
  }

  datatype Balance<A> = Balance(asset: A, amount: Decimal)

  ghost function SumUnits<A>(rows: seq<Balance<A>>, asset: A): int
    requires AllValid(rows)
  {
    if rows == [] then 0
    else
      var last := rows[|rows| - 1];
      assert last.amount.Valid();
      SumUnits(rows[..|rows| - 1], asset) +
      (if last.asset == asset then Units(Signed(last.amount), last.amount.scale) else 0)
  }

  ghost function Holders<A>(rows: seq<Balance<A>>, asset: A): nat {
    if rows == [] then 0
    else
      var last := rows[|rows| - 1];
      Holders(rows[..|rows| - 1], asset) + (if last.asset == asset && last.amount.mant != 0 then 1 else 0)
  }

  lemma {:induction false} PowAdd(i: nat, j: nat)
    ensures Pow(10, i + j) == Pow(10, i) * Pow(10, j)
  {
    if i > 0 {
      PowAdd(i - 1, j);
      assert 10 * (Pow(10, i - 1) * Pow(10, j)) == (10 * Pow(10, i - 1)) * Pow(10, j);
    }
  }

  lemma Rescale(coef: int, from: nat, to: nat)
    requires from <= to <= MAX_SCALE
    ensures Units(coef * Pow(10, to - from), to) == Units(coef, from)
  {
    PowAdd(to - from, MAX_SCALE - to);
    MulAssociates(coef, Pow(10, to - from), Pow(10, MAX_SCALE - to));
    assert (to - from) + (MAX_SCALE - to) == MAX_SCALE - from;
    hide Pow;
  }

  lemma MulAssociates(x: int, p: int, q: int)
    ensures (x * p) * q == x * (p * q)
  {
  }

  /** 10^28 */
  const UNIT: int := 1_0000000_0000000_0000000_0000000

  /** No balance reaches this many units. */
  const BALANCE_END: int := MANTISSA_END * UNIT

  /** As many balances as the totals are good for. */
  const MAX_ROWS: int := 1_000000_000000_000000_000000_000000_000000_000000

  lemma UnitIsPower()
    ensures Pow(10, 28) == UNIT
  {
    assert Pow(10, 7) == 1_0000000;
    PowAdd(7, 7);
    PowAdd(14, 14);
  }

  lemma UnitsBound(d: Decimal)
    requires d.Valid()
    ensures -BALANCE_END < Units(Signed(d), d.scale) < BALANCE_END
  {
    UnitIsPower();
    PowMonotone(10, MAX_SCALE - d.scale, MAX_SCALE);
    MulBounds(d.mant, MANTISSA_END, Pow(10, MAX_SCALE - d.scale), UNIT);
  }

  lemma MulBounds(a: nat, aEnd: nat, p: nat, pMax: nat)
    requires a < aEnd && 1 <= p <= pMax
    ensures a * p < aEnd * pMax && (0 - a) * p == 0 - a * p
  {
    assert a * p <= a * pMax < aEnd * pMax;
  }

  lemma MulAtLeast(c: int, p: nat)
    requires p >= 1
    ensures c >= 0 ==> c <= c * p
    ensures c <= 0 ==> c * p <= c
  {
  }

  lemma SumFits(u: int, v: int, rows: nat)
    requires rows < MAX_ROWS && -BALANCE_END < v < BALANCE_END
    requires 0 - rows * BALANCE_END <= u <= rows * BALANCE_END
    ensures -PRECISION_END < u + v < PRECISION_END
    ensures 0 - (rows + 1) * BALANCE_END <= u + v <= (rows + 1) * BALANCE_END
  {
  }

  /** Adding one balance to a total of at most `rows` balances does not round and adds exactly its value. */
  lemma AddExactly(t: Total, d: Decimal, rows: nat)
    requires d.Valid() && t.scale <= MAX_SCALE && rows < MAX_ROWS
    requires 0 - rows * BALANCE_END <= Units(t.coef, t.scale) <= rows * BALANCE_END
    ensures AddExact(t, d).Some? && AddExact(t, d).value.scale <= MAX_SCALE
    ensures var sum := Units(t.coef, t.scale) + Units(Signed(d), d.scale);
            Units(AddExact(t, d).value.coef, AddExact(t, d).value.scale) == sum
            && 0 - (rows + 1) * BALANCE_END <= sum <= (rows + 1) * BALANCE_END
  {
    hide Pow, Signed;
    var scale := Max(t.scale, d.scale);
    var a, b := t.coef * Pow(10, scale - t.scale), Signed(d) * Pow(10, scale - d.scale);
    Rescale(t.coef, t.scale, scale);
    Rescale(Signed(d), d.scale, scale);
    UnitsBound(d);
    SumFits(Units(t.coef, t.scale), Units(Signed(d), d.scale), rows);
    PowMonotone(10, 0, MAX_SCALE - scale);
    UnitsAdd(a, b, scale);
    MulAtLeast(a + b, Pow(10, MAX_SCALE - scale));
  }

  lemma UnitsAdd(a: int, b: int, scale: nat)
    requires scale <= MAX_SCALE
    ensures Units(a + b, scale) == Units(a, scale) + Units(b, scale)
  {
    hide Pow;
  }

  ghost predicate AllValid<A>(rows: seq<Balance<A>>) {
    forall i | 0 <= i < |rows| :: rows[i].amount.Valid()
  }

  ghost predicate TotalOf<A>(rows: seq<Balance<A>>, a: A, totals: map<A, Total>, holders: map<A, nat>)
    requires AllValid(rows)
  {
    if a in totals && a in holders then
      && totals[a].scale <= MAX_SCALE
      && Units(totals[a].coef, totals[a].scale) == SumUnits(rows, a)
      && holders[a] == Holders(rows, a)
    else a !in totals && a !in holders && SumUnits(rows, a) == 0 && Holders(rows, a) == 0
  }

  lemma {:induction false} SumBound<A>(rows: seq<Balance<A>>, a: A)
    requires AllValid(rows)
    ensures 0 - |rows| * BALANCE_END <= SumUnits(rows, a) <= |rows| * BALANCE_END
  {
    hide Units;
    if rows != [] {
      SumBound(rows[..|rows| - 1], a);
      UnitsBound(rows[|rows| - 1].amount);
    }
  }

  lemma SumStep<A>(rows: seq<Balance<A>>, row: Balance<A>, a: A)
    requires AllValid(rows) && row.amount.Valid()
    ensures AllValid(rows + [row])
    ensures SumUnits(rows + [row], a)
         == SumUnits(rows, a) + (if row.asset == a then Units(Signed(row.amount), row.amount.scale) else 0)
    ensures Holders(rows + [row], a) == Holders(rows, a) + (if row.asset == a && row.amount.mant != 0 then 1 else 0)
    ensures row.amount.mant == 0 ==> Units(Signed(row.amount), row.amount.scale) == 0
  {
    assert (rows + [row])[..|rows|] == rows;
  }

  /** The exporter's totals: no addition rounds, each total is the exact sum of its asset's balances, and
      the holder counts are the numbers of balances that are not zero. */
  method SumBalances<A(==, !new)>(rows: seq<Balance<A>>) returns (totals: map<A, Total>, holders: map<A, nat>)
    requires |rows| <= MAX_ROWS && AllValid(rows)
    ensures forall a :: TotalOf(rows, a, totals, holders)
  {
    totals, holders := map[], map[];
    for i := 0 to |rows|
      invariant AllValid(rows[..i])
      invariant forall a :: TotalOf(rows[..i], a, totals, holders)
    {
      hide Units, SumUnits, Holders, AddExact, AllValid;
      var row := rows[i];
      ghost var totals0, holders0 := totals, holders;
      assert row.amount.Valid() by { RowValid(rows, i); }
      ghost var seen := rows[..i + 1];
      assert seen == rows[..i] + [row];
      SumStep(rows[..i], row, row.asset);
      SumBound(rows[..i], row.asset);
      if row.amount.mant != 0 {
        assert TotalOf(rows[..i], row.asset, totals, holders);
        var t, n := Total(0, 0), 0;
        if row.asset in totals {
          t, n := totals[row.asset], holders[row.asset];
        } else {
          ZeroTotal();
        }
        AddExactly(t, row.amount, i);
        totals := totals[row.asset := AddExact(t, row.amount).value];
        holders := holders[row.asset := n + 1];
      }
      forall a
        ensures TotalOf(seen, a, totals, holders)
      {
        assert TotalOf(rows[..i], a, totals0, holders0);
        SumStep(rows[..i], row, a);
      }
    }
    assert rows[..|rows|] == rows;
  }

  lemma RowValid<A>(rows: seq<Balance<A>>, i: nat)
    requires AllValid(rows) && i < |rows|
    ensures rows[i].amount.Valid()
  {
  }

  lemma ZeroTotal()
    ensures Units(0, 0) == 0
  {
  }
}
