/**
  From the walked trie to the exported balances: the balance maps stored under account keys are
  decoded, and nothing is written unless every account was.
 */
module Export {
  import opened ByteStrings
  import opened Scale
  import opened Decimals
  import opened Tries
  import opened TrieWalk
  import LedgerRows

  datatype AssetId = Pdex | Asset(id: nat) {
    /** Asset ids are stored in sixteen bytes. */
    ghost predicate Storable() {
      Asset? ==> id < Pow(256, 16)
    }
  }

  datatype Holding = Holding(asset: AssetId, balance: Decimal) {
    /** What the ledger can store; a zero may carry a sign. */
    ghost predicate Storable() {
      asset.Storable() && balance.mant < MANTISSA_END && balance.scale <= MAX_SCALE
    }

    function Normal(): Holding {
      Holding(asset, balance.(neg := balance.neg && balance.mant != 0))
    }
  }

  type Balances = map<AssetId, Decimal>

  /** Holdings entered into a map one after the other. */
  function MapOf(hs: seq<Holding>): Balances {
    if hs == [] then map[] else MapOf(hs[..|hs| - 1])[hs[|hs| - 1].asset := hs[|hs| - 1].balance]
  }

  // ------------------------------------------------------------------ one balance map

  /** None where the reader raises; a short asset id is cut rather than refused. */
  function DecodeAssetId(data: Bytes, pos: nat): Option<Parsed<AssetId>> {
    if |data| <= pos then None
    else if data[pos] == 0 then Some(Parsed(Asset(LeNat(Slice(data, pos + 1, pos + 17))), pos + 17))
    else if data[pos] == 1 then Some(Parsed(Pdex, pos + 1))
    else None
  }

  function DecodeHolding(data: Bytes, pos: nat): Option<Parsed<Holding>> {
    var a :- DecodeAssetId(data, pos);
    var d :- DecodeDecimal(data, a.next);
    Some(Parsed(Holding(a.value, d.value), d.next))
  }

  /** The first n holdings from a position on. */
  function HoldingsFrom(data: Bytes, pos: nat, n: nat): Option<Parsed<seq<Holding>>> {
    if n == 0 then Some(Parsed([], pos))
    else
      var before :- HoldingsFrom(data, pos, n - 1);
      var last :- DecodeHolding(data, before.next);
      Some(Parsed(before.value + [last.value], last.next))
  }

  /** A count, that many holdings, and nothing after them. */
  function BalancesOf(data: Bytes): Option<Balances> {
    var count :- Compact(data, 0);
    var hs :- HoldingsFrom(data, count.next, count.value);
    if hs.next != |data| then None else Some(MapOf(hs.value))
  }

  method DecodeBalances(data: Bytes) returns (r: Option<Balances>)
    ensures r == BalancesOf(data)
  {
    hide Compact, DecodeAssetId, DecodeDecimal;
    var count := Compact(data, 0);
    if count.None? {
      return None;
    }
    var p, n := count.value.next, count.value.value;
    var out: Balances := map[];
    ghost var hs: seq<Holding> := [];
    for i := 0 to n
      invariant HoldingsFrom(data, count.value.next, i) == Some(Parsed(hs, p)) && out == MapOf(hs)
    {
      var asset := DecodeAssetId(data, p);
      if asset.None? {
        NoneStays(data, count.value.next, i + 1, n);
        return None;
      }
      var balance := DecodeDecimal(data, asset.value.next);
      if balance.None? {
        NoneStays(data, count.value.next, i + 1, n);
        return None;
      }
      p := balance.value.next;
      out := out[asset.value.value := balance.value.value];
      ghost var before := hs;
      hs := hs + [Holding(asset.value.value, balance.value.value)];
      assert hs[..|hs| - 1] == before;
    }
    return if p != |data| then None else Some(out);
  }

  lemma {:induction false} NoneStays(data: Bytes, pos: nat, i: nat, n: nat)
    requires i <= n && HoldingsFrom(data, pos, i).None?
    ensures HoldingsFrom(data, pos, n).None?
  {
    hide DecodeHolding;
    if i < n {
      NoneStays(data, pos, i, n - 1);
    }
  }

  function EncodeAssetId(a: AssetId): Bytes {
    match a
    case Asset(id) => [0] + LeBytes(id, 16)
    case Pdex => [1]
  }

  function EncodeHolding(h: Holding): Bytes
    requires h.Storable()
  {
    EncodeAssetId(h.asset) + EncodeDecimal(h.balance.neg, h.balance.mant, h.balance.scale)
  }

  ghost predicate AllStorable(hs: seq<Holding>) {
    forall i | 0 <= i < |hs| :: hs[i].Storable()
  }

  function EncodeHoldings(hs: seq<Holding>): Bytes
    requires AllStorable(hs)
  {
    if hs == [] then [] else EncodeHoldings(hs[..|hs| - 1]) + EncodeHolding(hs[|hs| - 1])
  }

  function EncodeBalances(hs: seq<Holding>): Bytes
    requires AllStorable(hs) && Compactable(|hs|)
  {
    EncodeCompact(|hs|) + EncodeHoldings(hs)
  }

  function Normals(hs: seq<Holding>): (r: seq<Holding>)
    ensures |r| == |hs| && forall i | 0 <= i < |hs| :: r[i] == hs[i].Normal()
  {
    if hs == [] then [] else Normals(hs[..|hs| - 1]) + [hs[|hs| - 1].Normal()]
  }

  lemma AssetIdRoundTrip(data: Bytes, pos: nat, a: AssetId)
    requires a.Storable() && At(data, pos, EncodeAssetId(a))
    ensures DecodeAssetId(data, pos) == Some(Parsed(a, pos + |EncodeAssetId(a)|))
  {
    hide LeNat, LeBytes, At, Pow;
    AtHead(data, pos, EncodeAssetId(a));
    if a.Asset? {
      AtConcat(data, pos, [0], LeBytes(a.id, 16));
      SliceAt(data, pos + 1, LeBytes(a.id, 16));
      LeRoundTrip(a.id, 16);
    }
  }

  lemma HoldingRoundTrip(data: Bytes, pos: nat, h: Holding)
    requires h.Storable() && At(data, pos, EncodeHolding(h))
    ensures DecodeHolding(data, pos) == Some(Parsed(h.Normal(), pos + |EncodeHolding(h)|))
  {
    hide At, EncodeAssetId, EncodeDecimal, DecodeAssetId, DecodeDecimal;
    var a, d := EncodeAssetId(h.asset), EncodeDecimal(h.balance.neg, h.balance.mant, h.balance.scale);
    AtConcat(data, pos, a, d);
    AssetIdRoundTrip(data, pos, h.asset);
    DecimalRoundTrip(data, pos + |a|, h.balance.neg, h.balance.mant, h.balance.scale);
    DecimalWidth(h.balance.neg, h.balance.mant, h.balance.scale);
  }

  lemma DecimalWidth(neg: bool, mant: nat, scale: nat)
    requires mant < MANTISSA_END && scale <= MAX_SCALE
    ensures |EncodeDecimal(neg, mant, scale)| == 16
  {
  }

  lemma {:induction false} HoldingsRoundTrip(data: Bytes, pos: nat, hs: seq<Holding>)
    requires AllStorable(hs) && At(data, pos, EncodeHoldings(hs))
    ensures HoldingsFrom(data, pos, |hs|) == Some(Parsed(Normals(hs), pos + |EncodeHoldings(hs)|))
    decreases |hs|
  {
    hide At, EncodeHolding, DecodeHolding;
    if hs != [] {
      var rest, last := hs[..|hs| - 1], hs[|hs| - 1];
      AtConcat(data, pos, EncodeHoldings(rest), EncodeHolding(last));
      HoldingsRoundTrip(data, pos, rest);
      HoldingRoundTrip(data, pos + |EncodeHoldings(rest)|, last);
    }
  }

  /** A stored balance map reads back as itself, but for the sign of a zero. */
  lemma BalancesRoundTrip(hs: seq<Holding>)
    requires AllStorable(hs) && Compactable(|hs|)
    ensures BalancesOf(EncodeBalances(hs)) == Some(MapOf(Normals(hs)))
  {
    hide At, EncodeCompact, EncodeHoldings, Compact, HoldingsFrom, MapOf, Normals, AllStorable, Compactable;
    var count, body := EncodeCompact(|hs|), EncodeHoldings(hs);
    var data := EncodeBalances(hs);
    AtWhole(data);
    AtConcat(data, 0, count, body);
    CompactRoundTrip(data, 0, |hs|);
    HoldingsRoundTrip(data, |count|, hs);
  }

  lemma AtWhole(data: Bytes)
    ensures At(data, 0, data)
  {
  }

  /** With every asset named once, the map holds exactly the holdings. */
  lemma {:induction false} MapHolds(hs: seq<Holding>, a: AssetId, d: Decimal)
    requires forall i, j | 0 <= i < j < |hs| :: hs[i].asset != hs[j].asset
    ensures (a in MapOf(hs) && MapOf(hs)[a] == d) <==> Holding(a, d) in hs
    ensures a in MapOf(hs) <==> exists i | 0 <= i < |hs| :: hs[i].asset == a
    decreases |hs|
  {
    if hs != [] {
      var rest, last := hs[..|hs| - 1], hs[|hs| - 1];
      MapHolds(rest, a, d);
      assert hs == rest + [last];
      if Holding(a, d) in rest {
        var i :| 0 <= i < |rest| && rest[i] == Holding(a, d);
        assert hs[i] == Holding(a, d);
      }
      assert (exists i | 0 <= i < |hs| :: hs[i].asset == a)
             <==> (exists i | 0 <= i < |rest| :: rest[i].asset == a) || last.asset == a by {
        if i :| 0 <= i < |rest| && rest[i].asset == a { assert hs[i].asset == a; }
        if i :| 0 <= i < |hs| && hs[i].asset == a { assert i < |rest| ==> rest[i].asset == a; }
        assert hs[|rest|] == last;
      }
    }
  }

  // ------------------------------------------------------------------ every account

  datatype StateInfo = StateInfo(lastBlock: nat, workerNonce: nat, stid: nat, snapshotId: nat)

  /** Four numbers of four and three times eight bytes; what follows them is not looked at. */
  function DecodeStateInfo(data: Bytes): Option<StateInfo> {
    if |data| < 28 then None
    else Some(StateInfo(LeNat(data[..4]), LeNat(data[4..12]), LeNat(data[12..20]), LeNat(data[20..28])))
  }

  const STATE_INFO_KEY: Bytes := LedgerRows.Ascii("offchain-ocex::" + "state_info")

  lemma InfoKeyIsShort()
    ensures |STATE_INFO_KEY| == 25
  {
  }

  datatype Collected = Collected(accounts: map<Bytes, Balances>, failed: set<Bytes>, info: Option<StateInfo>)

  ghost predicate Distinct(out: seq<(Bytes, Bytes)>) {
    forall i, j | 0 <= i < j < |out| :: out[i].0 != out[j].0
  }

  ghost predicate Names(out: seq<(Bytes, Bytes)>, key: Bytes) {
    exists i | 0 <= i < |out| :: out[i].0 == key
  }

  /** The given pairs sorted into decoded accounts, accounts that could not be decoded, and the state info. */
  ghost predicate Sorted(out: seq<(Bytes, Bytes)>, c: Collected) {
    && (forall k | k in c.accounts || k in c.failed :: |k| == 32 && Names(out, k))
    && (forall i | 0 <= i < |out| :: SortedAs(out[i].0, out[i].1, c))
    && (Names(out, STATE_INFO_KEY) <==> c.info.Some?)
  }

  ghost predicate SortedAs(key: Bytes, value: Bytes, c: Collected) {
    if key == STATE_INFO_KEY then c.info.Some? && DecodeStateInfo(value) == c.info
    else if |key| != 32 then true
    else match BalancesOf(value)
      case Some(b) => key in c.accounts && c.accounts[key] == b && key !in c.failed
      case None => key in c.failed && key !in c.accounts
  }

  /** Goes through the pairs of the walk. Only a state info that is too short ends the run here. */
  method Collect(out: seq<(Bytes, Bytes)>) returns (r: Option<Collected>)
    requires Distinct(out)
    ensures r.Some? ==> Sorted(out, r.value)
    ensures r.None? <==> exists i | 0 <= i < |out| :: out[i].0 == STATE_INFO_KEY && |out[i].1| < 28
  {
    InfoKeyIsShort();
    hide BalancesOf;
    var c := Collected(map[], {}, None);
    for n := 0 to |out|
      invariant Sorted(out[..n], c)
      invariant forall i | 0 <= i < n :: out[i].0 == STATE_INFO_KEY ==> |out[i].1| >= 28
    {
      ghost var before := c;
      var (key, value) := out[n];
      if key == STATE_INFO_KEY {
        var info := DecodeStateInfo(value);
        if info.None? {
          return None;
        }
        c := c.(info := info);
      } else if |key| == 32 {
        var b := DecodeBalances(value);
        if b.Some? {
          c := c.(accounts := c.accounts[key := b.value]);
        } else {
          c := c.(failed := c.failed + {key});
        }
      }
      SortedGrows(out, n, before, c);
    }
    assert out[..|out|] == out;
    return Some(c);
  }

  /** c is what the pair adds to `before`. */
  ghost predicate Added(key: Bytes, value: Bytes, before: Collected, c: Collected) {
    if key == STATE_INFO_KEY then DecodeStateInfo(value).Some? && c == before.(info := DecodeStateInfo(value))
    else if |key| != 32 then c == before
    else match BalancesOf(value)
      case Some(b) => c == before.(accounts := before.accounts[key := b])
      case None => c == before.(failed := before.failed + {key})
  }

  lemma SortedGrows(out: seq<(Bytes, Bytes)>, n: nat, before: Collected, c: Collected)
    requires Distinct(out) && n < |out| && Sorted(out[..n], before) && Added(out[n].0, out[n].1, before, c)
    ensures Sorted(out[..n + 1], c)
  {
    var s, s' := out[..n], out[..n + 1];
    forall i | 0 <= i < |s'|
      ensures SortedAs(s'[i].0, s'[i].1, c)
    {
      if i < n {
        assert SortedAs(s[i].0, s[i].1, before) && s'[i].0 != out[n].0;
        StillSorted(s'[i].0, s'[i].1, out[n].0, out[n].1, before, c);
      } else {
        NewlySorted(s, out[n].0, out[n].1, before, c);
      }
    }
    hide SortedAs, Names;
    forall k | k in c.accounts || k in c.failed
      ensures |k| == 32 && Names(s', k)
    {
      NamesGrow(out, n, k);
      AddedNames(out[n].0, out[n].1, before, c, k);
    }
    NamesGrow(out, n, STATE_INFO_KEY);
    AddedInfo(out[n].0, out[n].1, before, c);
  }

  lemma NamesGrow(out: seq<(Bytes, Bytes)>, n: nat, k: Bytes)
    requires n < |out|
    ensures Names(out[..n + 1], k) <==> Names(out[..n], k) || out[n].0 == k
  {
    var s, s' := out[..n], out[..n + 1];
    if i :| 0 <= i < |s| && s[i].0 == k {
      assert s'[i].0 == k;
    }
    if i :| 0 <= i < |s'| && s'[i].0 == k {
      assert i < n ==> s[i].0 == k;
    }
    assert s'[n] == out[n];
  }

  lemma AddedNames(key: Bytes, value: Bytes, before: Collected, c: Collected, k: Bytes)
    requires Added(key, value, before, c) && (k in c.accounts || k in c.failed)
    ensures k in before.accounts || k in before.failed || (k == key && |k| == 32)
  {
  }

  lemma AddedInfo(key: Bytes, value: Bytes, before: Collected, c: Collected)
    requires Added(key, value, before, c)
    ensures c.info.Some? <==> before.info.Some? || key == STATE_INFO_KEY
  {
    hide BalancesOf, DecodeStateInfo;
  }

  lemma StillSorted(k: Bytes, v: Bytes, key: Bytes, value: Bytes, before: Collected, c: Collected)
    requires k != key && SortedAs(k, v, before) && Added(key, value, before, c)
    ensures SortedAs(k, v, c)
  {
    hide BalancesOf, DecodeStateInfo;
  }

  lemma NewlySorted(s: seq<(Bytes, Bytes)>, key: Bytes, value: Bytes, before: Collected, c: Collected)
    requires (forall i | 0 <= i < |s| :: s[i].0 != key) && Sorted(s, before) && Added(key, value, before, c)
    ensures SortedAs(key, value, c)
  {
    hide BalancesOf, DecodeStateInfo;
  }

  /** The value can be read as what its key says it is. */
  ghost predicate Readable(key: Bytes, value: Bytes) {
    && (key == STATE_INFO_KEY ==> |value| >= 28)
    && (|key| == 32 ==> BalancesOf(value).Some?)
  }

  ghost predicate AllReadable(t: Trie) {
    forall key: Bytes, value | Lookup(t, Expand(key)) == Some(value) :: Readable(key, value)
  }

  /** The accounts are the trie's 32-byte keys, each with the balances decoded from its value. */
  ghost predicate Exports(t: Trie, accounts: map<Bytes, Balances>) {
    forall key: Bytes :: ExportsKey(Lookup(t, Expand(key)), key, accounts)
  }

  ghost predicate ExportsKey(value: Option<Bytes>, key: Bytes, accounts: map<Bytes, Balances>) {
    && (key in accounts <==> |key| == 32 && value.Some?)
    && (key in accounts && value.Some? ==> BalancesOf(value.value) == Some(accounts[key]))
  }

  /** The walked pairs are exactly what the trie stores. */
  ghost predicate Given(t: Trie, out: seq<(Bytes, Bytes)>) {
    forall key, value :: (key, value) in out <==> Lookup(t, Expand(key)) == Some(value)
  }

  lemma ReadableIff(t: Trie, out: seq<(Bytes, Bytes)>, c: Collected)
    requires Given(t, out) && Sorted(out, c)
    ensures AllReadable(t) <==> c.failed == {}
  {
    InfoKeyIsShort();
    hide BalancesOf, Lookup, Expand;
    if c.failed == {} {
      forall key: Bytes, value | Lookup(t, Expand(key)) == Some(value)
        ensures Readable(key, value)
      {
        assert (key, value) in out;
        var i :| 0 <= i < |out| && out[i] == (key, value);
        assert SortedAs(out[i].0, out[i].1, c);
      }
    } else {
      var k :| k in c.failed;
      var i :| 0 <= i < |out| && out[i].0 == k;
      assert SortedAs(out[i].0, out[i].1, c);
      assert out[i] == (k, out[i].1) && (k, out[i].1) in out;
      assert !Readable(k, out[i].1);
    }
  }

  lemma SortedExports(t: Trie, out: seq<(Bytes, Bytes)>, c: Collected)
    requires Given(t, out) && Sorted(out, c) && c.failed == {}
    ensures Exports(t, c.accounts)
  {
    InfoKeyIsShort();
    hide BalancesOf, Lookup, Expand;
    forall key: Bytes
      ensures ExportsKey(Lookup(t, Expand(key)), key, c.accounts)
    {
      var found := Lookup(t, Expand(key));
      if key in c.accounts {
        var i :| 0 <= i < |out| && out[i].0 == key;
        assert out[i] == (key, out[i].1) && (key, out[i].1) in out;
      }
      if found.Some? {
        assert (key, found.value) in out;
        var i :| 0 <= i < |out| && out[i] == (key, found.value);
        assert SortedAs(out[i].0, out[i].1, c);
      }
    }
  }

  lemma ShortInfoUnreadable(t: Trie, out: seq<(Bytes, Bytes)>, i: nat)
    requires Given(t, out) && i < |out| && out[i].0 == STATE_INFO_KEY && |out[i].1| < 28
    ensures !AllReadable(t)
  {
    hide BalancesOf, Lookup, Expand;
    assert out[i] == (STATE_INFO_KEY, out[i].1) && (STATE_INFO_KEY, out[i].1) in out;
    assert !Readable(STATE_INFO_KEY, out[i].1);
  }

  /** The whole export from a root: the committed accounts with their balances, or nothing. Nothing is written
      exactly when the trie is empty, cannot be walked, or holds a value that cannot be read. */
  method ExportAccounts(hash: Bytes -> Hash, nodes: map<Bytes, Bytes>, root: Hash, verify: bool, ghost t: Trie)
    returns (r: Option<map<Bytes, Balances>>)
    requires Committable(hash, t) && Shaped(t) && root == hash(TrieBytes(hash, t))
    requires AllKid(hash, Root(t), TrustedIn(hash, nodes, verify))
    ensures r.Some? ==> Exports(t, r.value)
    ensures r.Some? <==> Extractable(hash, nodes, t) && Entries(t, []) != [] && AllReadable(t)
  {
    hide Committable, Shaped, AllKid, TrustedIn, TrieBytes, Entries, Extractable, Lookup, Expand, AllReadable,
         Exports, Sorted;
    var out, error := Walk(hash, nodes, root, verify, t);
    if error.Some? || out == [] {
      return None;
    }
    assert Given(t, out);
    hide Given;
    var c := Collect(out);
    if c.None? {
      ghost var i: nat :| i < |out| && out[i].0 == STATE_INFO_KEY && |out[i].1| < 28;
      ShortInfoUnreadable(t, out, i);
      return None;
    }
    ReadableIff(t, out, c.value);
    if c.value.failed != {} {
      return None;
    }
    SortedExports(t, out, c.value);
    return Some(c.value.accounts);
  }

  /** The trie stores these holdings, and no other account. */
  ghost predicate Commits(t: Trie, ledger: map<Bytes, seq<Holding>>) {
    && (forall key | key in ledger :: AllStorable(ledger[key]) && Compactable(|ledger[key]|))
    && (forall key: Bytes | |key| == 32 ::
          Lookup(t, Expand(key)) == if key in ledger then Some(EncodeBalances(ledger[key])) else None)
    && (forall key | key in ledger :: |key| == 32)
  }

  /** What is exported is the ledger that was committed. */
  lemma LedgerExported(t: Trie, ledger: map<Bytes, seq<Holding>>, accounts: map<Bytes, Balances>)
    requires Commits(t, ledger) && Exports(t, accounts)
    ensures accounts == map key | key in ledger :: MapOf(Normals(ledger[key]))
  {
    hide BalancesOf, EncodeBalances, Lookup, Expand, AllStorable, Compactable, MapOf, Normals;
    forall key: Bytes
      ensures key in accounts <==> key in ledger
      ensures key in accounts ==> accounts[key] == MapOf(Normals(ledger[key]))
    {
      assert ExportsKey(Lookup(t, Expand(key)), key, accounts);
      if key in ledger {
        BalancesRoundTrip(ledger[key]);
      }
    }
  }
}
