/**
  The Merkle trie a root commits to: what it stores under each key, the order of its
  entries, and the bytes that its digests are taken of.
 */
module Tries {
  import opened ByteStrings
  import opened NodeCodec

  /** A stored value, either inside its node or behind its own digest. */
  datatype Item = Item(bytes: Bytes, byHash: bool)

  datatype Trie =
    | EmptyTrie
    | LeafTrie(partial: Nibbles, item: Item)
    | BranchTrie(partial: Nibbles, optItem: Option<Item>, kids: seq<Kid>)

  /** A child slot; the child is referred to by digest or written inside its parent. */
  datatype Kid = NoKid | Kid(sub: Trie, byHash: bool)

  datatype Entry = Entry(key: Nibbles, value: Bytes)

  // ------------------------------------------------------------------ contents

  /** What the trie stores under a key: the reference meaning of a trie. */
  ghost function Lookup(t: Trie, key: Nibbles): Option<Bytes> {
    match t
    case EmptyTrie => None
    case LeafTrie(partial, item) => if key == partial then Some(item.bytes) else None
    case BranchTrie(partial, optItem, kids) =>
      if !(partial <= key) then None
      else if key == partial then
        if optItem.Some? then Some(optItem.value.bytes) else None
      else
        var slot := key[|partial|];
        if slot < |kids| && kids[slot].Kid? then Lookup(kids[slot].sub, key[|partial| + 1..]) else None
  }

  function ItemEntries(item: Option<Item>, key: Nibbles): seq<Entry> {
    if item.Some? then [Entry(key, item.value.bytes)] else []
  }

  /** Every branch has sixteen slots. */
  ghost predicate Shaped(t: Trie) {
    t.BranchTrie? ==> |t.kids| == 16 && forall i | 0 <= i < 16 :: t.kids[i].Kid? ==> Shaped(t.kids[i].sub)
  }

  /** The entries below `path` in depth-first order, a node's own value before its children. */
  ghost function Entries(t: Trie, path: Nibbles): seq<Entry>
    requires Shaped(t)
    decreases t, 17
  {
    match t
    case EmptyTrie => []
    case LeafTrie(partial, item) => [Entry(path + partial, item.bytes)]
    case BranchTrie(partial, optItem, kids) => ItemEntries(optItem, path + partial) + KidEntries(t, path + partial, 0)
  }

  ghost function SlotEntries(t: Trie, full: Nibbles, i: nat): seq<Entry>
    requires t.BranchTrie? && Shaped(t) && i < 16
    decreases t, 0
  {
    if t.kids[i].Kid? then Entries(t.kids[i].sub, full + [i]) else []
  }

  /** The entries of the children in the slots from i on. */
  ghost function KidEntries(t: Trie, full: Nibbles, i: nat): seq<Entry>
    requires t.BranchTrie? && Shaped(t) && i <= 16
    decreases t, 16 - i
  {
    if i == 16 then [] else SlotEntries(t, full, i) + KidEntries(t, full, i + 1)
  }

  // ------------------------------------------------------------------ entries are exactly what lookup finds

  lemma KeyInSlot(path: Nibbles, partial: Nibbles, slot: Nibble, key: Nibbles)
    requires path + partial + [slot] <= key
    ensures path + partial <= key && path <= key
    ensures var tail := key[|path|..];
            partial < tail && tail[|partial|] == slot && tail[|partial| + 1..] == key[|path + partial| + 1..]
  {
    var rest := key[|path + partial| + 1..];
    assert key == path + (partial + ([slot] + rest));
    assert key[|path|..] == partial + ([slot] + rest);
  }

  lemma {:induction false} EntriesBelow(t: Trie, path: Nibbles, e: Entry)
    requires Shaped(t) && e in Entries(t, path)
    ensures path <= e.key && Lookup(t, e.key[|path|..]) == Some(e.value)
    ensures !t.EmptyTrie? && path + t.partial <= e.key
    decreases t, 17
  {
    match t
    case LeafTrie(partial, item) =>
      assert e.key[|path|..] == partial;
    case BranchTrie(partial, optItem, kids) =>
      var full := path + partial;
      if e in KidEntries(t, full, 0) {
        var i := KidEntriesBelow(t, full, 0, e);
        KeyInSlot(path, partial, i, e.key);
      } else {
        assert e.key[|path|..] == partial;
      }
  }

  /** An entry from the slots from i on comes from one of them, and lookup in that child finds it. */
  lemma {:induction false} KidEntriesBelow(t: Trie, full: Nibbles, i: nat, e: Entry) returns (slot: Nibble)
    requires t.BranchTrie? && Shaped(t) && i <= 16 && e in KidEntries(t, full, i)
    ensures i <= slot && full + [slot] <= e.key && e in SlotEntries(t, full, slot)
    ensures t.kids[slot].Kid? && Lookup(t.kids[slot].sub, e.key[|full| + 1..]) == Some(e.value)
    decreases t, 16 - i
  {
    if i < 16 && e in SlotEntries(t, full, i) {
      EntriesBelow(t.kids[i].sub, full + [i], e);
      slot := i;
    } else {
      slot := KidEntriesBelow(t, full, i + 1, e);
    }
  }

  lemma {:induction false} LookupListed(t: Trie, path: Nibbles, key: Nibbles)
    requires Shaped(t) && Lookup(t, key).Some?
    ensures Entry(path + key, Lookup(t, key).value) in Entries(t, path)
    decreases t
  {
    if t.BranchTrie? && key != t.partial {
      var full, slot := path + t.partial, key[|t.partial|];
      var rest := key[|t.partial| + 1..];
      LookupListed(t.kids[slot].sub, full + [slot], rest);
      assert path + key == full + [slot] + rest;
      SlotListed(t, full, 0, slot, Entry(path + key, Lookup(t, key).value));
    }
  }

  lemma {:induction false} SlotListed(t: Trie, full: Nibbles, i: nat, slot: nat, e: Entry)
    requires t.BranchTrie? && Shaped(t) && i <= slot < 16 && e in SlotEntries(t, full, slot)
    ensures e in KidEntries(t, full, i)
    decreases slot - i
  {
    if i < slot {
      SlotListed(t, full, i + 1, slot, e);
    }
  }

  /** The entry list and lookup describe the same finite map. */
  lemma EntriesAreLookup(t: Trie, key: Nibbles, value: Bytes)
    requires Shaped(t)
    ensures Entry(key, value) in Entries(t, []) <==> Lookup(t, key) == Some(value)
  {
    if Entry(key, value) in Entries(t, []) {
      EntriesBelow(t, [], Entry(key, value));
      assert key[0..] == key;
    }
    if Lookup(t, key) == Some(value) {
      LookupListed(t, [], key);
      assert [] + key == key;
    }
  }

  // ------------------------------------------------------------------ entries are strictly ordered

  ghost predicate Ascending(es: seq<Entry>) {
    forall i, j | 0 <= i < j < |es| :: LexLess(es[i].key, es[j].key)
  }

  lemma AscendingConcat(a: seq<Entry>, b: seq<Entry>)
    requires Ascending(a) && Ascending(b)
    requires forall x, y | x in a && y in b :: LexLess(x.key, y.key)
    ensures Ascending(a + b)
  {
    var es := a + b;
    forall i, j | 0 <= i < j < |es|
      ensures LexLess(es[i].key, es[j].key)
    {
      if i < |a| <= j {
        assert es[i] in a && es[j] in b;
      }
    }
  }

  lemma LexSiblings(full: Nibbles, i: Nibble, j: Nibble, a: Nibbles, b: Nibbles)
    requires i < j && full + [i] <= a && full + [j] <= b
    ensures LexLess(a, b) && LexLess(full, b)
  {
    var n := |full|;
    assert a == full + a[n..] && b == full + b[n..] && full == full + [];
    LexCommonPrefix(full, a[n..], b[n..]);
    LexCommonPrefix(full, [], b[n..]);
    assert a[n] == (full + [i])[n] == i && b[n] == (full + [j])[n] == j;
  }

  lemma LexExtension(full: Nibbles, b: Nibbles)
    requires full < b
    ensures LexLess(full, b)
  {
    assert b == full + b[|full|..] && full == full + [];
    LexCommonPrefix(full, [], b[|full|..]);
  }

  lemma {:induction false} EntriesAscend(t: Trie, path: Nibbles)
    requires Shaped(t)
    ensures Ascending(Entries(t, path))
    decreases t, 17
  {
    if t.BranchTrie? {
      var full := path + t.partial;
      KidEntriesAscend(t, full, 0);
      forall x, y | x in ItemEntries(t.optItem, full) && y in KidEntries(t, full, 0)
        ensures LexLess(x.key, y.key)
      {
        var slot := KidEntriesBelow(t, full, 0, y);
        assert full < full + [slot];
        LexExtension(full, y.key);
      }
      AscendingConcat(ItemEntries(t.optItem, full), KidEntries(t, full, 0));
    }
  }

  lemma {:induction false} KidEntriesAscend(t: Trie, full: Nibbles, i: nat)
    requires t.BranchTrie? && Shaped(t) && i <= 16
    ensures Ascending(KidEntries(t, full, i))
    decreases t, 16 - i
  {
    if i < 16 {
      KidEntriesAscend(t, full, i + 1);
      if t.kids[i].Kid? {
        EntriesAscend(t.kids[i].sub, full + [i]);
      }
      forall x, y | x in SlotEntries(t, full, i) && y in KidEntries(t, full, i + 1)
        ensures LexLess(x.key, y.key)
      {
        EntriesBelow(t.kids[i].sub, full + [i], x);
        var slot := KidEntriesBelow(t, full, i + 1, y);
        LexSiblings(full, i, slot, x.key, y.key);
      }
      AscendingConcat(SlotEntries(t, full, i), KidEntries(t, full, i + 1));
    }
  }

  // ------------------------------------------------------------------ the committed bytes

  ghost function ValueRefOf(hash: Bytes -> Hash, item: Item): ValueRef {
    if item.byHash then Hashed(hash(item.bytes)) else Inline(item.bytes)
  }

  /** The trie can be written down: lengths fit, and no child written inline has the length of a digest. */
  ghost predicate Committable(hash: Bytes -> Hash, t: Trie)
    decreases t, 1
  {
    match t
    case EmptyTrie => true
    case LeafTrie(_, item) => EncodableValue(ValueRefOf(hash, item))
    case BranchTrie(_, optItem, kids) =>
      && (optItem.Some? ==> EncodableValue(ValueRefOf(hash, optItem.value)))
      && |kids| == 16
      && forall i | 0 <= i < 16 :: kids[i].Kid? ==> CommittableKid(hash, kids[i])
  }

  ghost predicate CommittableKid(hash: Bytes -> Hash, kid: Kid)
    requires kid.Kid?
    decreases kid, 0
  {
    && Committable(hash, kid.sub)
    && (kid.byHash || EncodableChild(InlineRef(TrieBytes(hash, kid.sub))))
  }

  ghost function RefOf(hash: Bytes -> Hash, kid: Kid): (ref: ChildRef)
    requires kid.Kid? && CommittableKid(hash, kid)
    ensures EncodableChild(ref)
    decreases kid, 1
  {
    if kid.byHash then HashRef(hash(TrieBytes(hash, kid.sub))) else InlineRef(TrieBytes(hash, kid.sub))
  }

  ghost function TrieNode(hash: Bytes -> Hash, t: Trie): (node: Node)
    requires Committable(hash, t)
    ensures Encodable(node)
    decreases t, 2
  {
    match t
    case EmptyTrie => Empty
    case LeafTrie(partial, item) => Leaf(partial, ValueRefOf(hash, item))
    case BranchTrie(partial, optItem, kids) =>
      Branch(partial,
             if optItem.Some? then Some(ValueRefOf(hash, optItem.value)) else None,
             seq(16, i requires 0 <= i < 16 =>
               if kids[i].Kid? then Some(RefOf(hash, kids[i])) else None))
  }

  ghost function TrieBytes(hash: Bytes -> Hash, t: Trie): Bytes
    requires Committable(hash, t)
    decreases t, 3
  {
    Encode(TrieNode(hash, t))
  }

  lemma {:induction false} CommittableShaped(hash: Bytes -> Hash, t: Trie)
    requires Committable(hash, t)
    ensures Shaped(t)
  {
    if t.BranchTrie? {
      forall i | 0 <= i < 16 && t.kids[i].Kid?
        ensures Shaped(t.kids[i].sub)
      {
        assert CommittableKid(hash, t.kids[i]);
        CommittableShaped(hash, t.kids[i].sub);
      }
    }
  }

  /** Reading the committed bytes gives the trie's top node. */
  lemma TrieBytesDecode(hash: Bytes -> Hash, t: Trie)
    requires Committable(hash, t)
    ensures NodeOf(TrieBytes(hash, t)) == Some(TrieNode(hash, t))
  {
    hide NodeOf, Encode, TrieNode;
    var node := TrieNode(hash, t);
    NodeRoundTrip(node, []);
    assert Encode(node) + [] == Encode(node);
  }
}
