/**
  Trie nodes in the LayoutV1 encoding: a header byte with the node kind and the number of
  key nibbles, the nibbles packed in pairs, then a value and up to sixteen child references.
 */
module NodeCodec {
  import opened ByteStrings
  import opened Scale

  datatype ValueRef = Inline(bytes: Bytes) | Hashed(digest: Bytes)

  datatype ChildRef = HashRef(digest: Bytes) | InlineRef(bytes: Bytes) {
    function Payload(): Bytes {
      match this
      case HashRef(digest) => digest
      case InlineRef(bytes) => bytes
    }
  }

  datatype Node =
    | Empty
    | Leaf(partial: Nibbles, value: ValueRef)
    | Branch(partial: Nibbles, optValue: Option<ValueRef>, children: seq<Option<ChildRef>>)

  datatype Kind = EmptyKind | LeafKind | BranchKind | BranchValueKind | LeafHashedKind | BranchHashedKind {
    /** The fixed high bits of the header byte. */
    function Tag(): Byte {
      match this
      case EmptyKind => 0
      case LeafKind => 0x40
      case BranchKind => 0x80
      case BranchValueKind => 0xC0
      case LeafHashedKind => 0x20
      case BranchHashedKind => 0x10
    }

    /** The largest number the header byte can carry itself. */
    function Capacity(): Byte {
      match this
      case EmptyKind => 0
      case LeafHashedKind => 31
      case BranchHashedKind => 15
      case _ => 63
    }
  }

  datatype Header = Header(kind: Kind, nibbles: nat, next: nat)

  // ------------------------------------------------------------------ decoding

  function KindOf(b: Byte): Option<Kind> {
    if b == 0 then Some(EmptyKind)
    else if b >= 0xC0 then Some(BranchValueKind)
    else if b >= 0x80 then Some(BranchKind)
    else if b >= 0x40 then Some(LeafKind)
    else if b >= 0x20 then Some(LeafHashedKind)
    else if b >= 0x10 then Some(BranchHashedKind)
    else None
  }

  /** Continuation bytes: every 255 adds 255, the first smaller byte adds itself plus one. */
  function Continued(data: Bytes, pos: nat, n: nat): Option<Parsed<nat>>
    decreases |data| - pos
  {
    if |data| <= pos then None
    else if data[pos] < 255 then Some(Parsed(n + data[pos] + 1, pos + 1))
    else Continued(data, pos + 1, n + 255)
  }

  function HeaderOf(data: Bytes): Option<Header> {
    if data == [] then None else
    var kind :- KindOf(data[0]);
    if kind == EmptyKind then Some(Header(EmptyKind, 0, 1)) else
    var n := data[0] - kind.Tag();
    if n < kind.Capacity() then Some(Header(kind, n, 1)) else
    var rest :- Continued(data, 1, kind.Capacity() - 1);
    Some(Header(kind, rest.value, rest.next))
  }

  function PartialOf(data: Bytes, pos: nat, count: nat): Option<Parsed<Nibbles>> {
    var width := (count + 1) / 2;
    var raw := Slice(data, pos, pos + width);
    if count % 2 == 0 then Some(Parsed(Expand(raw), pos + width))
    else if raw == [] then None
    else Some(Parsed([raw[0] % 16] + Expand(raw[1..]), pos + width))
  }

  /** A length-prefixed byte string. */
  function BlobOf(data: Bytes, pos: nat): Option<Parsed<Bytes>> {
    var len :- Compact(data, pos);
    Some(Parsed(Slice(data, len.next, len.next + len.value), len.next + len.value))
  }

  function ChildOf(data: Bytes, pos: nat): Option<Parsed<ChildRef>> {
    var len :- Compact(data, pos);
    var blob := Slice(data, len.next, len.next + len.value);
    Some(Parsed(if len.value == 32 then HashRef(blob) else InlineRef(blob), len.next + len.value))
  }

  function ChildrenOf(data: Bytes, pos: nat, bitmap: nat, count: nat): Option<seq<Option<ChildRef>>>
    decreases count, |data|
  {
    if count == 0 then Some([])
    else if bitmap % 2 == 0 then
      var rest :- ChildrenOf(data, pos, bitmap / 2, count - 1);
      Some([None] + rest)
    else
      var child :- ChildOf(data, pos);
      var rest :- ChildrenOf(data, child.next, bitmap / 2, count - 1);
      Some([Some(child.value)] + rest)
  }

  function BranchOf(data: Bytes, kind: Kind, partial: Nibbles, pos: nat): Option<Node> {
    if |data| < pos + 2 then None else
    var bitmap := LeNat(data[pos..pos + 2]);
    match kind
    case BranchValueKind =>
      var value :- BlobOf(data, pos + 2);
      var children :- ChildrenOf(data, value.next, bitmap, 16);
      Some(Branch(partial, Some(Inline(value.value)), children))
    case BranchHashedKind =>
      var children :- ChildrenOf(data, pos + 34, bitmap, 16);
      Some(Branch(partial, Some(Hashed(Slice(data, pos + 2, pos + 34))), children))
    case _ =>
      var children :- ChildrenOf(data, pos + 2, bitmap, 16);
      Some(Branch(partial, None, children))
  }

  /** The node a byte string describes. None where the reader raises. */
  function NodeOf(data: Bytes): Option<Node> {
    var header :- HeaderOf(data);
    if header.kind == EmptyKind then Some(Empty) else
    var partial :- PartialOf(data, header.next, header.nibbles);
    match header.kind
    case LeafKind =>
      var value :- BlobOf(data, partial.next);
      Some(Leaf(partial.value, Inline(value.value)))
    case LeafHashedKind =>
      Some(Leaf(partial.value, Hashed(Slice(data, partial.next, partial.next + 32))))
    case kind => BranchOf(data, kind, partial.value, partial.next)
  }

  // ------------------------------------------------------------------ the reader's loops

  method DecodeHeader(data: Bytes) returns (r: Option<Header>)
    ensures r == HeaderOf(data)
  {
    if data == [] {
      return None;
    }
    var b := data[0];
    var kind, bits: nat;
    if b == 0 {
      return Some(Header(EmptyKind, 0, 1));
    } else if b / 64 == 1 {
      kind, bits := LeafKind, 6;
    } else if b / 64 == 2 {
      kind, bits := BranchKind, 6;
    } else if b / 64 == 3 {
      kind, bits := BranchValueKind, 6;
    } else if b / 32 == 1 {
      kind, bits := LeafHashedKind, 5;
    } else if b / 16 == 1 {
      kind, bits := BranchHashedKind, 4;
    } else {
      return None;
    }
    PowersOfTwo();
    var maxv := Pow(2, bits) - 1;
    var n: nat := b % (maxv + 1);
    var pos := 1;
    if n == maxv {
      n := n - 1;
      while true
        invariant 1 <= pos <= |data|
        invariant Continued(data, 1, maxv - 1) == Continued(data, pos, n)
        decreases |data| - pos
      {
        if pos == |data| {
          return None;
        }
        var x := data[pos];
        pos := pos + 1;
        if x < 255 {
          n := n + x + 1;
          break;
        }
        n := n + 255;
      }
    }
    return Some(Header(kind, n, pos));
  }

  lemma PowersOfTwo()
    ensures Pow(2, 4) == 16 && Pow(2, 5) == 32 && Pow(2, 6) == 64
  {
    assert Pow(2, 2) == 4;
  }

  lemma ExpandStep(done: Nibbles, raw: Bytes, i: nat)
    requires i < |raw|
    ensures done + Expand(raw[i..]) == done + [raw[i] / 16] + [raw[i] % 16] + Expand(raw[i + 1..])
  {
    assert raw[i..][1..] == raw[i + 1..];
  }

  method AppendNibbles(head: Nibbles, raw: Bytes) returns (nibbles: Nibbles)
    ensures nibbles == head + Expand(raw)
  {
    hide Expand;
    nibbles := head;
    assert raw[0..] == raw;
    for i := 0 to |raw|
      invariant nibbles + Expand(raw[i..]) == head + Expand(raw)
    {
      ExpandStep(nibbles, raw, i);
      nibbles := nibbles + [raw[i] / 16];
      nibbles := nibbles + [raw[i] % 16];
    }
    assert raw[|raw|..] == [];
  }

  method DecodePartial(data: Bytes, pos: nat, count: nat) returns (r: Option<Parsed<Nibbles>>)
    ensures r == PartialOf(data, pos, count)
  {
    var width := (count + 1) / 2;
    var raw := Slice(data, pos, pos + width);
    hide Slice, Expand;
    var nibbles: Nibbles := [];
    var i := 0;
    if count % 2 == 1 {
      if raw == [] {
        return None;
      }
      nibbles := [raw[0] % 16];
      i := 1;
    }
    nibbles := AppendNibbles(nibbles, raw[i..]);
    assert raw[0..] == raw && [] + Expand(raw) == Expand(raw);
    return Some(Parsed(nibbles, pos + width));
  }

  /** The bits from position i up. */
  function Shift(bits: nat, i: nat): nat {
    if i == 0 then bits else Shift(bits / 2, i - 1)
  }

  lemma ShiftNone(bits: nat)
    ensures Shift(bits, 0) == bits
  {
  }

  lemma ShiftOnce(bits: nat, i: nat)
    ensures Shift(bits, i + 1) == Shift(bits, i) / 2
  {
    if i > 0 {
      ShiftOnce(bits / 2, i - 1);
    }
  }

  method DecodeChild(data: Bytes, pos: nat) returns (r: Option<Parsed<ChildRef>>)
    ensures r == ChildOf(data, pos)
  {
    var len :- Compact(data, pos);
    var end := len.next + len.value;
    var child := Slice(data, len.next, end);
    return Some(Parsed(if len.value == 32 then HashRef(child) else InlineRef(child), end));
  }

  /** The children read so far, and then those of the remaining n slots. */
  ghost function WithRest(children: seq<Option<ChildRef>>, data: Bytes, pos: nat, bits: nat,
                          n: nat): Option<seq<Option<ChildRef>>> {
    match ChildrenOf(data, pos, bits, n)
    case None => None
    case Some(rest) => Some(children + rest)
  }

  /** Reading one slot of them. */
  lemma NextSlot(children: seq<Option<ChildRef>>, data: Bytes, pos: nat, bits: nat, n: nat)
    requires n > 0
    ensures var all := WithRest(children, data, pos, bits, n);
            if bits % 2 == 0 then all == WithRest(children + [None], data, pos, bits / 2, n - 1)
            else match ChildOf(data, pos)
                 case None => all == None
                 case Some(child) => all == WithRest(children + [Some(child.value)], data, child.next, bits / 2, n - 1)
  {
    hide ChildOf;
    var rest := ChildrenOf(data, pos, bits, n);
    if rest.Some? {
      assert rest.value == [rest.value[0]] + rest.value[1..];
      ConcatAssociates(children, [rest.value[0]], rest.value[1..]);
    }
  }

  lemma SlotsEnds(children: seq<Option<ChildRef>>, data: Bytes, pos: nat, bits: nat, n: nat)
    ensures WithRest(children, data, pos, bits, 0) == Some(children)
    ensures WithRest([], data, pos, bits, n) == ChildrenOf(data, pos, bits, n)
  {
    ConcatNothing(children);
    assert forall rest: seq<Option<ChildRef>> :: [] + rest == rest;
  }

  method DecodeChildren(data: Bytes, start: nat, bitmap: nat) returns (r: Option<seq<Option<ChildRef>>>)
    ensures r == ChildrenOf(data, start, bitmap, 16)
  {
    hide ChildOf, Shift, WithRest, ChildrenOf;
    var pos := start;
    var children: seq<Option<ChildRef>> := [];
    SlotsEnds([], data, start, bitmap, 16);
    ShiftNone(bitmap);
    for i := 0 to 16
      invariant ChildrenOf(data, start, bitmap, 16) == WithRest(children, data, pos, Shift(bitmap, i), 16 - i)
    {
      ShiftOnce(bitmap, i);
      NextSlot(children, data, pos, Shift(bitmap, i), 16 - i);
      var entry := None;
      if Shift(bitmap, i) % 2 == 1 {
        var child := DecodeChild(data, pos);
        if child == None {
          return None;
        }
        entry, pos := Some(child.value.value), child.value.next;
      }
      children := children + [entry];
    }
    SlotsEnds(children, data, pos, Shift(bitmap, 16), 0);
    return Some(children);
  }

  method DecodeBranch(data: Bytes, kind: Kind, partial: Nibbles, start: nat) returns (r: Option<Node>)
    requires kind in {BranchKind, BranchValueKind, BranchHashedKind}
    ensures r == BranchOf(data, kind, partial, start)
  {
    if |data| < start + 2 {
      return None;
    }
    var bitmap := LeNat(data[start..start + 2]);
    var pos := start + 2;
    var value := None;
    if kind == BranchValueKind {
      var len :- Compact(data, pos);
      value := Some(Inline(Slice(data, len.next, len.next + len.value)));
      pos := len.next + len.value;
    } else if kind == BranchHashedKind {
      value := Some(Hashed(Slice(data, pos, pos + 32)));
      pos := pos + 32;
    }
    var children :- DecodeChildren(data, pos, bitmap);
    return Some(Branch(partial, value, children));
  }

  method DecodeNode(data: Bytes) returns (r: Option<Node>)
    ensures r == NodeOf(data)
  {
    var header :- DecodeHeader(data);
    if header.kind == EmptyKind {
      return Some(Empty);
    }
    var partial :- DecodePartial(data, header.next, header.nibbles);
    var pos := partial.next;
    if header.kind == LeafKind {
      var len :- Compact(data, pos);
      return Some(Leaf(partial.value, Inline(Slice(data, len.next, len.next + len.value))));
    }
    if header.kind == LeafHashedKind {
      return Some(Leaf(partial.value, Hashed(Slice(data, pos, pos + 32))));
    }
    r := DecodeBranch(data, header.kind, partial.value, pos);
  }

  // ------------------------------------------------------------------ encoding

  function Continuation(n: nat): (s: Bytes)
    ensures s != []
  {
    if n < 255 then [n] else [255] + Continuation(n - 255)
  }

  function EncodeHeader(kind: Kind, n: nat): Bytes
    requires kind != EmptyKind
  {
    if n < kind.Capacity() then [kind.Tag() + n]
    else [kind.Tag() + kind.Capacity()] + Continuation(n - kind.Capacity())
  }

  function EncodePartial(ns: Nibbles): Bytes {
    if |ns| % 2 == 0 then Pack(ns) else [ns[0]] + Pack(ns[1..])
  }

  function EncodeBlob(s: Bytes): Bytes
    requires Compactable(|s|)
  {
    EncodeCompact(|s|) + s
  }

  function Bitmap(children: seq<Option<ChildRef>>): nat {
    if children == [] then 0 else (if children[0].Some? then 1 else 0) + 2 * Bitmap(children[1..])
  }

  ghost predicate EncodableValue(v: ValueRef) {
    match v
    case Inline(bytes) => Compactable(|bytes|)
    case Hashed(digest) => |digest| == 32
  }

  /** An inline child of exactly 32 bytes cannot be told from a digest. */
  ghost predicate EncodableChild(c: ChildRef) {
    match c
    case HashRef(digest) => |digest| == 32
    case InlineRef(bytes) => |bytes| != 32 && Compactable(|bytes|)
  }

  ghost predicate EncodableChildren(children: seq<Option<ChildRef>>) {
    forall i | 0 <= i < |children| :: children[i].Some? ==> EncodableChild(children[i].value)
  }

  ghost predicate Encodable(node: Node) {
    match node
    case Empty => true
    case Leaf(_, value) => EncodableValue(value)
    case Branch(_, value, children) =>
      (value.Some? ==> EncodableValue(value.value)) && |children| == 16 && EncodableChildren(children)
  }

  lemma DigestCompactable()
    ensures Compactable(32)
  {
    assert ByteLen(32) == 1;
  }

  ghost function EncodeChild(c: ChildRef): Bytes
    requires EncodableChild(c)
  {
    DigestCompactable();
    EncodeBlob(c.Payload())
  }

  ghost function EncodeChildren(children: seq<Option<ChildRef>>): Bytes
    requires EncodableChildren(children)
  {
    if children == [] then []
    else (if children[0].Some? then EncodeChild(children[0].value) else []) + EncodeChildren(children[1..])
  }

  ghost function EncodeValue(v: ValueRef): Bytes
    requires EncodableValue(v)
  {
    match v
    case Inline(bytes) => EncodeBlob(bytes)
    case Hashed(digest) => digest
  }

  ghost function EncodeOptValue(v: Option<ValueRef>): Bytes
    requires v.Some? ==> EncodableValue(v.value)
  {
    if v.Some? then EncodeValue(v.value) else []
  }

  function NodeKind(node: Node): Kind {
    match node
    case Empty => EmptyKind
    case Leaf(_, Inline(_)) => LeafKind
    case Leaf(_, Hashed(_)) => LeafHashedKind
    case Branch(_, None, _) => BranchKind
    case Branch(_, Some(Inline(_)), _) => BranchValueKind
    case Branch(_, Some(Hashed(_)), _) => BranchHashedKind
  }

  /** The LayoutV1 bytes of a node. */
  ghost function Encode(node: Node): (s: Bytes)
    requires Encodable(node)
    ensures s != []
  {
    match node
    case Empty => [0]
    case Leaf(partial, value) =>
      EncodeHeader(NodeKind(node), |partial|) + (EncodePartial(partial) + EncodeValue(value))
    case Branch(partial, value, children) =>
      EncodeHeader(NodeKind(node), |partial|) + (EncodePartial(partial) +
        (LeBytes(Bitmap(children), 2) + (EncodeOptValue(value) + EncodeChildren(children))))
  }

  // ------------------------------------------------------------------ decoding inverts encoding

  lemma {:induction false} ContinuedRoundTrip(data: Bytes, pos: nat, base: nat, n: nat)
    requires At(data, pos, Continuation(n))
    ensures Continued(data, pos, base) == Some(Parsed(base + n + 1, pos + |Continuation(n)|))
    decreases n
  {
    hide At;
    AtHead(data, pos, Continuation(n));
    if n >= 255 {
      AtConcat(data, pos, [255], Continuation(n - 255));
      ContinuedRoundTrip(data, pos + 1, base + 255, n - 255);
    }
  }

  lemma HeaderRoundTrip(data: Bytes, kind: Kind, n: nat)
    requires kind != EmptyKind && At(data, 0, EncodeHeader(kind, n))
    ensures HeaderOf(data) == Some(Header(kind, n, |EncodeHeader(kind, n)|))
  {
    hide At, Continued, Continuation;
    var enc := EncodeHeader(kind, n);
    AtHead(data, 0, enc);
    if n >= kind.Capacity() {
      AtConcat(data, 0, [enc[0]], Continuation(n - kind.Capacity()));
      ContinuedRoundTrip(data, 1, kind.Capacity() - 1, n - kind.Capacity());
    }
  }

  lemma PartialRoundTrip(data: Bytes, pos: nat, ns: Nibbles)
    requires At(data, pos, EncodePartial(ns))
    ensures PartialOf(data, pos, |ns|) == Some(Parsed(ns, pos + |EncodePartial(ns)|))
  {
    hide At, Slice, Pack, Expand;
    var enc := EncodePartial(ns);
    SliceAt(data, pos, enc);
    if |ns| % 2 == 0 {
      ExpandPack(ns);
    } else {
      ExpandPack(ns[1..]);
      assert enc[1..] == Pack(ns[1..]);
      assert ns == [ns[0]] + ns[1..];
    }
  }

  lemma BlobRoundTrip(data: Bytes, pos: nat, s: Bytes)
    requires Compactable(|s|) && At(data, pos, EncodeBlob(s))
    ensures BlobOf(data, pos) == Some(Parsed(s, pos + |EncodeBlob(s)|))
    ensures Compact(data, pos) == Some(Parsed(|s|, pos + |EncodeCompact(|s|)|))
  {
    hide At, Slice, EncodeCompact, Compact;
    AtConcat(data, pos, EncodeCompact(|s|), s);
    CompactRoundTrip(data, pos, |s|);
    SliceAt(data, pos + |EncodeCompact(|s|)|, s);
  }

  lemma ChildRoundTrip(data: Bytes, pos: nat, child: ChildRef)
    requires EncodableChild(child) && At(data, pos, EncodeChild(child))
    ensures ChildOf(data, pos) == Some(Parsed(child, pos + |EncodeChild(child)|))
  {
    hide At, Slice, Compact, EncodeCompact;
    DigestCompactable();
    BlobRoundTrip(data, pos, child.Payload());
  }

  lemma {:induction false} ChildrenRoundTrip(data: Bytes, pos: nat, children: seq<Option<ChildRef>>)
    requires EncodableChildren(children) && At(data, pos, EncodeChildren(children))
    ensures ChildrenOf(data, pos, Bitmap(children), |children|) == Some(children)
    decreases |children|
  {
    hide At, EncodeChild, ChildOf;
    if children != [] {
      var rest := children[1..];
      assert EncodableChildren(rest);
      assert Bitmap(children) / 2 == Bitmap(rest);
      assert children == [children[0]] + rest;
      if children[0].Some? {
        var child := children[0].value;
        AtConcat(data, pos, EncodeChild(child), EncodeChildren(rest));
        ChildRoundTrip(data, pos, child);
        ChildrenRoundTrip(data, pos + |EncodeChild(child)|, rest);
      } else {
        assert EncodeChildren(children) == EncodeChildren(rest);
        ChildrenRoundTrip(data, pos, rest);
      }
    }
  }

  lemma {:induction false} BitmapBound(children: seq<Option<ChildRef>>)
    ensures Bitmap(children) < Pow(2, |children|)
  {
    if children != [] {
      BitmapBound(children[1..]);
    }
  }

  lemma BitmapRoundTrip(children: seq<Option<ChildRef>>)
    requires |children| == 16
    ensures LeNat(LeBytes(Bitmap(children), 2)) == Bitmap(children)
  {
    BitmapBound(children);
    assert Pow(2, 16) == 0x1_0000 by {
      PowersOfTwo();
      assert Pow(2, 8) == 256;
      assert Pow(2, 12) == 4096;
    }
    Pow256Of2And4();
    LeRoundTrip(Bitmap(children), 2);
  }

  lemma BranchRoundTrip(data: Bytes, node: Node, pos: nat)
    requires node.Branch? && Encodable(node)
    requires At(data, pos, LeBytes(Bitmap(node.children), 2) +
                           (EncodeOptValue(node.optValue) + EncodeChildren(node.children)))
    ensures BranchOf(data, NodeKind(node), node.partial, pos) == Some(node)
  {
    hide At, Slice, EncodeChildren, ChildrenOf, EncodeBlob, BlobOf, Bitmap, LeBytes, LeNat;
    var bits, value, kids := LeBytes(Bitmap(node.children), 2), EncodeOptValue(node.optValue),
        EncodeChildren(node.children);
    AtConcat(data, pos, bits, value + kids);
    AtConcat(data, pos + 2, value, kids);
    SliceAt(data, pos, bits);
    BitmapRoundTrip(node.children);
    ChildrenRoundTrip(data, pos + 2 + |value|, node.children);
    match node.optValue
    case None =>
    case Some(Inline(bytes)) => BlobRoundTrip(data, pos + 2, bytes);
    case Some(Hashed(digest)) => SliceAt(data, pos + 2, digest);
  }

  lemma BodyRoundTrip(data: Bytes, node: Node)
    requires node != Empty && Encodable(node) && At(data, 0, Encode(node))
    ensures NodeOf(data) == Some(node)
  {
    hide At, Slice, EncodeHeader, HeaderOf, EncodePartial, PartialOf, EncodeBlob, BlobOf, BranchOf, Bitmap, LeBytes,
         EncodeOptValue, EncodeChildren, EncodableChildren;
    var kind, head, partial := NodeKind(node), EncodeHeader(NodeKind(node), |node.partial|),
        EncodePartial(node.partial);
    var pos := |head| + |partial|;
    HeaderRoundTripAfter(data, node);
    match node
    case Leaf(_, value) =>
      AtConcat(data, 0, head, partial + EncodeValue(value));
      AtConcat(data, |head|, partial, EncodeValue(value));
      PartialRoundTrip(data, |head|, node.partial);
      if value.Inline? {
        BlobRoundTrip(data, pos, value.bytes);
      } else {
        SliceAt(data, pos, value.digest);
      }
    case Branch(_, value, children) =>
      var body := LeBytes(Bitmap(children), 2) + (EncodeOptValue(value) + EncodeChildren(children));
      AtConcat(data, 0, head, partial + body);
      AtConcat(data, |head|, partial, body);
      PartialRoundTrip(data, |head|, node.partial);
      BranchRoundTrip(data, node, pos);
  }

  lemma HeaderRoundTripAfter(data: Bytes, node: Node)
    requires node != Empty && Encodable(node) && At(data, 0, Encode(node))
    ensures HeaderOf(data) == Some(Header(NodeKind(node), |node.partial|,
                                          |EncodeHeader(NodeKind(node), |node.partial|)|))
  {
    hide At, EncodeHeader, HeaderOf, EncodePartial, EncodeValue, Bitmap, LeBytes, EncodeOptValue, EncodeChildren;
    var head := EncodeHeader(NodeKind(node), |node.partial|);
    AtConcat(data, 0, head, Encode(node)[|head|..]);
    assert Encode(node) == head + Encode(node)[|head|..];
    HeaderRoundTrip(data, NodeKind(node), |node.partial|);
  }

  /** Reading a node back gives the node, whatever bytes follow it. */
  lemma NodeRoundTrip(node: Node, rest: Bytes)
    requires Encodable(node)
    ensures NodeOf(Encode(node) + rest) == Some(node)
  {
    if node != Empty {
      hide At, Encode;
      AtStart(Encode(node), rest);
      BodyRoundTrip(Encode(node) + rest, node);
    }
  }
}
