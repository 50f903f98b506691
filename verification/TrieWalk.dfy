/**
  The depth-first walk that extracts the ledger: an explicit stack of node references over a
  table of stored nodes, every fetched byte string checked against its digest.
 */
module TrieWalk {
  import opened ByteStrings
  import opened NodeCodec
  import opened Tries

  datatype WalkError = MissingNode | HashMismatch | OddKey

  datatype Fetched = Data(bytes: Bytes) | Refused(error: WalkError)

  /** Looks a digest up and, when asked to, checks the bytes against it. */
  function Fetch(hash: Bytes -> Hash, nodes: map<Bytes, Bytes>, digest: Bytes, verify: bool): Fetched {
    if digest !in nodes then Refused(MissingNode)
    else if verify && hash(nodes[digest]) != digest then Refused(HashMismatch)
    else Data(nodes[digest])
  }

  /** A node is given out if it is there and, when hashes are verified, has the digest asked for. */
  lemma FetchedIff(hash: Bytes -> Hash, nodes: map<Bytes, Bytes>, digest: Bytes)
    ensures digest !in nodes ==> forall verify :: Fetch(hash, nodes, digest, verify) == Refused(MissingNode)
    ensures digest in nodes ==> Fetch(hash, nodes, digest, false) == Data(nodes[digest])
    ensures digest in nodes ==>
              Fetch(hash, nodes, digest, true)
              == if hash(nodes[digest]) == digest then Data(nodes[digest]) else Refused(HashMismatch)
  {
  }

  // ------------------------------------------------------------------ what the table must hold

  /** The table gives these bytes for their digest. */
  ghost predicate Holds(hash: Bytes -> Hash, nodes: map<Bytes, Bytes>, bytes: Bytes) {
    hash(bytes) in nodes && nodes[hash(bytes)] == bytes
  }

  /** Whatever the table gives for the digest of these bytes, and passes the check, is these bytes.
      With the check on this is freedom from collisions with the row of that digest. */
  ghost predicate Trusted(hash: Bytes -> Hash, nodes: map<Bytes, Bytes>, verify: bool, bytes: Bytes) {
    hash(bytes) in nodes && (verify ==> hash(nodes[hash(bytes)]) == hash(bytes)) ==> nodes[hash(bytes)] == bytes
  }

  /** A property of every byte string that the trie refers to by digest. */
  ghost predicate AllItem(item: Item, p: Bytes -> bool) {
    item.byHash ==> p(item.bytes)
  }

  ghost predicate AllDigested(hash: Bytes -> Hash, t: Trie, p: Bytes -> bool)
    requires Committable(hash, t)
    decreases t, 1
  {
    match t
    case EmptyTrie => true
    case LeafTrie(_, item) => AllItem(item, p)
    case BranchTrie(_, optItem, kids) =>
      && (optItem.Some? ==> AllItem(optItem.value, p))
      && forall i | 0 <= i < 16 :: kids[i].Kid? ==> AllKid(hash, kids[i], p)
  }

  ghost predicate AllKid(hash: Bytes -> Hash, kid: Kid, p: Bytes -> bool)
    requires kid.Kid? && CommittableKid(hash, kid)
    decreases kid, 0
  {
    (kid.byHash ==> p(TrieBytes(hash, kid.sub))) && AllDigested(hash, kid.sub, p)
  }

  /** A root stands for its trie as a child referred to by digest. */
  function Root(t: Trie): Kid {
    Kid(t, true)
  }

  ghost predicate EvenKeys(es: seq<Entry>) {
    forall i | 0 <= i < |es| :: |es[i].key| % 2 == 0
  }

  // ------------------------------------------------------------------ the stack

  datatype Frame = Frame(ref: ChildRef, path: Nibbles)

  /** The committed subtree that a stack frame stands for. */
  datatype Task = Task(kid: Kid, path: Nibbles)

  ghost predicate Sound(hash: Bytes -> Hash, task: Task) {
    task.kid.Kid? && CommittableKid(hash, task.kid) && Shaped(task.kid.sub)
  }

  ghost predicate AllSound(hash: Bytes -> Hash, tasks: seq<Task>) {
    forall i | 0 <= i < |tasks| :: Sound(hash, tasks[i])
  }

  ghost function FrameOf(hash: Bytes -> Hash, task: Task): Frame
    requires Sound(hash, task)
  {
    Frame(RefOf(hash, task.kid), task.path)
  }

  ghost predicate Tracks(hash: Bytes -> Hash, stack: seq<Frame>, tasks: seq<Task>) {
    && |stack| == |tasks|
    && AllSound(hash, tasks)
    && forall i | 0 <= i < |tasks| :: Sound(hash, tasks[i]) && stack[i] == FrameOf(hash, tasks[i])
  }

  /** The entries still to come; the top of the stack is its end. */
  ghost function Remaining(hash: Bytes -> Hash, tasks: seq<Task>): seq<Entry>
    requires AllSound(hash, tasks)
  {
    if tasks == [] then []
    else
      var top := tasks[|tasks| - 1];
      assert Sound(hash, top);
      Entries(top.kid.sub, top.path) + Remaining(hash, tasks[..|tasks| - 1])
  }

  ghost predicate AllTasks(hash: Bytes -> Hash, tasks: seq<Task>, p: Bytes -> bool)
    requires AllSound(hash, tasks)
  {
    forall i | 0 <= i < |tasks| :: Sound(hash, tasks[i]) && AllKid(hash, tasks[i].kid, p)
  }

  // Sizes, for termination

  ghost function Size(t: Trie): nat
    requires Shaped(t)
    decreases t, 17
  {
    if t.BranchTrie? then 1 + SizeFrom(t, 0) else 1
  }

  ghost function SizeFrom(t: Trie, i: nat): nat
    requires t.BranchTrie? && Shaped(t) && i <= 16
    decreases t, 16 - i
  {
    if i == 16 then 0
    else (if t.kids[i].Kid? then Size(t.kids[i].sub) else 0) + SizeFrom(t, i + 1)
  }

  ghost function Work(hash: Bytes -> Hash, tasks: seq<Task>): nat
    requires AllSound(hash, tasks)
  {
    if tasks == [] then 0
    else
      var top := tasks[|tasks| - 1];
      assert Sound(hash, top);
      Size(top.kid.sub) + Work(hash, tasks[..|tasks| - 1])
  }

  /** A property of the children in the slots from i on. */
  ghost predicate AllFrom(hash: Bytes -> Hash, t: Trie, i: nat, p: Bytes -> bool)
    requires t.BranchTrie? && Committable(hash, t) && i <= 16
  {
    forall k | i <= k < 16 :: t.kids[k].Kid? ==> AllKid(hash, t.kids[k], p)
  }

  lemma PushedTask(hash: Bytes -> Hash, tasks: seq<Task>, task: Task)
    requires AllSound(hash, tasks) && Sound(hash, task)
    ensures AllSound(hash, tasks + [task])
    ensures Remaining(hash, tasks + [task]) == Entries(task.kid.sub, task.path) + Remaining(hash, tasks)
    ensures Work(hash, tasks + [task]) == Size(task.kid.sub) + Work(hash, tasks)
  {
    var all := tasks + [task];
    assert all[..|all| - 1] == tasks && all[|all| - 1] == task;
    forall i | 0 <= i < |all| ensures Sound(hash, all[i]) { assert i < |tasks| ==> all[i] == tasks[i]; }
  }

  lemma PushedAll(hash: Bytes -> Hash, tasks: seq<Task>, task: Task, p: Bytes -> bool)
    requires AllSound(hash, tasks) && Sound(hash, task) && AllSound(hash, tasks + [task])
    ensures AllTasks(hash, tasks + [task], p) <==> AllTasks(hash, tasks, p) && AllKid(hash, task.kid, p)
  {
    var all := tasks + [task];
    if AllTasks(hash, all, p) {
      forall i | 0 <= i < |tasks|
        ensures Sound(hash, tasks[i]) && AllKid(hash, tasks[i].kid, p)
      {
        assert all[i] == tasks[i];
      }
      assert AllKid(hash, all[|tasks|].kid, p);
    }
  }

  // ------------------------------------------------------------------ pushing the children of a branch

  /** `pushed` is `tasks` with the children in the slots from i on stacked on top, lowest slot last. */
  ghost predicate Stacked(hash: Bytes -> Hash, t: Trie, full: Nibbles, i: nat, tasks: seq<Task>, pushed: seq<Task>,
                          p: Bytes -> bool)
    requires t.BranchTrie? && Committable(hash, t) && Shaped(t) && i <= 16
  {
    && AllSound(hash, tasks) && AllSound(hash, pushed)
    && Remaining(hash, pushed) == KidEntries(t, full, i) + Remaining(hash, tasks)
    && Work(hash, pushed) == SizeFrom(t, i) + Work(hash, tasks)
    && (AllTasks(hash, pushed, p) <==> AllFrom(hash, t, i, p) && AllTasks(hash, tasks, p))
  }

  lemma StackNothing(hash: Bytes -> Hash, t: Trie, full: Nibbles, tasks: seq<Task>, p: Bytes -> bool)
    requires t.BranchTrie? && Committable(hash, t) && Shaped(t) && AllSound(hash, tasks)
    ensures Stacked(hash, t, full, 16, tasks, tasks, p)
  {
    hide Remaining, AllTasks, Work;
    assert [] + Remaining(hash, tasks) == Remaining(hash, tasks);
  }

  lemma StackNoKid(hash: Bytes -> Hash, t: Trie, full: Nibbles, i: nat, tasks: seq<Task>, pushed: seq<Task>,
                   p: Bytes -> bool)
    requires t.BranchTrie? && Committable(hash, t) && Shaped(t) && i < 16 && t.kids[i].NoKid?
    requires Stacked(hash, t, full, i + 1, tasks, pushed, p)
    ensures Stacked(hash, t, full, i, tasks, pushed, p)
  {
    hide Remaining, AllTasks, AllSound, Work, Committable, CommittableKid, Shaped;
    SlotSteps(hash, t, full, i, p);
    hide AllFrom, KidEntries, SizeFrom;
  }

  lemma StackKid(hash: Bytes -> Hash, t: Trie, full: Nibbles, i: nat, tasks: seq<Task>, pushed: seq<Task>,
                 p: Bytes -> bool)
    requires t.BranchTrie? && Committable(hash, t) && Shaped(t) && i < 16 && t.kids[i].Kid?
    requires Stacked(hash, t, full, i + 1, tasks, pushed, p)
    ensures Stacked(hash, t, full, i, tasks, pushed + [Task(t.kids[i], full + [i])], p)
  {
    hide Remaining, AllTasks, AllSound, Work, Entries, AllKid, CommittableKid, Size, AllFrom, KidEntries, SizeFrom;
    var task := Task(t.kids[i], full + [i]);
    SlotSteps(hash, t, full, i, p);
    SlotSound(hash, t, full, i);
    PushedTask(hash, pushed, task);
    PushedAll(hash, pushed, task, p);
    var a, b, c := Entries(task.kid.sub, task.path), KidEntries(t, full, i + 1), Remaining(hash, tasks);
    ConcatAssociates(a, b, c);
  }

  lemma SlotSteps(hash: Bytes -> Hash, t: Trie, full: Nibbles, i: nat, p: Bytes -> bool)
    requires t.BranchTrie? && Committable(hash, t) && Shaped(t) && i < 16
    ensures AllFrom(hash, t, i, p) <==> (t.kids[i].Kid? ==> AllKid(hash, t.kids[i], p)) && AllFrom(hash, t, i + 1, p)
    ensures t.kids[i].Kid? ==> KidEntries(t, full, i) == Entries(t.kids[i].sub, full + [i]) + KidEntries(t, full, i + 1)
    ensures t.kids[i].NoKid? ==> KidEntries(t, full, i) == KidEntries(t, full, i + 1)
    ensures SizeFrom(t, i) == (if t.kids[i].Kid? then Size(t.kids[i].sub) else 0) + SizeFrom(t, i + 1)
  {
    hide AllKid, Entries, Size;
    assert [] + KidEntries(t, full, i + 1) == KidEntries(t, full, i + 1);
  }

  lemma SlotSound(hash: Bytes -> Hash, t: Trie, full: Nibbles, i: nat)
    requires t.BranchTrie? && Committable(hash, t) && Shaped(t) && i < 16 && t.kids[i].Kid?
    ensures Sound(hash, Task(t.kids[i], full + [i]))
    ensures TrieNode(hash, t).children[i] == Some(RefOf(hash, t.kids[i]))
  {
  }

  lemma TracksPush(hash: Bytes -> Hash, stack: seq<Frame>, tasks: seq<Task>, task: Task)
    requires Tracks(hash, stack, tasks) && Sound(hash, task)
    ensures Tracks(hash, stack + [FrameOf(hash, task)], tasks + [task])
  {
    hide Sound, RefOf;
  }

  /** The children of a branch go on the stack with the first one on top. */
  method PushChildren(ghost hash: Bytes -> Hash, base: seq<Frame>, ghost tasks: seq<Task>, ghost t: Trie,
                      children: seq<Option<ChildRef>>, full: Nibbles, ghost p: Bytes -> bool, ghost q: Bytes -> bool)
    returns (stack: seq<Frame>, ghost pushed: seq<Task>)
    requires t.BranchTrie? && Committable(hash, t) && Shaped(t) && Tracks(hash, base, tasks)
    requires children == TrieNode(hash, t).children
    ensures Tracks(hash, stack, pushed)
    ensures Stacked(hash, t, full, 0, tasks, pushed, p) && Stacked(hash, t, full, 0, tasks, pushed, q)
  {
    stack, pushed := base, tasks;
    StackNothing(hash, t, full, tasks, p);
    StackNothing(hash, t, full, tasks, q);
    hide Stacked, AllSound, RefOf, Shaped, CommittableKid, FrameOf;
    for i := 16 downto 0
      invariant Tracks(hash, stack, pushed)
      invariant Stacked(hash, t, full, i, tasks, pushed, p) && Stacked(hash, t, full, i, tasks, pushed, q)
    {
      if children[i].Some? {
        SlotSound(hash, t, full, i);
        StackKid(hash, t, full, i, tasks, pushed, p);
        StackKid(hash, t, full, i, tasks, pushed, q);
        ghost var task := Task(t.kids[i], full + [i]);
        TracksPush(hash, stack, pushed, task);
        FrameFor(hash, task);
        stack := stack + [Frame(children[i].value, full + [i])];
        pushed := pushed + [task];
      } else {
        StackNoKid(hash, t, full, i, tasks, pushed, p);
        StackNoKid(hash, t, full, i, tasks, pushed, q);
      }
    }
  }

  lemma FrameFor(hash: Bytes -> Hash, task: Task)
    requires Sound(hash, task)
    ensures FrameOf(hash, task) == Frame(RefOf(hash, task.kid), task.path)
  {
  }

  // ------------------------------------------------------------------ the walk

  ghost function HoldsIn(hash: Bytes -> Hash, nodes: map<Bytes, Bytes>): Bytes -> bool {
    bytes => Holds(hash, nodes, bytes)
  }

  ghost function TrustedIn(hash: Bytes -> Hash, nodes: map<Bytes, Bytes>, verify: bool): Bytes -> bool {
    bytes => Trusted(hash, nodes, verify, bytes)
  }

  /** Fetching a trusted digest succeeds exactly when the table holds its bytes, and gives them. */
  lemma FetchTrusted(hash: Bytes -> Hash, nodes: map<Bytes, Bytes>, verify: bool, bytes: Bytes)
    requires Trusted(hash, nodes, verify, bytes)
    ensures Fetch(hash, nodes, hash(bytes), verify).Data? <==> Holds(hash, nodes, bytes)
    ensures Holds(hash, nodes, bytes) ==> Fetch(hash, nodes, hash(bytes), verify) == Data(bytes)
  {
  }

  function TopPartial(t: Trie): Nibbles {
    if t.EmptyTrie? then [] else t.partial
  }

  function TopItem(t: Trie): Option<Item> {
    match t
    case EmptyTrie => None
    case LeafTrie(_, item) => Some(item)
    case BranchTrie(_, optItem, _) => optItem
  }

  function NodePartial(node: Node): Nibbles {
    if node.Empty? then [] else node.partial
  }

  function NodeValue(node: Node): Option<ValueRef> {
    match node
    case Empty => None
    case Leaf(_, value) => Some(value)
    case Branch(_, value, _) => value
  }

  /** A node's bytes: inline ones are at hand, others are fetched. */
  function ReadNode(hash: Bytes -> Hash, nodes: map<Bytes, Bytes>, verify: bool, ref: ChildRef): Fetched {
    match ref
    case HashRef(digest) => Fetch(hash, nodes, digest, verify)
    case InlineRef(bytes) => Data(bytes)
  }

  function ReadValue(hash: Bytes -> Hash, nodes: map<Bytes, Bytes>, verify: bool, ref: ValueRef): Fetched {
    match ref
    case Hashed(digest) => Fetch(hash, nodes, digest, verify)
    case Inline(bytes) => Data(bytes)
  }

  lemma ReadKid(hash: Bytes -> Hash, nodes: map<Bytes, Bytes>, verify: bool, kid: Kid)
    requires kid.Kid? && CommittableKid(hash, kid) && AllKid(hash, kid, TrustedIn(hash, nodes, verify))
    ensures AllDigested(hash, kid.sub, TrustedIn(hash, nodes, verify))
    ensures var data := ReadNode(hash, nodes, verify, RefOf(hash, kid));
            if data.Data? then data.bytes == TrieBytes(hash, kid.sub)
                               && (AllKid(hash, kid, HoldsIn(hash, nodes))
                                   <==> AllDigested(hash, kid.sub, HoldsIn(hash, nodes)))
            else !AllKid(hash, kid, HoldsIn(hash, nodes))
  {
    if kid.byHash {
      var bytes := TrieBytes(hash, kid.sub);
      assert TrustedIn(hash, nodes, verify)(bytes) && HoldsIn(hash, nodes)(bytes) == Holds(hash, nodes, bytes);
      hide TrieBytes, AllDigested;
      FetchTrusted(hash, nodes, verify, bytes);
    }
  }

  lemma ReadItem(hash: Bytes -> Hash, nodes: map<Bytes, Bytes>, verify: bool, item: Item)
    requires AllItem(item, TrustedIn(hash, nodes, verify))
    ensures var data := ReadValue(hash, nodes, verify, ValueRefOf(hash, item));
            && (data.Data? <==> AllItem(item, HoldsIn(hash, nodes)))
            && (data.Data? ==> data.bytes == item.bytes)
  {
    if item.byHash {
      assert TrustedIn(hash, nodes, verify)(item.bytes);
      assert HoldsIn(hash, nodes)(item.bytes) == Holds(hash, nodes, item.bytes);
      FetchTrusted(hash, nodes, verify, item.bytes);
    }
  }

  /** A trie seen through its top node: its value, then its children. */
  lemma TopNode(hash: Bytes -> Hash, t: Trie, path: Nibbles)
    requires Committable(hash, t) && Shaped(t)
    ensures var node, full := TrieNode(hash, t), path + TopPartial(t);
            && NodePartial(node) == TopPartial(t)
            && NodeValue(node) == (if TopItem(t).Some? then Some(ValueRefOf(hash, TopItem(t).value)) else None)
            && (node.Branch? <==> t.BranchTrie?)
            && Entries(t, path) == ItemEntries(TopItem(t), full)
               + (if t.BranchTrie? then KidEntries(t, full, 0) else [])
            && Size(t) == 1 + (if t.BranchTrie? then SizeFrom(t, 0) else 0)
    ensures forall p: Bytes -> bool :: AllDigested(hash, t, p) <==>
              (TopItem(t).Some? ==> AllItem(TopItem(t).value, p)) && (t.BranchTrie? ==> AllFrom(hash, t, 0, p))
  {
  }

  /** The pairs given out so far are the first entries, with their keys as bytes. */
  ghost predicate GivenOut(out: seq<(Bytes, Bytes)>, es: seq<Entry>) {
    && |out| <= |es|
    && forall i | 0 <= i < |out| :: |es[i].key| % 2 == 0 && out[i] == (Pack(es[i].key), es[i].value)
  }

  /** The state of the walk between two steps. */
  ghost predicate Underway(hash: Bytes -> Hash, nodes: map<Bytes, Bytes>, verify: bool, t: Trie,
                           stack: seq<Frame>, tasks: seq<Task>, out: seq<(Bytes, Bytes)>)
    requires Committable(hash, t) && Shaped(t)
  {
    var es := Entries(t, []);
    && Tracks(hash, stack, tasks)
    && GivenOut(out, es)
    && Remaining(hash, tasks) == es[|out|..]
    && AllTasks(hash, tasks, TrustedIn(hash, nodes, verify))
    && (AllTasks(hash, tasks, HoldsIn(hash, nodes)) <==> AllKid(hash, Root(t), HoldsIn(hash, nodes)))
  }

  lemma RootTask(hash: Bytes -> Hash, t: Trie)
    requires Committable(hash, t) && Shaped(t)
    ensures Sound(hash, Task(Root(t), []))
    ensures FrameOf(hash, Task(Root(t), [])) == Frame(HashRef(hash(TrieBytes(hash, t))), [])
    ensures GivenOut([], Entries(t, []))
  {
    hide Entries, TrieBytes;
  }

  lemma FirstTracked(hash: Bytes -> Hash, task: Task)
    requires Sound(hash, task)
    ensures Tracks(hash, [FrameOf(hash, task)], [task]) && AllSound(hash, [task])
  {
    hide Sound, FrameOf;
  }

  lemma FirstRemaining(hash: Bytes -> Hash, task: Task)
    requires Sound(hash, task) && AllSound(hash, [task])
    ensures Remaining(hash, [task]) == Entries(task.kid.sub, task.path)
  {
    hide Entries;
    assert [task][..0] == [] && Remaining(hash, []) == [];
    hide Remaining, Sound;
    PushedTask(hash, [], task);
    assert [] + [task] == [task];
    ConcatNothing(Entries(task.kid.sub, task.path));
  }

  lemma FirstAll(hash: Bytes -> Hash, task: Task, p: Bytes -> bool)
    requires Sound(hash, task) && AllSound(hash, [task])
    ensures AllTasks(hash, [task], p) <==> AllKid(hash, task.kid, p)
  {
    hide AllKid, Sound;
    assert [task][0] == task;
  }

  lemma WalkStarts(hash: Bytes -> Hash, nodes: map<Bytes, Bytes>, verify: bool, t: Trie)
    requires Committable(hash, t) && Shaped(t) && AllKid(hash, Root(t), TrustedIn(hash, nodes, verify))
    ensures Underway(hash, nodes, verify, t, [Frame(HashRef(hash(TrieBytes(hash, t))), [])], [Task(Root(t), [])], [])
  {
    var task := Task(Root(t), []);
    RootTask(hash, t);
    hide Entries, AllKid, TrieBytes, RefOf, Committable, Sound, Shaped, FrameOf, GivenOut, Tracks, AllTasks,
         Remaining, AllSound,
         TrustedIn, HoldsIn;
    FirstTracked(hash, task);
    FirstRemaining(hash, task);
    FirstAll(hash, task, TrustedIn(hash, nodes, verify));
    FirstAll(hash, task, HoldsIn(hash, nodes));
    assert Entries(t, [])[0..] == Entries(t, []);
  }

  lemma GiveOut(out: seq<(Bytes, Bytes)>, es: seq<Entry>, item: Option<Item>, full: Nibbles, rest: seq<Entry>)
    requires GivenOut(out, es) && es[|out|..] == ItemEntries(item, full) + rest
    ensures item.None? ==> es[|out|..] == rest
    ensures item.Some? ==> |out| < |es| && es[|out|] == Entry(full, item.value.bytes)
    ensures item.Some? && |full| % 2 == 0 ==>
              var out' := out + [(Pack(full), item.value.bytes)];
              GivenOut(out', es) && es[|out'|..] == rest
  {
    if item.None? {
      assert [] + rest == rest;
    } else {
      assert es[|out|..][0] == Entry(full, item.value.bytes);
      assert es[|out|..][1..] == es[|out| + 1..];
    }
  }

  lemma WalkPops(hash: Bytes -> Hash, nodes: map<Bytes, Bytes>, verify: bool, t: Trie,
                 stack: seq<Frame>, tasks: seq<Task>, out: seq<(Bytes, Bytes)>)
    requires Committable(hash, t) && Shaped(t) && stack != []
    requires Underway(hash, nodes, verify, t, stack, tasks, out)
    ensures var n := |stack| - 1; var task, rest := tasks[n], tasks[..n];
            && Sound(hash, task) && stack[n] == FrameOf(hash, task) && Tracks(hash, stack[..n], rest)
            && AllKid(hash, task.kid, TrustedIn(hash, nodes, verify))
            && AllTasks(hash, rest, TrustedIn(hash, nodes, verify))
            && Entries(t, [])[|out|..] == Entries(task.kid.sub, task.path) + Remaining(hash, rest)
            && Work(hash, tasks) == Size(task.kid.sub) + Work(hash, rest)
            && (AllKid(hash, task.kid, HoldsIn(hash, nodes)) && AllTasks(hash, rest, HoldsIn(hash, nodes))
                <==> AllKid(hash, Root(t), HoldsIn(hash, nodes)))
  {
    hide Entries, AllKid, RefOf;
    var n := |stack| - 1;
    var task, rest := tasks[n], tasks[..n];
    assert Sound(hash, tasks[n]) && AllSound(hash, rest);
    assert tasks == rest + [task];
    PushedTask(hash, rest, task);
    PushedAll(hash, rest, task, TrustedIn(hash, nodes, verify));
    PushedAll(hash, rest, task, HoldsIn(hash, nodes));
  }

  /** What is left after a subtree's own value: its children's entries, then the rest of the stack. */
  ghost function AfterItem(hash: Bytes -> Hash, sub: Trie, full: Nibbles, tasks: seq<Task>): seq<Entry>
    requires Shaped(sub) && AllSound(hash, tasks)
  {
    if sub.BranchTrie? then KidEntries(sub, full, 0) + Remaining(hash, tasks) else Remaining(hash, tasks)
  }

  lemma SplitItem(hash: Bytes -> Hash, sub: Trie, path: Nibbles, tasks: seq<Task>)
    requires Committable(hash, sub) && Shaped(sub) && AllSound(hash, tasks)
    ensures Entries(sub, path) + Remaining(hash, tasks)
         == ItemEntries(TopItem(sub), path + TopPartial(sub)) + AfterItem(hash, sub, path + TopPartial(sub), tasks)
  {
    TopNode(hash, sub, path);
    hide Entries, KidEntries, Remaining, ItemEntries;
    var full := path + TopPartial(sub);
    var a, c := ItemEntries(TopItem(sub), full), Remaining(hash, tasks);
    var b := if sub.BranchTrie? then KidEntries(sub, full, 0) else [];
    ConcatAssociates(a, b, c);
    ConcatNothing(c);
  }

  /** A subtree has been taken off the stack and its node read; its value and children are to be dealt with. */
  ghost predicate Opened(hash: Bytes -> Hash, nodes: map<Bytes, Bytes>, verify: bool, t: Trie, sub: Trie, path: Nibbles,
                         rest: seq<Task>, out: seq<(Bytes, Bytes)>)
    requires Committable(hash, t) && Shaped(t)
  {
    && Committable(hash, sub) && Shaped(sub) && AllSound(hash, rest)
    && GivenOut(out, Entries(t, []))
    && Entries(t, [])[|out|..] == Entries(sub, path) + Remaining(hash, rest)
    && AllDigested(hash, sub, TrustedIn(hash, nodes, verify))
    && AllTasks(hash, rest, TrustedIn(hash, nodes, verify))
    && (AllDigested(hash, sub, HoldsIn(hash, nodes)) && AllTasks(hash, rest, HoldsIn(hash, nodes))
        <==> AllKid(hash, Root(t), HoldsIn(hash, nodes)))
  }

  /** Everything the root commits to is there, and every key is whole bytes. */
  ghost predicate Extractable(hash: Bytes -> Hash, nodes: map<Bytes, Bytes>, t: Trie)
    requires Committable(hash, t) && Shaped(t)
  {
    AllKid(hash, Root(t), HoldsIn(hash, nodes)) && EvenKeys(Entries(t, []))
  }

  method Open(hash: Bytes -> Hash, nodes: map<Bytes, Bytes>, verify: bool, ghost t: Trie,
              stack: seq<Frame>, ghost tasks: seq<Task>, ghost out: seq<(Bytes, Bytes)>)
    returns (result: Fetched, node: Node)
    requires Committable(hash, t) && Shaped(t) && stack != []
    requires Underway(hash, nodes, verify, t, stack, tasks, out)
    ensures |tasks| == |stack| && Sound(hash, tasks[|stack| - 1]) && tasks[|stack| - 1].path == stack[|stack| - 1].path
    ensures var n := |stack| - 1; var task, rest := tasks[n], tasks[..n];
            if result.Refused? then !Extractable(hash, nodes, t)
            else Opened(hash, nodes, verify, t, task.kid.sub, task.path, rest, out)
                 && Tracks(hash, stack[..n], rest)
                 && Work(hash, tasks) == Size(task.kid.sub) + Work(hash, rest)
                 && node == TrieNode(hash, task.kid.sub)
  {
    hide Entries, AllKid, AllDigested, AllTasks, Remaining, Work, TrieBytes, TrieNode, RefOf, NodeOf, Size,
         Committable, Shaped, ReadNode, TrustedIn, HoldsIn;
    WalkPops(hash, nodes, verify, t, stack, tasks, out);
    var frame := stack[|stack| - 1];
    ghost var task := tasks[|stack| - 1];
    ReadKid(hash, nodes, verify, task.kid);
    result, node := ReadNode(hash, nodes, verify, frame.ref), Empty;
    if result.Data? {
      TrieBytesDecode(hash, task.kid.sub);
      var decoded := DecodeNode(result.bytes);
      node := decoded.value;
    }
  }

  /** Gives out the value of an opened node, if it has one. */
  method Emit(hash: Bytes -> Hash, nodes: map<Bytes, Bytes>, verify: bool, ghost t: Trie, ghost sub: Trie,
              path: Nibbles,
              ghost rest: seq<Task>, node: Node, given: seq<(Bytes, Bytes)>)
    returns (out: seq<(Bytes, Bytes)>, error: Option<WalkError>)
    requires Committable(hash, t) && Shaped(t) && Opened(hash, nodes, verify, t, sub, path, rest, given)
    requires node == TrieNode(hash, sub)
    ensures error.Some? ==> out == given && !Extractable(hash, nodes, t)
    ensures error.None? ==> GivenOut(out, Entries(t, []))
                            && Entries(t, [])[|out|..] == AfterItem(hash, sub, path + TopPartial(sub), rest)
                            && (TopItem(sub).Some? ==> AllItem(TopItem(sub).value, HoldsIn(hash, nodes)))
  {
    TopNode(hash, sub, path);
    SplitItem(hash, sub, path, rest);
    hide Entries, AllKid, AllDigested, AllTasks, Remaining, TrieNode, Committable, Shaped, ReadValue, AllItem,
         TrustedIn, HoldsIn, ItemEntries, AfterItem, AllFrom;
    var full := path + NodePartial(node);
    GiveOut(given, Entries(t, []), TopItem(sub), full, AfterItem(hash, sub, full, rest));
    out, error := given, None;
    if NodeValue(node).Some? {
      ReadItem(hash, nodes, verify, TopItem(sub).value);
      var value := ReadValue(hash, nodes, verify, NodeValue(node).value);
      if value.Refused? {
        return given, Some(value.error);
      }
      if |full| % 2 == 1 {
        return given, Some(OddKey);
      }
      out := given + [(Pack(full), value.bytes)];
    }
  }

  lemma LeafDone(hash: Bytes -> Hash, nodes: map<Bytes, Bytes>, verify: bool, t: Trie, sub: Trie, path: Nibbles,
                 rest: seq<Task>, given: seq<(Bytes, Bytes)>, stack: seq<Frame>, out: seq<(Bytes, Bytes)>)
    requires Committable(hash, t) && Shaped(t) && Opened(hash, nodes, verify, t, sub, path, rest, given)
    requires !sub.BranchTrie? && Tracks(hash, stack, rest) && GivenOut(out, Entries(t, []))
    requires Entries(t, [])[|out|..] == AfterItem(hash, sub, path + TopPartial(sub), rest)
    requires TopItem(sub).Some? ==> AllItem(TopItem(sub).value, HoldsIn(hash, nodes))
    ensures Underway(hash, nodes, verify, t, stack, rest, out) && Size(sub) == 1
  {
    TopNode(hash, sub, path);
    hide Entries, AllKid, AllDigested, AllTasks, Remaining, Committable, AllItem, TrustedIn, HoldsIn;
  }

  lemma BranchDone(hash: Bytes -> Hash, nodes: map<Bytes, Bytes>, verify: bool, t: Trie, sub: Trie, path: Nibbles,
                   rest: seq<Task>, given: seq<(Bytes, Bytes)>, stack: seq<Frame>, pushed: seq<Task>,
                       out: seq<(Bytes, Bytes)>)
    requires Committable(hash, t) && Shaped(t) && Opened(hash, nodes, verify, t, sub, path, rest, given)
    requires sub.BranchTrie? && Tracks(hash, stack, pushed) && GivenOut(out, Entries(t, []))
    requires Entries(t, [])[|out|..] == AfterItem(hash, sub, path + TopPartial(sub), rest)
    requires TopItem(sub).Some? ==> AllItem(TopItem(sub).value, HoldsIn(hash, nodes))
    requires Stacked(hash, sub, path + TopPartial(sub), 0, rest, pushed, TrustedIn(hash, nodes, verify))
    requires Stacked(hash, sub, path + TopPartial(sub), 0, rest, pushed, HoldsIn(hash, nodes))
    ensures Underway(hash, nodes, verify, t, stack, pushed, out) && Work(hash, pushed) < Size(sub) + Work(hash, rest)
  {
    TopNode(hash, sub, path);
    hide Entries, AllKid, AllDigested, AllTasks, Remaining, Committable, AllItem, TrustedIn, HoldsIn, Work, SizeFrom,
         KidEntries, AllFrom;
  }

  /** Keys come out in strictly increasing nibble order, so no key comes out twice. */
  lemma GivenInOrder(t: Trie, out: seq<(Bytes, Bytes)>, i: nat, j: nat)
    requires Shaped(t) && GivenOut(out, Entries(t, [])) && i < j < |out|
    ensures LexLess(Expand(out[i].0), Expand(out[j].0)) && out[i].0 != out[j].0
  {
    var es := Entries(t, []);
    EntriesAscend(t, []);
    assert LexLess(es[i].key, es[j].key);
    ExpandPack(es[i].key);
    ExpandPack(es[j].key);
    LexIrreflexive(es[i].key);
  }

  /** A finished walk has given out the committed map: a pair is there exactly when the trie stores it. */
  lemma GivenIsLookup(t: Trie, out: seq<(Bytes, Bytes)>, key: Bytes, value: Bytes)
    requires Shaped(t) && GivenOut(out, Entries(t, [])) && |out| == |Entries(t, [])|
    ensures (key, value) in out <==> Lookup(t, Expand(key)) == Some(value)
  {
    var es := Entries(t, []);
    EntriesAreLookup(t, Expand(key), value);
    PackExpand(key);
    hide Entries, Lookup, Expand, Pack;
    if (key, value) in out {
      var i :| 0 <= i < |out| && out[i] == (key, value);
      ExpandPack(es[i].key);
      assert es[i] == Entry(Expand(key), value);
    }
    if Entry(Expand(key), value) in es {
      var i :| 0 <= i < |es| && es[i] == Entry(Expand(key), value);
      assert out[i] == (key, value);
    }
  }

  /** From the root's digest, the walk gives out the committed entries in order, and nothing else.
      It stops early exactly when a committed byte string is not in the table or a key is not whole bytes. */
  method Walk(hash: Bytes -> Hash, nodes: map<Bytes, Bytes>, root: Hash, verify: bool, ghost t: Trie)
    returns (out: seq<(Bytes, Bytes)>, error: Option<WalkError>)
    requires Committable(hash, t) && Shaped(t) && root == hash(TrieBytes(hash, t))
    requires AllKid(hash, Root(t), TrustedIn(hash, nodes, verify))
    ensures GivenOut(out, Entries(t, []))
    ensures forall i, j | 0 <= i < j < |out| :: LexLess(Expand(out[i].0), Expand(out[j].0)) && out[i].0 != out[j].0
    ensures error.None? <==> Extractable(hash, nodes, t)
    ensures error.None? ==> |out| == |Entries(t, [])|
    ensures error.None? ==> forall key, value :: (key, value) in out <==> Lookup(t, Expand(key)) == Some(value)
  {
    out, error := WalkFrom(hash, nodes, root, verify, t);
    forall i, j | 0 <= i < j < |out|
      ensures LexLess(Expand(out[i].0), Expand(out[j].0)) && out[i].0 != out[j].0
    {
      GivenInOrder(t, out, i, j);
    }
    if error.None? {
      forall key, value
        ensures (key, value) in out <==> Lookup(t, Expand(key)) == Some(value)
      {
        GivenIsLookup(t, out, key, value);
      }
    }
  }

  method WalkFrom(hash: Bytes -> Hash, nodes: map<Bytes, Bytes>, root: Hash, verify: bool, ghost t: Trie)
    returns (out: seq<(Bytes, Bytes)>, error: Option<WalkError>)
    requires Committable(hash, t) && Shaped(t) && root == hash(TrieBytes(hash, t))
    requires AllKid(hash, Root(t), TrustedIn(hash, nodes, verify))
    ensures GivenOut(out, Entries(t, []))
    ensures error.None? ==> |out| == |Entries(t, [])|
    ensures error.None? <==> Extractable(hash, nodes, t)
  {
    var stack := [Frame(HashRef(root), [])];
    ghost var tasks := [Task(Root(t), [])];
    out := [];
    WalkStarts(hash, nodes, verify, t);
    hide Entries, AllKid, AllDigested, AllTasks, Tracks, Remaining, Work, TrieBytes, TrieNode, RefOf, Size,
         Committable, Shaped, TrustedIn, HoldsIn, Opened, AfterItem, AllItem, Stacked;
    while stack != []
      invariant Underway(hash, nodes, verify, t, stack, tasks, out)
      decreases Work(hash, tasks)
    {
      var fetched, node := Open(hash, nodes, verify, t, stack, tasks, out);
      if fetched.Refused? {
        return out, Some(fetched.error);
      }
      var path := stack[|stack| - 1].path;
      ghost var sub, rest, given := tasks[|stack| - 1].kid.sub, tasks[..|stack| - 1], out;
      stack := stack[..|stack| - 1];
      out, error := Emit(hash, nodes, verify, t, sub, path, rest, node, out);
      if error.Some? {
        return;
      }
      NodeTop(hash, sub);
      if node.Branch? {
        stack, tasks := PushChildren(hash, stack, rest, sub, node.children, path + node.partial,
                                     TrustedIn(hash, nodes, verify), HoldsIn(hash, nodes));
        BranchDone(hash, nodes, verify, t, sub, path, rest, given, stack, tasks, out);
      } else {
        LeafDone(hash, nodes, verify, t, sub, path, rest, given, stack, out);
        tasks := rest;
      }
    }
    EmptyStack(hash, nodes, tasks);
    error := None;
  }

  lemma NodeTop(hash: Bytes -> Hash, t: Trie)
    requires Committable(hash, t)
    ensures TrieNode(hash, t).Branch? <==> t.BranchTrie?
    ensures t.BranchTrie? ==> TrieNode(hash, t).partial == TopPartial(t)
  {
  }

  lemma EmptyStack(hash: Bytes -> Hash, nodes: map<Bytes, Bytes>, tasks: seq<Task>)
    requires tasks == []
    ensures Remaining(hash, tasks) == [] && AllTasks(hash, tasks, HoldsIn(hash, nodes))
  {
  }
}
