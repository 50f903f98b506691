/**
  One invocation of the off-chain worker after another: what it loads, when it starts over or
  recovers from a checkpoint, and which batches it then replays.
 */
module Invocations {
  import opened ByteStrings
  import opened Settlement
  import opened BatchReplay
  import opened ReplayWorker
  import opened ReplayProperties

  const CHECKPOINT_BLOCKS := 1260

  /** What an invocation finds: the chain's next snapshot id and snapshot roots, the root a state is stored under,
      the checkpoint the aggregator offers, already rebuilt, and its batches. */
  datatype View = View(next: nat, snapshots: map<nat, nat>, rootOf: Stored -> nat, checkpoint: Option<Stored>,
                       batchAt: nat -> Option<Batch>)

  datatype Ending = Finished | Resubmitted | Waiting | Stopped(error: string)

  /** What is persisted in the end, and how the invocation ended. */
  datatype Invocation = Invocation(stored: Stored, ending: Ending)

  /** The zero root. */
  const NOTHING: Stored := Stored(map[], Info(0, 0, 0))

  function Minus(m: nat, n: nat): nat {
    if m < n then 0 else m - n
  }

  // ------------------------------------------------------------------ what an invocation does

  /** What is persisted, and the state in memory, which may be ahead of it. */
  datatype Loaded = Loaded(stored: Stored, memory: Stored)

  /** A state that is not the one the chain has on record is forgotten, and a worker that has seen no snapshot
      forgets its last block. */
  function Begun(view: View, stored: Stored): Result<Loaded> {
    var info := stored.info;
    var fits := info.snapshotId in view.snapshots ==> view.snapshots[info.snapshotId] == view.rootOf(stored);
    if info.snapshotId !in view.snapshots && info.snapshotId != 0 && info.snapshotId != view.next then
      Failed("Unable to load last processed snapshot summary from on-chain")
    else
      var kept := if fits then stored else NOTHING;
      var start := if fits then info else Info(0, info.stid, Minus(view.next, CHECKPOINT_BLOCKS));
      Done(Loaded(kept, stored.(info := if start.snapshotId == 0 then start.(lastBlock := 0) else start)))
  }

  predicate Lags(view: View, info: Info) {
    Minus(view.next, info.snapshotId) >= CHECKPOINT_BLOCKS
  }

  /** A worker far behind takes the checkpoint, if the chain has its root on record. */
  function CaughtUp(view: View, loaded: Loaded): Result<Loaded> {
    if !Lags(view, loaded.memory.info) then Done(loaded)
    else match view.checkpoint
      case None => Failed("No checkpoint found")
      case Some(c) =>
        if c.info.snapshotId !in view.snapshots then Failed("Snapshot not found")
        else if view.snapshots[c.info.snapshotId] != view.rootOf(c) then Failed("State root mismatch")
        else Done(Loaded(c, c))
  }

  /** The batches from a nonce up to the next one, persisted one by one. */
  function Replayed(env: Env, view: View, loaded: Loaded, nonce: nat): Invocation
    requires nonce <= view.next
    decreases view.next - nonce
  {
    match view.batchAt(nonce)
    case None =>
      if nonce < view.next then Invocation(loaded.stored, Waiting)
      else Invocation(loaded.memory.(info := loaded.memory.info.(snapshotId := Minus(view.next, 1))), Waiting)
    case Some(batch) =>
      match BatchStored(env, loaded.memory, batch)
      case Failed(error) =>
        Invocation(loaded.stored, Stopped(if !batch.signed then "Invalid batch signature"
                                          else if nonce < view.next then "Sync failed" else error))
      case Done(s) =>
        if nonce == view.next then Invocation(s, Finished) else Replayed(env, view, Loaded(s, s), nonce + 1)
  }

  function FirstNonce(view: View, info: Info): (nonce: nat)
    ensures nonce <= view.next
  {
    if Minus(view.next, info.snapshotId) >= 2 then info.snapshotId + 1 else view.next
  }

  function Invoked(env: Env, view: View, stored: Stored): Invocation {
    match Begun(view, stored)
    case Failed(error) => Invocation(stored, Stopped(error))
    case Done(loaded) =>
      if loaded.memory.info.snapshotId == view.next then Invocation(loaded.stored, Resubmitted)
      else match CaughtUp(view, loaded)
        case Failed(error) => Invocation(loaded.stored, Stopped(error))
        case Done(ready) => Replayed(env, view, ready, FirstNonce(view, ready.memory.info))
  }

  method Validate(env: Env, view: View, stored: Stored) returns (kept: Stored, ending: Ending)
    ensures Invocation(kept, ending) == Invoked(env, view, stored)
  {
    hide BatchDone;
    kept := stored;
    var ledger, info := stored.ledger, stored.info;
    if info.snapshotId in view.snapshots {
      if view.snapshots[info.snapshotId] != view.rootOf(stored) {
        kept := NOTHING;
        info := info.(lastBlock := 0, snapshotId := Minus(view.next, CHECKPOINT_BLOCKS));
      }
    } else if info.snapshotId != 0 && info.snapshotId != view.next {
      return kept, Stopped("Unable to load last processed snapshot summary from on-chain");
    }
    if info.snapshotId == 0 {
      info := info.(lastBlock := 0);
    }
    if info.snapshotId == view.next {
      return kept, Resubmitted;
    }
    ghost var loaded := Loaded(kept, Stored(ledger, info));
    assert Begun(view, stored) == Done(loaded);
    if Minus(view.next, info.snapshotId) >= CHECKPOINT_BLOCKS {
      if view.checkpoint.None? {
        return kept, Stopped("No checkpoint found");
      }
      var c := view.checkpoint.value;
      if c.info.snapshotId !in view.snapshots {
        return kept, Stopped("Snapshot not found");
      }
      if view.snapshots[c.info.snapshotId] != view.rootOf(c) {
        return kept, Stopped("State root mismatch");
      }
      kept, ledger, info := c, c.ledger, c.info;
    }
    assert CaughtUp(view, loaded) == Done(Loaded(kept, Stored(ledger, info)));
    kept, ending := Replay(env, view, kept, ledger, info);
  }

  method Replay(env: Env, view: View, persisted: Stored, ledger: Ledger, start: Info)
    returns (kept: Stored, ending: Ending)
    ensures Invocation(kept, ending) == Replayed(env, view, Loaded(persisted, Stored(ledger, start)),
                                                 FirstNonce(view, start))
  {
    hide BatchDone;
    kept := persisted;
    var worker := new Worker(env, Stored(ledger, start));
    var nonce := FirstNonce(view, start);
    ghost var whole := Replayed(env, view, Loaded(persisted, Stored(ledger, start)), nonce);
    while nonce < view.next
      invariant nonce <= view.next && worker.env == env && fresh(worker) && fresh(worker.state)
      invariant whole == Replayed(env, view, Loaded(kept, Stored(worker.state.balances, worker.info)), nonce)
    {
      var batch := view.batchAt(nonce);
      if batch.None? {
        return kept, Waiting;
      }
      if !batch.value.signed {
        return kept, Stopped("Invalid batch signature");
      }
      var r := worker.ProcessBatch(batch.value);
      if r.Failed? {
        return kept, Stopped("Sync failed");
      }
      worker.info := worker.info.(stid := batch.value.stid, snapshotId := batch.value.snapshotId);
      kept := Stored(worker.state.balances, worker.info);
      nonce := nonce + 1;
    }
    var batch := view.batchAt(nonce);
    if batch.None? {
      return Stored(worker.state.balances, worker.info.(snapshotId := Minus(view.next, 1))), Waiting;
    }
    if !batch.value.signed {
      return kept, Stopped("Invalid batch signature");
    }
    var r := worker.ProcessBatch(batch.value);
    if r.Failed? {
      return kept, Stopped(r.error);
    }
    worker.info := worker.info.(stid := batch.value.stid, snapshotId := batch.value.snapshotId);
    return Stored(worker.state.balances, worker.info), Finished;
  }

  // ------------------------------------------------------------------ where an invocation starts

  /** The chain has the persisted state's snapshot on record with its root, or no record of it to compare with. */
  ghost predicate OnRecord(view: View, stored: Stored) {
    var id := stored.info.snapshotId;
    if id in view.snapshots then view.snapshots[id] == view.rootOf(stored) else id == 0 || id == view.next
  }

  /** A worker on record and fewer than 1260 snapshots behind goes on from its state with the batch after its
      snapshot; after snapshot 0 it takes any block first. */
  lemma GoesOn(env: Env, view: View, stored: Stored)
    requires OnRecord(view, stored) && stored.info.snapshotId < view.next < stored.info.snapshotId + 1260
    ensures var memory := if stored.info.snapshotId == 0 then stored.(info := stored.info.(lastBlock := 0)) else stored;
            Invoked(env, view, stored) == Replayed(env, view, Loaded(stored, memory), stored.info.snapshotId + 1)
  {
    hide Replayed;
  }

  /** A worker on record that is at least 1260 snapshots behind goes on from the checkpoint, if its root is on record;
      otherwise it stops and keeps its state. */
  lemma Recovers(env: Env, view: View, stored: Stored)
    requires OnRecord(view, stored) && view.next >= stored.info.snapshotId + 1260
    ensures var r := Invoked(env, view, stored);
            if view.checkpoint.Some? && view.checkpoint.value.info.snapshotId in view.snapshots
               && view.snapshots[view.checkpoint.value.info.snapshotId] == view.rootOf(view.checkpoint.value) then
              var c := view.checkpoint.value;
              r == Replayed(env, view, Loaded(c, c),
                            if c.info.snapshotId < view.next then c.info.snapshotId + 1 else view.next)
            else r.stored == stored && r.ending.Stopped?
  {
    hide Replayed;
  }

  /** A worker whose root is not the one on record drops what is persisted. From the 1260th snapshot on it needs the
      checkpoint; before, it replays from the first batch on top of the ledger it had loaded. */
  lemma StartsFromNothing(env: Env, view: View, stored: Stored)
    requires stored.info.snapshotId in view.snapshots && view.snapshots[stored.info.snapshotId] != view.rootOf(stored)
    requires view.next > 0
    ensures var r := Invoked(env, view, stored);
            && (view.next >= 1260 && view.checkpoint.None? ==>
                  r == Invocation(Stored(map[], Info(0, 0, 0)), Stopped("No checkpoint found")))
            && (view.next < 1260 ==>
                  r == Replayed(env, view, Loaded(Stored(map[], Info(0, 0, 0)),
                                                  Stored(stored.ledger, Info(0, stored.info.stid, 0))),
                                1))
  {
    hide Replayed;
  }

  /** A worker that has processed the next snapshot already submits it once more, and one whose snapshot the chain
      does not know stops; neither changes anything. */
  lemma StaysAsItIs(env: Env, view: View, stored: Stored)
    requires var id := stored.info.snapshotId; id != 0 && id !in view.snapshots
    ensures var r := Invoked(env, view, stored);
            r.stored == stored && (if stored.info.snapshotId == view.next then r.ending == Resubmitted
                                   else r.ending.Stopped?)
  {
    hide Replayed;
  }

  // ------------------------------------------------------------------ which blocks are imported

  /** The batches from a nonce on, up to the first that is missing. */
  function Found(view: View, nonce: nat): seq<Batch>
    requires nonce <= view.next
    decreases view.next - nonce
  {
    match view.batchAt(nonce)
    case None => []
    case Some(batch) => [batch] + if nonce == view.next then [] else Found(view, nonce + 1)
  }

  /** Replaying up to the next nonce is a run over the batches found: what is persisted is what the run stores, or
      what was persisted before when it stores nothing. */
  lemma {:induction false} ReplayedIsRun(env: Env, view: View, loaded: Loaded, nonce: nat)
    requires nonce <= view.next
    ensures var out := Replayed(env, view, loaded, nonce);
            var r := SyncedThrough(env, loaded.memory, Found(view, nonce));
            || out.stored == r.stored
            || (r.accepted == 0 && out.stored == loaded.stored)
            || (r.accepted == |Found(view, nonce)| && out.ending == Waiting
                && out.stored == r.stored.(info := r.stored.info.(snapshotId := Minus(view.next, 1))))
    decreases view.next - nonce
  {
    hide BatchStored;
    var found := Found(view, nonce);
    if found != [] && BatchStored(env, loaded.memory, found[0]).Done? && nonce < view.next {
      var s := BatchStored(env, loaded.memory, found[0]).value;
      ReplayedIsRun(env, view, Loaded(s, s), nonce + 1);
      assert found[1..] == Found(view, nonce + 1);
    } else if found != [] {
      assert nonce == view.next ==> found[1..] == [];
    }
  }

  /** The state an invocation replays from, if it gets that far. */
  function Ready(view: View, stored: Stored): Option<Loaded> {
    match Begun(view, stored)
    case Failed(_) => None
    case Done(loaded) =>
      if loaded.memory.info.snapshotId == view.next then None
      else match CaughtUp(view, loaded)
        case Failed(_) => None
        case Done(ready) => Some(ready)
  }

  /** The blocks that an invocation imports and keeps. */
  function Imports(env: Env, view: View, stored: Stored): seq<BlockNumber> {
    match Ready(view, stored)
    case None => []
    case Some(ready) =>
      var found := Found(view, FirstNonce(view, ready.memory.info));
      AllBlocks(found[..SyncedThrough(env, ready.memory, found).accepted])
  }

  /** The chain's record does not speak against the persisted state, the worker has seen a snapshot and a block, and
      it is not far behind: then an invocation neither starts over nor recovers. */
  predicate Steady(view: View, stored: Stored) {
    var info := stored.info;
    && (info.snapshotId in view.snapshots ==> view.snapshots[info.snapshotId] == view.rootOf(stored))
    && info.snapshotId != 0 && info.lastBlock != 0 && !Lags(view, info)
  }

  lemma SteadyReady(view: View, stored: Stored)
    requires Steady(view, stored)
    ensures Ready(view, stored).Some? ==> Ready(view, stored).value == Loaded(stored, stored)
  {
  }

  lemma InvokedReplays(env: Env, view: View, stored: Stored)
    requires Ready(view, stored).Some?
    ensures var ready := Ready(view, stored).value;
            Invoked(env, view, stored) == Replayed(env, view, ready, FirstNonce(view, ready.memory.info))
  {
    hide Begun, CaughtUp, Replayed;
  }

  lemma NotReady(env: Env, view: View, stored: Stored)
    requires Ready(view, stored).None? && Steady(view, stored)
    ensures Invoked(env, view, stored).stored == stored
  {
  }

  lemma ReplayInOrder(env: Env, view: View, stored: Stored, nonce: nat)
    requires nonce <= view.next && stored.info.lastBlock != 0
    ensures var found, last := Found(view, nonce), stored.info.lastBlock;
            var blocks := AllBlocks(found[..SyncedThrough(env, stored, found).accepted]);
            && Consecutive(last, blocks)
            && Replayed(env, view, Loaded(stored, stored), nonce).stored.info.lastBlock == Capped(last + |blocks|)
  {
    hide SyncedThrough, AllBlocks, Found, Replayed, Consecutive;
    ReplayedIsRun(env, view, Loaded(stored, stored), nonce);
    SyncInOrder(env, stored, Found(view, nonce));
    NothingKept(env, stored, Found(view, nonce));
  }

  /** A steady invocation imports exactly the blocks after the persisted one, in order, and persists the last. */
  lemma SteadyInOrder(env: Env, view: View, stored: Stored)
    requires Steady(view, stored)
    ensures var blocks := Imports(env, view, stored); var last := stored.info.lastBlock;
            Consecutive(last, blocks) && Invoked(env, view, stored).stored.info.lastBlock == Capped(last + |blocks|)
  {
    SteadyReady(view, stored);
    assert stored.info.lastBlock != 0;
    hide Ready, Invoked, SyncedThrough, AllBlocks, Found, Replayed, FirstNonce, Consecutive, Steady;
    if Ready(view, stored).None? {
      NotReady(env, view, stored);
      NoneConsecutive(stored.info.lastBlock);
    } else {
      InvokedReplays(env, view, stored);
      ReplayInOrder(env, view, stored, FirstNonce(view, stored.info));
    }
  }

  lemma NothingKept(env: Env, stored: Stored, batches: seq<Batch>)
    ensures SyncedThrough(env, stored, batches).accepted == 0 ==> SyncedThrough(env, stored, batches).stored == stored
  {
  }

  // ------------------------------------------------------------------ several invocations

  function Visited(env: Env, views: seq<View>, stored: Stored): Stored {
    if views == [] then stored
    else Invoked(env, views[|views| - 1], Visited(env, views[..|views| - 1], stored)).stored
  }

  function AllImports(env: Env, views: seq<View>, stored: Stored): seq<BlockNumber> {
    if views == [] then []
    else AllImports(env, views[..|views| - 1], stored)
         + Imports(env, views[|views| - 1], Visited(env, views[..|views| - 1], stored))
  }

  ghost predicate AllSteady(env: Env, views: seq<View>, stored: Stored) {
    forall i | 0 <= i < |views| :: Steady(views[i], Visited(env, views[..i], stored))
  }

  lemma ConsecutiveConcat(from: BlockNumber, a: seq<BlockNumber>, b: seq<BlockNumber>)
    requires Consecutive(from, a) && Consecutive(Capped(from + |a|), b)
    ensures Consecutive(from, a + b) && Capped(from + |a + b|) == Capped(Capped(from + |a|) + |b|)
  {
    forall i | 0 <= i < |a + b|
      ensures (a + b)[i] == Capped(from + 1 + i)
    {
      if i >= |a| {
        assert b[i - |a|] == Capped(Capped(from + |a|) + 1 + (i - |a|));
      }
    }
  }

  /** Over any number of steady invocations the blocks are imported one after the other; so none is imported in two of
      them, or twice in one, exactly while the block counter is not exhausted. */
  lemma {:induction false} InvocationsInOrder(env: Env, views: seq<View>, stored: Stored)
    requires AllSteady(env, views, stored) && stored.info.lastBlock != 0
    ensures var blocks := AllImports(env, views, stored); var last := stored.info.lastBlock;
            && Consecutive(last, blocks)
            && Visited(env, views, stored).info.lastBlock == Capped(last + |blocks|)
            && (Different([last] + blocks) <==> last + |blocks| <= U32_MAX)
    decreases |views|
  {
    hide Steady, Invoked, Imports, Consecutive, Different;
    if views == [] {
      NoneConsecutive(stored.info.lastBlock);
    } else {
      var rest, view := views[..|views| - 1], views[|views| - 1];
      forall i | 0 <= i < |rest|
        ensures Steady(rest[i], Visited(env, rest[..i], stored))
      {
        assert rest[i] == views[i] && rest[..i] == views[..i];
      }
      InvocationsInOrder(env, rest, stored);
      var before := Visited(env, rest, stored);
      assert Steady(view, Visited(env, views[..|views| - 1], stored));
      SteadyInOrder(env, view, before);
      ConsecutiveConcat(stored.info.lastBlock, AllImports(env, rest, stored), Imports(env, view, before));
    }
    DifferentIff(stored.info.lastBlock, AllImports(env, views, stored));
  }

  lemma NoneConsecutive(from: BlockNumber)
    ensures Consecutive(from, [])
  {
  }

  /** An invocation that starts over, or recovers, goes on after the persisted block exactly when the first block it
      imports is the one after it. */
  lemma FollowsIff(env: Env, view: View, stored: Stored)
    requires stored.info.lastBlock != 0
    ensures var blocks := Imports(env, view, stored);
            Consecutive(stored.info.lastBlock, blocks)
            <==> blocks == [] || blocks[0] == Successor(stored.info.lastBlock)
  {
    var ready := Ready(view, stored);
    if ready.Some? {
      var memory := ready.value.memory;
      var found := Found(view, FirstNonce(view, memory.info));
      hide Ready, SyncedThrough, Found, AllBlocks;
      SyncImports(env, memory, found);
      var blocks := AllBlocks(found[..SyncedThrough(env, memory, found).accepted]);
      assert blocks == Imports(env, view, stored);
      if blocks != [] {
        TailInOrder(memory.info.lastBlock, blocks);
        FromFirst(stored.info.lastBlock, blocks);
      }
    }
  }

  lemma TailInOrder(start: BlockNumber, blocks: seq<BlockNumber>)
    requires blocks != [] && LastAfter(start, blocks).Some?
    ensures blocks[0] != 0 ==> Consecutive(blocks[0], blocks[1..])
  {
    hide LastAfter, Consecutive;
    assert blocks == [blocks[0]] + blocks[1..];
    FirstPossible(start, blocks[0], blocks[1..]);
    LastAfterConcat(start, [blocks[0]], blocks[1..]);
    if blocks[0] != 0 {
      InOrderIff(blocks[0], blocks[1..]);
    }
  }

  lemma {:induction false} FirstPossible(start: BlockNumber, first: BlockNumber, rest: seq<BlockNumber>)
    requires LastAfter(start, [first] + rest).Some?
    ensures LastAfter(start, [first]) == Some(first)
    decreases |rest|
  {
    if rest == [] {
      assert [first] + rest == [first] && [first][..0] == [];
    } else {
      assert ([first] + rest)[..|rest|] == [first] + rest[..|rest| - 1];
      FirstPossible(start, first, rest[..|rest| - 1]);
    }
  }

  lemma FromFirst(last: BlockNumber, blocks: seq<BlockNumber>)
    requires blocks != [] && (blocks[0] != 0 ==> Consecutive(blocks[0], blocks[1..]))
    ensures Consecutive(last, blocks) <==> blocks[0] == Successor(last)
  {
    if blocks[0] == Successor(last) {
      forall i | 0 <= i < |blocks|
        ensures blocks[i] == Capped(last + 1 + i)
      {
        if i > 0 {
          assert blocks[1..][i - 1] == Capped(blocks[0] + 1 + (i - 1));
        }
      }
    }
  }

  /** A worker that has imported block 77 but whose last snapshot id is 0 imports block 77 once more. */
  lemma StartsOver(env: Env, view: View, stored: Stored, batch: Batch)
    requires stored.info.lastBlock == 77 && stored.info.snapshotId == 0 && env.ingressAt(77) == []
    requires view.next == 1 && view.snapshots == map[] && view.batchAt(1) == Some(batch)
    requires batch.actions == [BlockImport(77, map[], map[])] && batch.signed && batch.stid > stored.info.stid
    ensures Imports(env, view, stored) == [77] && Invoked(env, view, stored).ending == Finished
  {
    var memory := stored.(info := stored.info.(lastBlock := 0));
    assert Ready(view, stored) == Some(Loaded(stored, memory));
    InvokedReplays(env, view, stored);
    var p, actions := Progress(memory.ledger, memory.info, [], []), batch.actions;
    assert actions[..0] == [] && ActionsDone(env, p, []) == Done(p);
    hide Ready, Invoked, ActionDone;
    ImportsNothing(env, p);
    assert BatchStored(env, memory, batch).Done?;
    hide BatchStored;
    assert Found(view, 1) == [batch] && [batch][1..] == [];
    assert SyncedThrough(env, memory, [batch]).accepted == 1;
    assert Blocks([]) == [] && Blocks(actions) == [77];
    assert [batch][..1] == [batch] && AllBlocks([batch][..0]) == [];
    assert AllBlocks([batch]) == [77];
  }
}
