/**
  The write-back overlay over the off-chain trie: a cache of values and a set of keys to
  remove, applied to the trie when it is committed.
 */
module Overlay {
  import opened ByteStrings

  type Contents = map<Bytes, Bytes>

  datatype Reply<T> = Ok(value: T) | TrieError

  function Find(m: Contents, key: Bytes): Option<Bytes> {
    if key in m then Some(m[key]) else None
  }

  // The trie while a commit works through the cache and then through the keys to remove

  function Flushed(base: Contents, cache: Contents, todo: set<Bytes>): Contents {
    base + (cache - todo)
  }

  lemma FlushSteps(base: Contents, cache: Contents, todo: set<Bytes>)
    ensures Flushed(base, cache, {}) == base + cache && Flushed(base, cache, cache.Keys) == base
    ensures Flushed(base, cache, todo) + cache == base + cache
  {
  }

  lemma FlushStep(base: Contents, cache: Contents, todo: set<Bytes>, key: Bytes)
    requires key in todo && key in cache
    ensures Flushed(base, cache, todo - {key}) == Flushed(base, cache, todo)[key := cache[key]]
  {
  }

  function Pruned(base: Contents, doomed: set<Bytes>, todo: set<Bytes>): Contents {
    base - (doomed - todo)
  }

  lemma PruneSteps(base: Contents, doomed: set<Bytes>, todo: set<Bytes>)
    ensures Pruned(base, doomed, {}) == base - doomed && Pruned(base, doomed, doomed) == base
    ensures Pruned(base, doomed, todo) - doomed == base - doomed
    ensures forall key | key in todo && key in doomed ::
              Pruned(base, doomed, todo - {key}) == Pruned(base, doomed, todo) - {key}
  {
  }

  class OffchainState {
    var cache: Contents
    var keysToRemove: set<Bytes>
    /** The trie as changed in memory. */
    var trie: Contents
    /** The trie at the last committed root. */
    var stored: Contents
    /** Keys whose path leads to a node the database has lost; the trie answers them with an error. */
    const unreachable: set<Bytes>

    /** A commit has failed since the last one that succeeded. */
    ghost var failed: bool

    /** Until a commit fails, the trie in memory is the committed one, and a key waiting to be removed is in
        the cache only if it was read back from there. */
    ghost predicate Valid()
      reads this
    {
      !failed ==> trie == stored && forall k | k in keysToRemove && k in cache :: k in stored && cache[k] == stored[k]
    }

    /** The plain map the overlay stands for. */
    ghost function View(): Contents
      reads this
    {
      (trie + cache) - keysToRemove
    }

    constructor Load(contents: Contents, unreachable: set<Bytes>)
      ensures Valid() && View() == stored == contents && !failed
      ensures keysToRemove == {} && this.unreachable == unreachable
    {
      failed := false;
      cache, keysToRemove := map[], {};
      trie, stored := contents, contents;
      this.unreachable := unreachable;
    }

    /** A read changes nothing but the cache. It gives what the cache, or else the trie in memory, holds: the plain
        map's value for every key that is not waiting to be removed. Such a key still reads as it was last
        committed, until a commit fails. */
    method Get(key: Bytes) returns (r: Reply<Option<Bytes>>)
      requires Valid()
      modifies this`cache
      ensures Valid() && View() == old(View())
      ensures r.TrieError? <==> key !in old(cache) && key in unreachable
      ensures r.Ok? ==> r.value == Find(old(trie + cache), key)
      ensures cache == if r.Ok? && r.value.Some? then old(cache)[key := r.value.value] else old(cache)
      ensures r.Ok? && key !in keysToRemove ==> r.value == Find(View(), key)
      ensures r.Ok? && key in keysToRemove && !failed ==> r.value == Find(stored, key)
      ensures r.Ok? && !failed ==> (r.value == Find(View(), key) <==> key !in keysToRemove || key !in stored)
    {
      if key in cache {
        return Ok(Some(cache[key]));
      }
      if key in unreachable {
        return TrieError;
      }
      if key !in trie {
        return Ok(None);
      }
      cache := cache[key := trie[key]];
      return Ok(Some(trie[key]));
    }

    method Insert(key: Bytes, value: Bytes)
      requires Valid()
      modifies this`cache, this`keysToRemove
      ensures Valid() && View() == old(View())[key := value]
    {
      keysToRemove := keysToRemove - {key};
      cache := cache[key := value];
    }

    method Remove(key: Bytes)
      requires Valid()
      modifies this`cache, this`keysToRemove
      ensures Valid() && View() == old(View()) - {key}
    {
      cache := cache - {key};
      keysToRemove := keysToRemove + {key};
    }

    method FlushCache() returns (ok: bool)
      modifies this`trie
      ensures ok <==> cache.Keys * unreachable == {}
      ensures trie + cache == old(trie) + cache
      ensures ok ==> trie == old(trie) + cache
    {
      hide Flushed;
      var todo := cache.Keys;
      FlushSteps(trie, cache, todo);
      while todo != {}
        invariant todo <= cache.Keys && (cache.Keys - todo) * unreachable == {}
        invariant trie == Flushed(old(trie), cache, todo)
        decreases |todo|
      {
        FlushSteps(old(trie), cache, todo);
        var key :| key in todo;
        if key in unreachable {
          assert key in cache.Keys * unreachable;
          return false;
        }
        FlushStep(old(trie), cache, todo, key);
        trie := trie[key := cache[key]];
        todo := todo - {key};
      }
      FlushSteps(old(trie), cache, {});
      return true;
    }

    method FlushRemovals() returns (ok: bool)
      modifies this`trie
      ensures ok <==> keysToRemove * unreachable == {}
      ensures trie - keysToRemove == old(trie) - keysToRemove
      ensures ok ==> trie == old(trie) - keysToRemove
    {
      hide Pruned;
      var todo := keysToRemove;
      PruneSteps(trie, keysToRemove, todo);
      while todo != {}
        invariant todo <= keysToRemove && (keysToRemove - todo) * unreachable == {}
        invariant trie == Pruned(old(trie), keysToRemove, todo)
        decreases |todo|
      {
        PruneSteps(old(trie), keysToRemove, todo);
        var key :| key in todo;
        if key in unreachable {
          assert key in keysToRemove * unreachable;
          return false;
        }
        trie := trie - {key};
        todo := todo - {key};
      }
      PruneSteps(old(trie), keysToRemove, {});
      return true;
    }

    /** Writes the plain map to the trie, or fails and leaves both the plain map and the last committed
        trie as they were. It fails exactly when a cached or removed key is unreachable. */
    method Commit() returns (r: Reply<Contents>)
      requires Valid()
      modifies this
      ensures Valid() && View() == old(View())
      ensures r.Ok? ==> stored == r.value == View() && !failed && keysToRemove == {}
      ensures r.TrieError? ==> stored == old(stored) && failed
      ensures r.TrieError? <==> old(cache.Keys + keysToRemove) * unreachable != {}
    {
      var ok := FlushCache();
      if !ok {
        failed := true;
        return TrieError;
      }
      ghost var merged := trie;
      assert merged - keysToRemove == old(View());
      ok := FlushRemovals();
      if !ok {
        failed := true;
        assert (trie + cache) - keysToRemove == old(View());
        return TrieError;
      }
      cache, keysToRemove := map[], {};
      stored, failed := trie, false;
      assert trie + map[] == trie && trie - {} == trie;
      return Ok(trie);
    }
  }

  /** A key that is removed and then read is not gone: it reads as it was loaded. */
  method ReadAfterRemove(contents: Contents, key: Bytes) returns (r: Reply<Option<Bytes>>)
    ensures r == Ok(Find(contents, key))
  {
    var state := new OffchainState.Load(contents, {});
    state.Remove(key);
    r := state.Get(key);
  }

  // ------------------------------------------------------------------ runs

  datatype Op = Get(key: Bytes) | Insert(key: Bytes, value: Bytes) | Remove(key: Bytes) | Commit

  /** A plain map and its last committed version. */
  datatype Plain = Plain(now: Contents, stored: Contents)

  /** What an operation means for the plain map; `ok` says whether a commit went through. */
  function After(p: Plain, op: Op, ok: bool): Plain {
    match op
    case Get(_) => p
    case Insert(key, value) => p.(now := p.now[key := value])
    case Remove(key) => p.(now := p.now - {key})
    case Commit => if ok then p.(stored := p.now) else p
  }

  function Fold(p: Plain, ops: seq<Op>, oks: seq<bool>): Plain
    requires |ops| == |oks|
  {
    if ops == [] then p
    else After(Fold(p, ops[..|ops| - 1], oks[..|ops| - 1]), ops[|ops| - 1], oks[|ops| - 1])
  }

  /** The overlay refines a plain map over every interleaving of operations. */
  method Replay(state: OffchainState, ops: seq<Op>) returns (oks: seq<bool>)
    requires state.Valid()
    modifies state
    ensures state.Valid() && |oks| == |ops|
    ensures Plain(state.View(), state.stored) == Fold(Plain(old(state.View()), old(state.stored)), ops, oks)
  {
    oks := [];
    ghost var start := Plain(state.View(), state.stored);
    for i := 0 to |ops|
      invariant state.Valid() && |oks| == i
      invariant Plain(state.View(), state.stored) == Fold(start, ops[..i], oks)
    {
      var ok := true;
      match ops[i] {
        case Get(key) =>
          var reply := state.Get(key);
        case Insert(key, value) =>
          state.Insert(key, value);
        case Remove(key) =>
          state.Remove(key);
        case Commit =>
          var reply := state.Commit();
          ok := reply.Ok?;
      }
      ghost var before := oks;
      oks := oks + [ok];
      assert oks[..i] == before && ops[..i + 1][..i] == ops[..i];
    }
    assert ops[..|ops|] == ops;
  }

  predicate Writes(op: Op, key: Bytes) {
    (op.Insert? || op.Remove?) && op.key == key
  }

  /** After any run a key has the value of the last operation that wrote it, or its first value if none did. */
  lemma {:induction false} LastWriteWins(p: Plain, ops: seq<Op>, oks: seq<bool>, key: Bytes, i: int)
    requires |ops| == |oks| && -1 <= i < |ops|
    requires i >= 0 ==> Writes(ops[i], key)
    requires forall j | i < j < |ops| :: !Writes(ops[j], key)
    ensures Find(Fold(p, ops, oks).now, key)
         == (if i < 0 then Find(p.now, key) else if ops[i].Insert? then Some(ops[i].value) else None)
  {
    if i < |ops| - 1 {
      LastWriteWins(p, ops[..|ops| - 1], oks[..|ops| - 1], key, i);
    }
  }

  /** What is committed is the plain map as of the last commit that went through, and nothing after it. */
  lemma {:induction false} StoredAtLastCommit(p: Plain, ops: seq<Op>, oks: seq<bool>, i: int)
    requires |ops| == |oks| && -1 <= i < |ops|
    requires i >= 0 ==> ops[i].Commit? && oks[i]
    requires forall j | i < j < |ops| :: ops[j].Commit? ==> !oks[j]
    ensures Fold(p, ops, oks).stored == (if i < 0 then p.stored else Fold(p, ops[..i], oks[..i]).now)
  {
    if i < |ops| - 1 {
      var n := |ops| - 1;
      StoredAtLastCommit(p, ops[..n], oks[..n], i);
      assert i >= 0 ==> ops[..n][..i] == ops[..i] && oks[..n][..i] == oks[..i];
    }
  }
}
