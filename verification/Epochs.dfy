/**
  Liquidity-mining epochs: a session starts them, a snapshot with trading metrics finalises
  them, and traders claim their rewards of finalised ones.
 */
module Epochs {
  import opened ByteStrings

  const U16_MAX := 0xFFFF
  const U32_MAX := 0xFFFF_FFFF

  function Saturating(n: nat, max: nat): nat {
    if n < max then n else max
  }

  type Market = nat
  type Trader = nat

  datatype Config = Config(maxAccounts: nat, safetyPeriod: nat)

  datatype Key = Key(epoch: nat, market: Market, trader: Trader)

  datatype Metric = Metric(score: nat, fees: nat, claimed: bool)

  datatype Entry = Entry(trader: Trader, score: nat, fees: nat)

  /** What a snapshot reports of one market: its traders in the order of the map. */
  datatype Report = Report(market: Market, entries: seq<Entry>)

  datatype Program = Program(epoch: nat, finalizing: Option<nat>, expected: Option<Config>, configs: map<nat, Config>,
                             metrics: map<Key, Metric>, claimBlock: map<nat, nat>)

  /** An epoch is finalised at a block, with its safety period; a reward is paid at a block. */
  datatype Event = Finalised(epoch: nat, block: nat, safetyPeriod: nat) | Rewarded(key: Key, block: nat)

  datatype Effect = Effect(program: Program, log: seq<Event>)

  // ------------------------------------------------------------------ starting an epoch

  function Started(p: Program): Program {
    match p.expected
    case None => p
    case Some(config) =>
      var next := Saturating(p.epoch + 1, U16_MAX);
      var configs := if p.epoch == 0 && 0 !in p.configs then p.configs[0 := config] else p.configs;
      p.(finalizing := if p.finalizing.None? then Some(p.epoch) else p.finalizing, epoch := next,
         configs := configs[next := config])
  }

  // ------------------------------------------------------------------ recording the metrics

  /** How many of a market's entries are recorded: the counter stops a market when it reaches zero, but only
      after an entry. */
  function Taken(counter: nat, entries: nat): nat {
    if counter <= 1 then Saturating(1, entries) else Saturating(counter, entries)
  }

  function Minus(a: nat, b: nat): nat {
    if b < a then a - b else 0
  }

  function WithEntries(metrics: map<Key, Metric>, epoch: nat, market: Market, entries: seq<Entry>): map<Key, Metric> {
    if entries == [] then metrics
    else
      var e := entries[|entries| - 1];
      var before := WithEntries(metrics, epoch, market, entries[..|entries| - 1]);
      before[Key(epoch, market, e.trader) := Metric(e.score, e.fees, false)]
  }

  datatype Tally = Tally(metrics: map<Key, Metric>, counter: nat, stored: nat)

  function Recorded(metrics: map<Key, Metric>, epoch: nat, max: nat, reports: seq<Report>): Tally {
    if reports == [] then Tally(metrics, max, 0)
    else
      var before := Recorded(metrics, epoch, max, reports[..|reports| - 1]);
      var r := reports[|reports| - 1];
      var n := Taken(before.counter, |r.entries|);
      Tally(WithEntries(before.metrics, epoch, r.market, r.entries[..n]), Minus(before.counter, n), before.stored + n)
  }

  /** Finalising needs the configuration of the epoch; without it the whole submission fails. */
  function Scored(p: Program, reports: seq<Report>, block: nat): Option<Effect> {
    match p.finalizing
    case None => Some(Effect(p, []))
    case Some(e) =>
      if e !in p.configs then None
      else
        var next := Saturating(e + 1, U16_MAX);
        Some(Effect(p.(metrics := Recorded(p.metrics, e, p.configs[e].maxAccounts, reports).metrics,
                       claimBlock := p.claimBlock[e := Saturating(block + p.configs[e].safetyPeriod, U32_MAX)],
                       finalizing := if next < p.epoch then Some(next) else None),
                    [Finalised(e, block, p.configs[e].safetyPeriod)]))
  }

  // ------------------------------------------------------------------ claiming

  function Of(metrics: map<Key, Metric>, key: Key): Metric {
    if key in metrics then metrics[key] else Metric(0, 0, false)
  }

  predicate Claimable(p: Program, key: Key, block: nat) {
    && key.epoch in p.claimBlock && p.claimBlock[key.epoch] <= block
    && key.epoch in p.configs && !Of(p.metrics, key).claimed
  }

  function Claimed(p: Program, key: Key, block: nat, transfers: bool): Effect {
    if Claimable(p, key, block) && transfers then
      Effect(p.(metrics := p.metrics[key := Of(p.metrics, key).(claimed := true)]), [Rewarded(key, block)])
    else Effect(p, [])
  }

  /** The program's storage, changed in place. */
  class Storage {
    var epoch: nat
    var finalizing: Option<nat>
    var expected: Option<Config>
    var configs: map<nat, Config>
    var metrics: map<Key, Metric>
    var claimBlock: map<nat, nat>

    ghost function State(): Program
      reads this
    {
      Program(epoch, finalizing, expected, configs, metrics, claimBlock)
    }

    constructor ()
      ensures State() == Program(0, None, None, map[], map[], map[])
    {
      epoch, finalizing, expected, configs, metrics, claimBlock := 0, None, None, map[], map[], map[];
    }

    method StartNewEpoch()
      modifies this
      ensures State() == Started(old(State()))
    {
      if expected.Some? {
        var current := epoch;
        if current == 0 && current !in configs {
          configs := configs[current := expected.value];
        }
        if finalizing.None? {
          finalizing := Some(current);
        }
        current := Saturating(current + 1, U16_MAX);
        epoch := current;
        configs := configs[current := expected.value];
      }
    }

    method RecordMarket(current: nat, r: Report, counter: nat) returns (left: nat, ghost stored: nat)
      modifies `metrics
      ensures stored == Taken(counter, |r.entries|) && left == Minus(counter, stored)
      ensures metrics == WithEntries(old(metrics), current, r.market, r.entries[..stored])
    {
      left := counter;
      var j := 0;
      while j < |r.entries|
        invariant 0 <= j <= |r.entries|
        invariant j == 0 || j < counter
        invariant left == Minus(counter, j)
        invariant metrics == WithEntries(old(metrics), current, r.market, r.entries[..j])
      {
        ghost var more := r.entries[..j + 1];
        assert more[..|more| - 1] == r.entries[..j] && more[|more| - 1] == r.entries[j];
        var entry := r.entries[j];
        metrics := metrics[Key(current, r.market, entry.trader) := Metric(entry.score, entry.fees, false)];
        j := j + 1;
        left := Minus(left, 1);
        if left == 0 {
          break;
        }
      }
      stored := j;
    }

    method UpdateScores(reports: seq<Report>, block: nat) returns (ok: bool, ghost log: seq<Event>)
      modifies this
      ensures ok == Scored(old(State()), reports, block).Some?
      ensures ok ==> Effect(State(), log) == Scored(old(State()), reports, block).value
      ensures !ok ==> State() == old(State())
    {
      if finalizing.None? {
        return true, [];
      }
      var current := finalizing.value;
      if current !in configs {
        return false, [];
      }
      var config := configs[current];
      var counter := config.maxAccounts;
      ghost var stored := 0;
      for i := 0 to |reports|
        invariant Tally(metrics, counter, stored) == Recorded(old(metrics), current, config.maxAccounts, reports[..i])
        invariant State() == old(State()).(metrics := metrics)
      {
        ghost var next := reports[..i + 1];
        assert next[..|next| - 1] == reports[..i] && next[|next| - 1] == reports[i];
        ghost var more;
        counter, more := RecordMarket(current, reports[i], counter);
        stored := stored + more;
      }
      assert reports[..|reports|] == reports;
      claimBlock := claimBlock[current := Saturating(block + config.safetyPeriod, U32_MAX)];
      var next := Saturating(current + 1, U16_MAX);
      finalizing := if next < epoch then Some(next) else None;
      return true, [Finalised(current, block, config.safetyPeriod)];
    }

    method ClaimRewards(key: Key, block: nat, transfers: bool) returns (ok: bool, ghost log: seq<Event>)
      modifies this
      ensures Effect(State(), log) == Claimed(old(State()), key, block, transfers)
      ensures ok <==> Claimable(old(State()), key, block) && transfers
    {
      if key.epoch !in claimBlock || block < claimBlock[key.epoch] || key.epoch !in configs {
        return false, [];
      }
      var metric := Of(metrics, key);
      if metric.claimed || !transfers {
        return false, [];
      }
      metrics := metrics[key := metric.(claimed := true)];
      return true, [Rewarded(key, block)];
    }
  }

  // ------------------------------------------------------------------ the limit on rewarded accounts

  /** The number of entries in the reports. */
  function Reported(reports: seq<Report>): nat {
    if reports == [] then 0 else Reported(reports[..|reports| - 1]) + |reports[|reports| - 1].entries|
  }

  /** Before every market with entries, fewer entries than the limit were reported. */
  ghost predicate WithinLimit(max: nat, reports: seq<Report>) {
    forall i | 0 <= i < |reports| && reports[i].entries != [] :: Reported(reports[..i]) < max
  }

  lemma {:induction false} CounterFalls(metrics: map<Key, Metric>, epoch: nat, max: nat, reports: seq<Report>)
    ensures var t := Recorded(metrics, epoch, max, reports); t.counter == Minus(max, t.stored)
  {
    if reports != [] {
      CounterFalls(metrics, epoch, max, reports[..|reports| - 1]);
    }
  }

  lemma LimitNext(max: nat, rest: seq<Report>, r: Report)
    ensures WithinLimit(max, rest + [r]) <==> WithinLimit(max, rest) && (r.entries == [] || Reported(rest) < max)
  {
    hide Reported;
    var all := rest + [r];
    assert all[..|rest|] == rest && all[|rest|] == r;
    assert forall i | 0 <= i < |rest| :: rest[i] == all[i] && rest[..i] == all[..i];
  }

  /** The limit on rewarded accounts is kept, and then used as far as there are entries, exactly when no market with
      entries comes after as many entries as the limit: each such market still records one. */
  lemma {:induction false} LimitKeptIff(metrics: map<Key, Metric>, epoch: nat, max: nat, reports: seq<Report>)
    ensures var stored := Recorded(metrics, epoch, max, reports).stored;
            && (stored <= max <==> WithinLimit(max, reports))
            && (stored <= max ==> stored == Saturating(Reported(reports), max))
  {
    if reports != [] {
      hide WithinLimit, WithEntries;
      var rest, r := reports[..|reports| - 1], reports[|reports| - 1];
      assert reports == rest + [r];
      LimitKeptIff(metrics, epoch, max, rest);
      CounterFalls(metrics, epoch, max, rest);
      LimitNext(max, rest, r);
    }
  }

  /** Two markets of one trader each both get recorded under a limit of one. */
  lemma LimitExceeded(reports: seq<Report>)
    requires reports == [Report(0, [Entry(0, 1, 1)]), Report(1, [Entry(1, 1, 1)])]
    ensures Recorded(map[], 0, 1, reports).stored == 2
  {
    assert reports[..1][..0] == [];
    assert reports[..1][0] == reports[0];
    assert Recorded(map[], 0, 1, reports[..1]).stored == 1;
  }

  // ------------------------------------------------------------------ runs

  datatype Op =
    | Expect(config: Config)
    | Start
    | Score(reports: seq<Report>, block: nat)
    | Claim(key: Key, block: nat, transfers: bool)

  function Stepped(p: Program, op: Op): Effect {
    match op
    case Expect(config) => Effect(p.(expected := Some(config)), [])
    case Start => Effect(Started(p), [])
    case Score(reports, block) =>
      (match Scored(p, reports, block)
       case Some(e) => e
       case None => Effect(p, []))
    case Claim(key, block, transfers) => Claimed(p, key, block, transfers)
  }

  function Run(p: Program, ops: seq<Op>): Effect {
    if ops == [] then Effect(p, [])
    else
      var before := Run(p, ops[..|ops| - 1]);
      var last := Stepped(before.program, ops[|ops| - 1]);
      Effect(last.program, before.log + last.log)
  }

  const FRESH := Program(0, None, None, map[], map[], map[])

  // ------------------------------------------------------------------ what a log says

  /** The epochs finalised, in order. */
  ghost function FinalisedIn(log: seq<Event>): seq<nat> {
    if log == [] then []
    else
      FinalisedIn(log[..|log| - 1]) + if log[|log| - 1].Finalised? then [log[|log| - 1].epoch] else []
  }

  ghost function Times(epochs: seq<nat>, e: nat): nat {
    if epochs == [] then 0 else Times(epochs[..|epochs| - 1], e) + if epochs[|epochs| - 1] == e then 1 else 0
  }

  ghost function TimesFinalised(log: seq<Event>, e: nat): nat {
    Times(FinalisedIn(log), e)
  }

  ghost function TimesRewarded(log: seq<Event>, key: Key): nat {
    if log == [] then 0
    else
      var e := log[|log| - 1];
      TimesRewarded(log[..|log| - 1], key) + if e.Rewarded? && e.key == key then 1 else 0
  }

  lemma {:induction false} LogConcat(a: seq<Event>, b: seq<Event>, key: Key)
    ensures FinalisedIn(a + b) == FinalisedIn(a) + FinalisedIn(b)
    ensures TimesRewarded(a + b, key) == TimesRewarded(a, key) + TimesRewarded(b, key)
  {
    if b == [] {
      assert a + b == a;
    } else {
      LogConcat(a, b[..|b| - 1], key);
      assert (a + b)[..|a + b| - 1] == a + b[..|b| - 1];
    }
  }

  lemma LogOne(log: seq<Event>, e: Event, key: Key)
    ensures FinalisedIn(log + [e]) == FinalisedIn(log) + if e.Finalised? then [e.epoch] else []
    ensures TimesRewarded(log + [e], key) == TimesRewarded(log, key) + if e.Rewarded? && e.key == key then 1 else 0
  {
    assert (log + [e])[..|log|] == log;
  }

  // ------------------------------------------------------------------ what every run keeps

  /** The first n epochs to be finalised: 0, 1, 2 and so on, and after 65535 that one again and again. */
  ghost function FirstEpochs(n: nat): seq<nat> {
    seq(n, i requires 0 <= i < n => Saturating(i, U16_MAX))
  }

  /** How often an epoch is among them. */
  ghost function TimesAmong(n: nat, e: nat): nat {
    if e < U16_MAX then if e < n then 1 else 0
    else if e == U16_MAX then Minus(n, U16_MAX)
    else 0
  }

  lemma {:induction false} TimesOfFirst(n: nat, e: nat)
    ensures Times(FirstEpochs(n), e) == TimesAmong(n, e)
  {
    if n > 0 {
      TimesOfFirst(n - 1, e);
      assert FirstEpochs(n)[..n - 1] == FirstEpochs(n - 1);
    }
  }

  /** An epoch is started when the counter cannot rise and everything before it is finalised. */
  predicate Saturates(p: Program, op: Op) {
    op.Start? && p.expected.Some? && p.epoch >= U16_MAX && p.finalizing.None?
  }

  /** How often that happens in a run. */
  ghost function Saturations(p: Program, ops: seq<Op>): nat {
    if ops == [] then 0
    else
      var rest := ops[..|ops| - 1];
      Saturations(p, rest) + if Saturates(Run(p, rest).program, ops[|ops| - 1]) then 1 else 0
  }

  /** With n epochs finalised and s saturating starts: the next epoch to finalise, if there is one, is the one
      after those finalised. */
  ghost predicate InOrder(p: Program, n: nat, s: nat) {
    && p.epoch <= U16_MAX && (s > 0 ==> p.epoch == U16_MAX && n + 1 >= U16_MAX + s)
    && match p.finalizing
       case Some(e) => e == Saturating(n, U16_MAX) && n < p.epoch + s
       case None => n == p.epoch + s
  }

  /** Every epoch that can still be finalised has its configuration. */
  ghost predicate Configured(p: Program) {
    forall e | 0 <= e <= p.epoch && 0 < p.epoch :: e in p.configs
  }

  /** Claims are open for the finalised epochs only, and nothing is recorded of other ones. */
  ghost predicate Opened(p: Program, n: nat) {
    && (forall e :: e in p.claimBlock <==> TimesAmong(n, e) > 0)
    && (forall key | key in p.metrics :: TimesAmong(n, key.epoch) > 0)
  }

  /** A reward has been paid at most as often as its epoch was finalised, and can be paid once more only while that
      leaves room for it. */
  ghost predicate PaidWithin(metrics: map<Key, Metric>, log: seq<Event>, n: nat, key: Key) {
    var times, paid, claimed := TimesAmong(n, key.epoch), TimesRewarded(log, key), Of(metrics, key).claimed;
    && (claimed ==> paid > 0)
    && (if times == 0 then paid == 0 else paid + (if claimed then 0 else 1) <= times)
  }

  ghost predicate Sound(p: Program, log: seq<Event>, s: nat) {
    var n := |FinalisedIn(log)|;
    && FinalisedIn(log) == FirstEpochs(n)
    && InOrder(p, n, s) && Configured(p) && Opened(p, n)
    && forall key :: PaidWithin(p.metrics, log, n, key)
  }

  /** Finalising changes only the metrics of its own epoch, and leaves none newly claimed. */
  lemma {:induction false} EntriesLocal(metrics: map<Key, Metric>, epoch: nat, market: Market, entries: seq<Entry>,
                                        key: Key)
    ensures var after := WithEntries(metrics, epoch, market, entries);
            && (key.epoch != epoch ==> (key in after <==> key in metrics) && Of(after, key) == Of(metrics, key))
            && (Of(after, key).claimed ==> Of(metrics, key).claimed)
  {
    if entries != [] {
      EntriesLocal(metrics, epoch, market, entries[..|entries| - 1], key);
    }
  }

  lemma {:induction false} RecordedLocal(metrics: map<Key, Metric>, epoch: nat, max: nat, reports: seq<Report>,
                                         key: Key)
    ensures var after := Recorded(metrics, epoch, max, reports).metrics;
            && (key.epoch != epoch ==> (key in after <==> key in metrics) && Of(after, key) == Of(metrics, key))
            && (Of(after, key).claimed ==> Of(metrics, key).claimed)
  {
    if reports != [] {
      hide WithEntries, Taken;
      var rest, r := reports[..|reports| - 1], reports[|reports| - 1];
      RecordedLocal(metrics, epoch, max, rest, key);
      var before := Recorded(metrics, epoch, max, rest);
      EntriesLocal(before.metrics, epoch, r.market, r.entries[..Taken(before.counter, |r.entries|)], key);
    }
  }

  lemma StartSound(p: Program, log: seq<Event>, s: nat)
    requires Sound(p, log, s)
    ensures Sound(Started(p), log, s + if Saturates(p, Start) then 1 else 0)
  {
    hide FinalisedIn, TimesRewarded, FirstEpochs, TimesAmong, Of;
  }

  /** Finalising the queued epoch: it has its configuration, and is the next one in order. */
  lemma ScoreOrder(p: Program, n: nat, s: nat, reports: seq<Report>, block: nat)
    requires InOrder(p, n, s) && Configured(p)
    ensures var r := Scored(p, reports, block);
            && r.Some? && Configured(r.value.program)
            && (if p.finalizing.None? then r.value == Effect(p, [])
                else InOrder(r.value.program, n + 1, s) && p.finalizing.value == Saturating(n, U16_MAX))
  {
    hide Recorded;
  }

  lemma OneMore(n: nat, e: nat)
    ensures TimesAmong(n + 1, e) == TimesAmong(n, e) + if e == Saturating(n, U16_MAX) then 1 else 0
    ensures FirstEpochs(n + 1) == FirstEpochs(n) + [Saturating(n, U16_MAX)]
  {
  }

  lemma ScoreOpens(p: Program, n: nat, s: nat, reports: seq<Report>, block: nat)
    requires InOrder(p, n, s) && Configured(p) && Opened(p, n) && p.finalizing.Some?
    ensures Opened(Scored(p, reports, block).value.program, n + 1)
  {
    ScoreOrder(p, n, s, reports, block);
    hide TimesAmong, FirstEpochs, Recorded;
    var e := p.finalizing.value;
    var after := Scored(p, reports, block).value.program;
    forall x: nat
      ensures x in after.claimBlock <==> TimesAmong(n + 1, x) > 0
    {
      OneMore(n, x);
    }
    forall key | key in after.metrics
      ensures TimesAmong(n + 1, key.epoch) > 0
    {
      OneMore(n, key.epoch);
      RecordedLocal(p.metrics, e, p.configs[e].maxAccounts, reports, key);
    }
  }

  lemma ScorePays(p: Program, log: seq<Event>, n: nat, s: nat, reports: seq<Report>, block: nat, key: Key)
    requires InOrder(p, n, s) && Configured(p) && Opened(p, n) && p.finalizing.Some?
             && PaidWithin(p.metrics, log, n, key)
    ensures var r := Scored(p, reports, block).value; PaidWithin(r.program.metrics, log + r.log, n + 1, key)
  {
    ScoreOrder(p, n, s, reports, block);
    var e := p.finalizing.value;
    NotListed(p.metrics, key);
    hide TimesAmong, FirstEpochs, Recorded, TimesRewarded, FinalisedIn, Of;
    OneMore(n, key.epoch);
    RecordedLocal(p.metrics, e, p.configs[e].maxAccounts, reports, key);
    LogOne(log, Finalised(e, block, p.configs[e].safetyPeriod), key);
  }

  lemma NotListed(metrics: map<Key, Metric>, key: Key)
    ensures key !in metrics ==> !Of(metrics, key).claimed
  {
  }

  lemma ScoreSound(p: Program, log: seq<Event>, s: nat, reports: seq<Report>, block: nat)
    requires Sound(p, log, s)
    ensures var r := Scored(p, reports, block); r.Some? && Sound(r.value.program, log + r.value.log, s)
  {
    hide TimesAmong, FirstEpochs, Recorded, TimesRewarded, FinalisedIn, Of, PaidWithin, Opened, InOrder, Configured;
    var n := |FinalisedIn(log)|;
    ScoreOrder(p, n, s, reports, block);
    if p.finalizing.None? {
      assert log + [] == log;
    } else {
      var e := p.finalizing.value;
      var r := Scored(p, reports, block).value;
      ScoreOpens(p, n, s, reports, block);
      LogOne(log, Finalised(e, block, p.configs[e].safetyPeriod), Key(0, 0, 0));
      OneMore(n, 0);
      var all, next, metrics := log + r.log, n + 1, r.program.metrics;
      forall key
        ensures PaidWithin(metrics, all, next, key)
      {
        ScorePays(p, log, n, s, reports, block, key);
      }
    }
  }

  lemma ClaimPays(p: Program, log: seq<Event>, n: nat, key: Key, block: nat, other: Key)
    requires Opened(p, n) && Claimable(p, key, block) && PaidWithin(p.metrics, log, n, other)
             && PaidWithin(p.metrics, log, n, key)
    ensures var e := Claimed(p, key, block, true); PaidWithin(e.program.metrics, log + e.log, n, other)
  {
    hide TimesAmong, TimesRewarded, FinalisedIn;
    LogOne(log, Rewarded(key, block), other);
  }

  lemma ClaimSound(p: Program, log: seq<Event>, s: nat, key: Key, block: nat, transfers: bool)
    requires Sound(p, log, s)
    ensures var e := Claimed(p, key, block, transfers); Sound(e.program, log + e.log, s)
  {
    hide TimesAmong, FirstEpochs, TimesRewarded, FinalisedIn, Of, PaidWithin;
    var n := |FinalisedIn(log)|;
    if Claimable(p, key, block) && transfers {
      var e := Claimed(p, key, block, transfers);
      LogOne(log, Rewarded(key, block), key);
      var all, metrics := log + e.log, e.program.metrics;
      forall other
        ensures PaidWithin(metrics, all, n, other)
      {
        ClaimPays(p, log, n, key, block, other);
      }
    } else {
      assert log + [] == log;
    }
  }

  lemma ExpectSound(p: Program, log: seq<Event>, s: nat, config: Config)
    requires Sound(p, log, s)
    ensures Sound(p.(expected := Some(config)), log, s)
  {
    hide TimesAmong, FirstEpochs, TimesRewarded, FinalisedIn, Of;
  }

  lemma StepSound(p: Program, op: Op, log: seq<Event>, s: nat)
    requires Sound(p, log, s)
    ensures var e := Stepped(p, op); Sound(e.program, log + e.log, s + if Saturates(p, op) then 1 else 0)
  {
    hide Sound, Scored, Claimed, Started;
    assert log + [] == log;
    match op {
      case Expect(config) => ExpectSound(p, log, s, config);
      case Start => StartSound(p, log, s);
      case Score(reports, block) => ScoreSound(p, log, s, reports, block);
      case Claim(key, block, transfers) => ClaimSound(p, log, s, key, block, transfers);
    }
  }

  lemma FreshSound()
    ensures Sound(FRESH, [], 0)
  {
  }

  /** From a fresh start, whatever is started, finalised and claimed and in whatever order: epochs are finalised in
      order, none lacks its configuration, and no reward is paid more often than its epoch was finalised. */
  lemma {:induction false} EpochsSound(ops: seq<Op>)
    ensures var e := Run(FRESH, ops); Sound(e.program, e.log, Saturations(FRESH, ops))
  {
    if ops == [] {
      FreshSound();
    } else {
      hide Sound, Stepped, Saturates;
      var rest := ops[..|ops| - 1];
      EpochsSound(rest);
      StepSound(Run(FRESH, rest).program, ops[|ops| - 1], Run(FRESH, rest).log, Saturations(FRESH, rest));
    }
  }

  // ------------------------------------------------------------------ once and only once

  /** The saturating starts of a run whose epoch was finalised since: all but one that is still queued. */
  ghost function Repeats(ops: seq<Op>): int {
    Saturations(FRESH, ops) - if Run(FRESH, ops).program.finalizing == Some(U16_MAX) then 1 else 0
  }

  /** Every epoch before the last is finalised at most once. The last is finalised as often as there were saturating
      starts that a score followed. */
  lemma TimesFinalisedIs(ops: seq<Op>, e: nat)
    ensures var times := TimesFinalised(Run(FRESH, ops).log, e);
            && (e != U16_MAX ==> times <= 1)
            && (e == U16_MAX ==> times == if Repeats(ops) > 0 then Repeats(ops) else 0)
  {
    EpochsSound(ops);
    var r := Run(FRESH, ops);
    TimesOfFirst(|FinalisedIn(r.log)|, e);
    hide FinalisedIn, Run, Saturations, Times, FirstEpochs;
  }

  /** No epoch is finalised twice exactly when at most one saturating start was followed by a score. */
  lemma FinalisedOnceIff(ops: seq<Op>)
    ensures (forall e: nat :: TimesFinalised(Run(FRESH, ops).log, e) <= 1) <==> Repeats(ops) <= 1
  {
    hide Run, TimesFinalised, Repeats;
    TimesFinalisedIs(ops, U16_MAX);
    forall e: nat
      ensures Repeats(ops) <= 1 ==> TimesFinalised(Run(FRESH, ops).log, e) <= 1
    {
      TimesFinalisedIs(ops, e);
    }
  }

  /** A reward is paid at most as often as its epoch was finalised. */
  lemma PaidAtMostFinalised(ops: seq<Op>, key: Key)
    ensures var log := Run(FRESH, ops).log; TimesRewarded(log, key) <= TimesFinalised(log, key.epoch)
  {
    EpochsSound(ops);
    var r := Run(FRESH, ops);
    TimesOfFirst(|FinalisedIn(r.log)|, key.epoch);
    assert PaidWithin(r.program.metrics, r.log, |FinalisedIn(r.log)|, key);
    hide FinalisedIn, Run, Saturations, Times, FirstEpochs, TimesAmong, TimesRewarded;
  }

  /** So no reward of an epoch before the last is ever paid twice, and none of the last while it is finalised once. */
  lemma NoRewardTwice(ops: seq<Op>, key: Key)
    requires key.epoch != U16_MAX || Repeats(ops) <= 1
    ensures TimesRewarded(Run(FRESH, ops).log, key) <= 1
  {
    hide Run, TimesRewarded, TimesFinalised, Repeats;
    PaidAtMostFinalised(ops, key);
    TimesFinalisedIs(ops, key.epoch);
  }

  /** The number of epochs a run starts. */
  ghost function Starts(p: Program, ops: seq<Op>): nat {
    if ops == [] then 0
    else
      var rest := ops[..|ops| - 1];
      Starts(p, rest) + if ops[|ops| - 1].Start? && Run(p, rest).program.expected.Some? then 1 else 0
  }

  lemma OnlyStarts(p: Program, op: Op)
    ensures Stepped(p, op).program.epoch
            == if op.Start? && p.expected.Some? then Saturating(p.epoch + 1, U16_MAX) else p.epoch
  {
    hide Recorded;
  }

  lemma {:induction false} StartsCount(ops: seq<Op>)
    ensures var p := Run(FRESH, ops).program;
            p.epoch <= U16_MAX && p.epoch + Saturations(FRESH, ops) <= Starts(FRESH, ops)
  {
    if ops != [] {
      hide Stepped;
      var rest := ops[..|ops| - 1];
      StartsCount(rest);
      OnlyStarts(Run(FRESH, rest).program, ops[|ops| - 1]);
    }
  }

  /** A run of at most 65536 epochs finalises none twice and pays no reward twice. */
  lemma FewEpochs(ops: seq<Op>, key: Key)
    requires Starts(FRESH, ops) <= U16_MAX + 1
    ensures Repeats(ops) <= 1 && TimesRewarded(Run(FRESH, ops).log, key) <= 1
  {
    StartsCount(ops);
    EpochsSound(ops);
    hide Run, Saturations, TimesRewarded, FinalisedIn;
    NoRewardTwice(ops, key);
  }

  // ------------------------------------------------------------------ at the end of the counter

  lemma RunNext(p: Program, ops: seq<Op>, op: Op)
    ensures Run(p, ops + [op]) == Effect(Stepped(Run(p, ops).program, op).program,
                                         Run(p, ops).log + Stepped(Run(p, ops).program, op).log)
  {
    assert (ops + [op])[..|ops|] == ops;
  }

  lemma {:induction false} RunConcat(p: Program, a: seq<Op>, b: seq<Op>)
    ensures Run(p, a + b) == Effect(Run(Run(p, a).program, b).program, Run(p, a).log + Run(Run(p, a).program, b).log)
  {
    hide Stepped;
    if b == [] {
      assert a + b == a;
      assert Run(p, a).log + [] == Run(p, a).log;
    } else {
      RunConcat(p, a, b[..|b| - 1]);
      assert (a + b)[..|a + b| - 1] == a + b[..|b| - 1];
      ConcatAssociates(Run(p, a).log, Run(Run(p, a).program, b[..|b| - 1]).log,
                       Stepped(Run(Run(p, a).program, b[..|b| - 1]).program, b[|b| - 1]).log);
    }
  }

  const EXAMPLE := Config(1, 0)
  const LAST := Key(U16_MAX, 0, 0)
  const REPORT := Report(0, [Entry(0, 1, 1)])

  /** One epoch after the other, each scored with the one report. */
  ghost function Rounds(n: nat): seq<Op> {
    if n == 0 then [Expect(EXAMPLE)] else Rounds(n - 1) + [Start] + [Score([REPORT], 0)]
  }

  lemma EntryRecorded(metrics: map<Key, Metric>, e: nat)
    ensures Recorded(metrics, e, 1, [REPORT]).metrics == metrics[Key(e, 0, 0) := Metric(1, 1, false)]
  {
    var entries := REPORT.entries;
    assert [REPORT][..0] == [] && entries[..0] == [] && entries[..1] == entries;
    assert WithEntries(metrics, e, 0, entries) == metrics[Key(e, 0, 0) := Metric(1, 1, false)];
    hide WithEntries;
    assert Recorded(metrics, e, 1, []) == Tally(metrics, 1, 0);
  }

  /** Ready for another round: nothing is queued, and the example's configuration is filed for every epoch. */
  ghost predicate Ready(p: Program) {
    && p.epoch <= U16_MAX && p.finalizing.None? && p.expected == Some(EXAMPLE)
    && (p.epoch > 0 ==> p.epoch in p.configs && p.configs[p.epoch] == EXAMPLE)
    && (p.epoch == 0 ==> p.configs == map[])
  }

  lemma OneRound(p: Program)
    requires Ready(p)
    ensures var e := Scored(Started(p), [REPORT], 0);
            && e.Some? && Ready(e.value.program) && e.value.program.epoch == Saturating(p.epoch + 1, U16_MAX)
            && e.value.log == [Finalised(p.epoch, 0, 0)]
            && p.epoch in e.value.program.claimBlock && e.value.program.claimBlock[p.epoch] == 0
            && p.epoch in e.value.program.configs
            && e.value.program.metrics == p.metrics[Key(p.epoch, 0, 0) := Metric(1, 1, false)]
  {
    EntryRecorded(p.metrics, p.epoch);
    hide Recorded;
  }

  lemma RoundNext(p: Program, ops: seq<Op>)
    requires Ready(Run(p, ops).program)
    ensures var before, e := Run(p, ops), Run(p, ops + [Start] + [Score([REPORT], 0)]);
            && Ready(e.program) && e.program.epoch == Saturating(before.program.epoch + 1, U16_MAX)
            && TimesRewarded(e.log, LAST) == TimesRewarded(before.log, LAST)
  {
    hide Run, Ready, Started, Scored, TimesRewarded, FinalisedIn;
    RunNext(p, ops, Start);
    RunNext(p, ops + [Start], Score([REPORT], 0));
    var before := Run(p, ops);
    OneRound(before.program);
    assert before.log + [] == before.log;
    LogOne(before.log, Finalised(before.program.epoch, 0, 0), LAST);
  }

  lemma ReadyAtFirst(ops: seq<Op>)
    requires ops == [Expect(EXAMPLE)]
    ensures var e := Run(FRESH, ops); Ready(e.program) && e.program.epoch == 0 && TimesRewarded(e.log, LAST) == 0
  {
    assert Run(FRESH, []) == Effect(FRESH, []);
    RunNext(FRESH, [], Expect(EXAMPLE));
    assert [] + [Expect(EXAMPLE)] == ops;
  }

  lemma {:induction false} ReadyAfterRounds(n: nat)
    requires n <= U16_MAX
    ensures var e := Run(FRESH, Rounds(n)); Ready(e.program) && e.program.epoch == n && TimesRewarded(e.log, LAST) == 0
  {
    hide Run, Ready, TimesRewarded;
    if n == 0 {
      ReadyAtFirst(Rounds(n));
    } else {
      ReadyAfterRounds(n - 1);
      RoundNext(FRESH, Rounds(n - 1));
    }
  }

  /** A round at the end of the counter, and a claim. */
  lemma LastRound(p: Program, ops: seq<Op>)
    requires Ready(p) && p.epoch == U16_MAX && ops == [Start, Score([REPORT], 0), Claim(LAST, 0, true)]
    ensures var e := Run(p, ops); Ready(e.program) && e.program.epoch == U16_MAX && TimesRewarded(e.log, LAST) == 1
  {
    assert Run(p, []) == Effect(p, []);
    OneRound(p);
    var finalised, rewarded := Finalised(U16_MAX, 0, 0), Rewarded(LAST, 0);
    LogOne([], finalised, LAST);
    LogOne([] + [finalised], rewarded, LAST);
    assert TimesRewarded([], LAST) == 0;
    hide Run, Recorded, TimesRewarded, Started, Scored;
    var one, two := [] + [Start], [] + [Start] + [Score([REPORT], 0)];
    assert ops == two + [Claim(LAST, 0, true)];
    RunNext(p, [], Start);
    RunNext(p, one, Score([REPORT], 0));
    RunNext(p, two, Claim(LAST, 0, true));
    assert Run(p, one).log == [] && Run(p, two).log == [finalised];
  }

  /** From a fresh start: after 65535 rounds, two rounds with a claim each pay the same reward twice. */
  lemma SaturatedPaysTwice(ops: seq<Op>)
    requires ops == [Start, Score([REPORT], 0), Claim(LAST, 0, true)]
    ensures TimesRewarded(Run(FRESH, Rounds(U16_MAX) + ops + ops).log, LAST) == 2
  {
    var n := U16_MAX;
    ReadyAfterRounds(n);
    hide Run, Rounds, TimesRewarded, Ready;
    var rounds := Rounds(n);
    RunConcat(FRESH, rounds, ops);
    RunConcat(FRESH, rounds + ops, ops);
    var first := Run(FRESH, rounds);
    LastRound(first.program, ops);
    var second := Run(first.program, ops);
    LastRound(second.program, ops);
    LogConcat(first.log, second.log, LAST);
    LogConcat(first.log + second.log, Run(second.program, ops).log, LAST);
  }

  // ------------------------------------------------------------------ the safety period

  /** When claims of an epoch open, by the log: the safety period after it was last finalised. */
  ghost function Opens(log: seq<Event>, e: nat): Option<nat> {
    if log == [] then None
    else
      var last := log[|log| - 1];
      if last.Finalised? && last.epoch == e then Some(Saturating(last.block + last.safetyPeriod, U32_MAX))
      else Opens(log[..|log| - 1], e)
  }

  /** Every reward was paid when its epoch was open. */
  ghost predicate Waited(log: seq<Event>) {
    log != [] ==>
      var rest, last := log[..|log| - 1], log[|log| - 1];
      && Waited(rest)
      && (last.Rewarded? ==>
            Opens(rest, last.key.epoch).Some? && Opens(rest, last.key.epoch).value <= last.block)
  }

  ghost predicate OpenAsLogged(p: Program, log: seq<Event>) {
    forall e: nat :: Opens(log, e) == if e in p.claimBlock then Some(p.claimBlock[e]) else None
  }

  lemma OpensOne(log: seq<Event>, last: Event, e: nat)
    ensures Opens(log + [last], e)
            == if last.Finalised? && last.epoch == e then Some(Saturating(last.block + last.safetyPeriod, U32_MAX))
               else Opens(log, e)
    ensures Waited(log + [last])
            <==> Waited(log)
                 && (last.Rewarded? ==>
                       Opens(log, last.key.epoch).Some? && Opens(log, last.key.epoch).value <= last.block)
  {
    assert (log + [last])[..|log|] == log;
  }

  lemma StepWaits(p: Program, op: Op, log: seq<Event>)
    requires OpenAsLogged(p, log) && Waited(log)
    ensures var e := Stepped(p, op); OpenAsLogged(e.program, log + e.log) && Waited(log + e.log)
  {
    hide Opens, Waited, Recorded;
    var e := Stepped(p, op);
    if e.log == [] {
      assert log + [] == log;
    } else {
      var last, all := e.log[0], log + e.log;
      assert e.log == [last];
      OpensOne(log, last, 0);
      forall x: nat
        ensures Opens(all, x) == if x in e.program.claimBlock then Some(e.program.claimBlock[x]) else None
      {
        OpensOne(log, last, x);
      }
    }
  }

  /** In every run no reward is paid before the safety period after its epoch was last finalised. */
  lemma {:induction false} RewardsWait(ops: seq<Op>)
    ensures var e := Run(FRESH, ops); OpenAsLogged(e.program, e.log) && Waited(e.log)
  {
    if ops != [] {
      hide Stepped, OpenAsLogged, Waited;
      var rest := ops[..|ops| - 1];
      RewardsWait(rest);
      StepWaits(Run(FRESH, rest).program, ops[|ops| - 1], Run(FRESH, rest).log);
    }
  }
}
