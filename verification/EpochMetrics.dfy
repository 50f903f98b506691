/**
  What a snapshot records of an epoch and when its rewards can be claimed: each trader's last
  recorded entry is kept, score as score and fees as fees.
 */
module EpochMetrics {
  import opened ByteStrings
  import opened Epochs

  // ------------------------------------------------------------------ what is recorded

  /** The trader's last entry in a list. */
  function LastOf(entries: seq<Entry>, trader: Trader): Option<Entry> {
    if entries == [] then None
    else if entries[|entries| - 1].trader == trader then Some(entries[|entries| - 1])
    else LastOf(entries[..|entries| - 1], trader)
  }

  /** How many entries of a report are recorded when as many entries were reported before it: as many as the limit
      leaves, but one at least. */
  function Room(max: nat, before: nat, entries: nat): nat {
    if before + 1 < max then Saturating(max - before, entries) else Saturating(1, entries)
  }

  /** The trader's last recorded entry for a market. */
  function LastRecorded(max: nat, reports: seq<Report>, market: Market, trader: Trader): Option<Entry> {
    if reports == [] then None
    else
      var rest, r := reports[..|reports| - 1], reports[|reports| - 1];
      var here := LastOf(r.entries[..Room(max, Reported(rest), |r.entries|)], trader);
      if r.market == market && here.Some? then here else LastRecorded(max, rest, market, trader)
  }

  lemma {:induction false} EntriesAre(metrics: map<Key, Metric>, epoch: nat, market: Market, entries: seq<Entry>,
                                      key: Key)
    ensures var after := WithEntries(metrics, epoch, market, entries); var last := LastOf(entries, key.trader);
            if key.epoch == epoch && key.market == market && last.Some? then
              key in after && after[key] == Metric(last.value.score, last.value.fees, false)
            else (key in after <==> key in metrics) && (key in metrics ==> after[key] == metrics[key])
    decreases |entries|
  {
    if entries != [] {
      EntriesAre(metrics, epoch, market, entries[..|entries| - 1], key);
    }
  }

  lemma {:induction false} CounterIs(metrics: map<Key, Metric>, epoch: nat, max: nat, reports: seq<Report>)
    ensures Recorded(metrics, epoch, max, reports).counter == Minus(max, Reported(reports))
    decreases |reports|
  {
    hide WithEntries;
    if reports != [] {
      CounterIs(metrics, epoch, max, reports[..|reports| - 1]);
    }
  }

  /** The metric under an epoch, market and trader is that of the trader's last recorded entry, not yet claimed; with
      none recorded it is what it was. */
  lemma {:induction false} RecordedIs(metrics: map<Key, Metric>, epoch: nat, max: nat, reports: seq<Report>, key: Key)
    ensures var after := Recorded(metrics, epoch, max, reports).metrics;
            var last := LastRecorded(max, reports, key.market, key.trader);
            if key.epoch == epoch && last.Some? then
              key in after && after[key] == Metric(last.value.score, last.value.fees, false)
            else (key in after <==> key in metrics) && (key in metrics ==> after[key] == metrics[key])
    decreases |reports|
  {
    if reports != [] {
      var rest, r := reports[..|reports| - 1], reports[|reports| - 1];
      RecordedIs(metrics, epoch, max, rest, key);
      CounterIs(metrics, epoch, max, rest);
      var before := Recorded(metrics, epoch, max, rest);
      assert Taken(before.counter, |r.entries|) == Room(max, Reported(rest), |r.entries|);
      hide WithEntries, Reported, LastOf, Taken, Room;
      EntriesAre(before.metrics, epoch, r.market, r.entries[..Taken(before.counter, |r.entries|)], key);
    }
  }

  /** A score of the queued epoch takes effect exactly when the epoch has its configuration. It opens claims after
      that configuration's safety period, and queues the next epoch if one has started. */
  lemma ScoredIff(p: Program, reports: seq<Report>, block: nat)
    requires p.finalizing.Some?
    ensures var r, e := Scored(p, reports, block), p.finalizing.value;
            && (r.Some? <==> e in p.configs)
            && (r.Some? ==>
                  var next := if e < U16_MAX then e + 1 else U16_MAX;
                  && r.value.log == [Finalised(e, block, p.configs[e].safetyPeriod)]
                  && r.value.program.finalizing == (if next < p.epoch then Some(next) else None)
                  && r.value.program.epoch == p.epoch && r.value.program.configs == p.configs
                  && forall key :: MetricIs(p, r.value.program, reports, key))
  {
    hide Recorded;
    if p.finalizing.value in p.configs {
      var e := p.finalizing.value;
      forall key
        ensures MetricIs(p, Scored(p, reports, block).value.program, reports, key)
      {
        RecordedIs(p.metrics, e, p.configs[e].maxAccounts, reports, key);
      }
    }
  }

  ghost predicate MetricIs(p: Program, after: Program, reports: seq<Report>, key: Key) {
    p.finalizing.Some? && p.finalizing.value in p.configs ==>
      var e := p.finalizing.value;
      var last := LastRecorded(p.configs[e].maxAccounts, reports, key.market, key.trader);
      if key.epoch == e && last.Some? then Of(after.metrics, key) == Metric(last.value.score, last.value.fees, false)
      else Of(after.metrics, key) == Of(p.metrics, key)
  }

  // ------------------------------------------------------------------ over a run

  /** What a run has recorded last for a trader of an epoch and market. */
  ghost function Earned(ops: seq<Op>, key: Key): Option<Entry> {
    if ops == [] then None
    else
      var rest, op := ops[..|ops| - 1], ops[|ops| - 1];
      var p := Run(FRESH, rest).program;
      if op.Score? && p.finalizing == Some(key.epoch) && key.epoch in p.configs
         && LastRecorded(p.configs[key.epoch].maxAccounts, op.reports, key.market, key.trader).Some?
      then LastRecorded(p.configs[key.epoch].maxAccounts, op.reports, key.market, key.trader)
      else Earned(rest, key)
  }

  /** Nothing but a score of its epoch changes the score and the fees of a trader. */
  lemma StepKeeps(p: Program, op: Op, key: Key)
    requires !op.Score? || p.finalizing.None?
    ensures var after := Stepped(p, op).program;
            Of(after.metrics, key).score == Of(p.metrics, key).score
                && Of(after.metrics, key).fees == Of(p.metrics, key).fees
  {
  }

  /** After every run from a fresh start, a trader's score and fees are those last recorded, or zero. */
  lemma {:induction false} MetricsAreEarned(ops: seq<Op>, key: Key)
    ensures var metric, earned := Of(Run(FRESH, ops).program.metrics, key), Earned(ops, key);
            && metric.score == (if earned.Some? then earned.value.score else 0)
            && metric.fees == (if earned.Some? then earned.value.fees else 0)
    decreases |ops|
  {
    if ops != [] {
      var rest, op := ops[..|ops| - 1], ops[|ops| - 1];
      var p := Run(FRESH, rest).program;
      MetricsAreEarned(rest, key);
      if op.Score? && p.finalizing.Some? {
        ScoredIff(p, op.reports, op.block);
        hide Scored, LastRecorded;
        if Scored(p, op.reports, op.block).Some? {
          assert MetricIs(p, Scored(p, op.reports, op.block).value.program, op.reports, key);
        }
      } else {
        StepKeeps(p, op, key);
      }
    }
  }

  /** A started epoch gets the expected configuration, and so does epoch 0 when it is the first. */
  lemma StartedIs(p: Program)
    requires p.expected.Some?
    ensures var after := Started(p); var next := if p.epoch < U16_MAX then p.epoch + 1 else U16_MAX;
            && after.epoch == next && next in after.configs && after.configs[next] == p.expected.value
            && (p.epoch == 0 && 0 !in p.configs ==> 0 in after.configs && after.configs[0] == p.expected.value)
            && (forall e | e != next && (e != 0 || p.epoch != 0 || 0 in p.configs) ::
                  (e in after.configs <==> e in p.configs) && (e in p.configs ==> after.configs[e] == p.configs[e]))
            && after.finalizing == (if p.finalizing.None? then Some(p.epoch) else p.finalizing)
            && after.metrics == p.metrics && after.claimBlock == p.claimBlock
  {
  }

  // ------------------------------------------------------------------ claims

  /** After any run from a fresh start that finalises no epoch twice, a reward is paid exactly when the transfer goes
      through, claims of the epoch are open by the log, and the log has not paid it before. Otherwise nothing
      changes. */
  lemma ClaimIff(ops: seq<Op>, key: Key, block: nat, transfers: bool)
    requires key.epoch != U16_MAX || Repeats(ops) <= 1
    ensures var e := Run(FRESH, ops);
            var r, opens := Claimed(e.program, key, block, transfers), Opens(e.log, key.epoch);
            if transfers && opens.Some? && opens.value <= block && TimesRewarded(e.log, key) == 0 then
              r.log == [Rewarded(key, block)]
              && r.program
                 == e.program.(metrics := e.program.metrics[key := Of(e.program.metrics, key).(claimed := true)])
            else r == Effect(e.program, [])
  {
    hide Run, TimesRewarded, Opens, Repeats;
    RewardsWait(ops);
    ClaimedAsLogged(ops, key);
    hide Waited;
  }

  /** The mark on a metric says whether the reward was paid, and a finalised epoch has its configuration. */
  lemma ClaimedAsLogged(ops: seq<Op>, key: Key)
    requires key.epoch != U16_MAX || Repeats(ops) <= 1
    ensures var e := Run(FRESH, ops);
            key.epoch in e.program.claimBlock ==>
              && key.epoch in e.program.configs
              && (Of(e.program.metrics, key).claimed <==> TimesRewarded(e.log, key) > 0)
  {
    EpochsSound(ops);
    TimesFinalisedIs(ops, key.epoch);
    var e := Run(FRESH, ops);
    hide Run, FinalisedIn, TimesRewarded, Times, FirstEpochs, Saturations, Repeats;
    var n := |FinalisedIn(e.log)|;
    TimesOfFirst(n, key.epoch);
    assert PaidWithin(e.program.metrics, e.log, n, key);
    ConfiguredIfOpen(e.program, n, Saturations(FRESH, ops), key.epoch);
  }

  lemma ConfiguredIfOpen(p: Program, n: nat, s: nat, e: nat)
    requires InOrder(p, n, s) && Configured(p)
    ensures TimesAmong(n, e) > 0 ==> e in p.configs
  {
  }
}
