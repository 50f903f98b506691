/**
  Acceptance of snapshots: which summaries the chain lets in, and why two of them accepted
  under one validator set have a signer in common.
 */
module SnapshotQuorum {
  import opened ByteStrings
  import opened Settlement

  type Authority = nat
  type Signature = nat

  /** An amount to pay out of custody; None if it has no on-chain value. */
  datatype Payment = Payment(asset: Asset, units: Option<nat>)

  datatype Withdrawal = Withdrawal(id: nat, main: Account, payment: Payment, fee: nat)

  /** What a snapshot settles: withdrawals, and the payments its egress messages release. */
  datatype Summary = Summary(snapshotId: nat, setId: nat, stateHash: nat, withdrawals: seq<Withdrawal>,
                             releases: seq<Payment>)

  datatype Signed = Signed(index: nat, signature: Signature)

  const U64_MAX := 0xFFFF_FFFF_FFFF_FFFF

  function Next(nonce: nat): nat {
    if nonce < U64_MAX then nonce + 1 else U64_MAX
  }

  /** What acceptance depends on besides the summary: 51 percent of a number, the limit on withdrawals and
      signature verification. */
  datatype Rules = Rules(percent51: nat -> nat, withdrawalLimit: nat, verify: (Authority, Summary, Signature) -> bool)

  /** The rounding of percentages is not ours: it may go either way. */
  ghost predicate FairPercent(percent51: nat -> nat) {
    forall n: nat :: 51 * n / 100 <= percent51(n) <= (51 * n + 99) / 100
  }

  datatype Sets = Sets(active: nat, authorities: map<nat, seq<Authority>>) {
    function Of(id: nat): seq<Authority> {
      if id in authorities then authorities[id] else []
    }

    /** A new session installs its authorities under the next id. */
    function NewSession(next: seq<Authority>): Sets {
      Sets(active + 1, authorities[active + 1 := next])
    }
  }

  function Required(rules: Rules, n: nat): nat {
    if rules.percent51(n) < 1 then 1 else rules.percent51(n)
  }

  // ------------------------------------------------------------------ the verdict

  /** The code of the first signature that is wrong: 16 for a repeated signer, 12 for an unknown or false one. */
  function SignatureFault(rules: Rules, authorities: seq<Authority>, summary: Summary, sigs: seq<Signed>,
                             seen: set<nat>): Option<nat>
    decreases |sigs|
  {
    if sigs == [] then None
    else if sigs[0].index in seen then Some(16)
    else if |authorities| <= sigs[0].index
            || !rules.verify(authorities[sigs[0].index], summary, sigs[0].signature) then Some(12)
    else SignatureFault(rules, authorities, summary, sigs[1..], seen + {sigs[0].index})
  }

  /** None if the snapshot is valid, else the code it is refused with. */
  function Fault(rules: Rules, nonce: nat, sets: Sets, summary: Summary, sigs: seq<Signed>): Option<nat> {
    var authorities := sets.Of(sets.active);
    if Next(nonce) != summary.snapshotId then Some(10)
    else if rules.withdrawalLimit < |summary.withdrawals| then Some(13)
    else if summary.setId != sets.active then Some(14)
    else if authorities == [] then Some(15)
    else if |sigs| < Required(rules, |authorities|) then Some(11)
    else SignatureFault(rules, authorities, summary, sigs, {})
  }

  method ValidateSnapshot(rules: Rules, nonce: nat, sets: Sets, summary: Summary, sigs: seq<Signed>)
    returns (fault: Option<nat>)
    ensures fault == Fault(rules, nonce, sets, summary, sigs)
  {
    if Next(nonce) != summary.snapshotId {
      return Some(10);
    }
    if rules.withdrawalLimit < |summary.withdrawals| {
      return Some(13);
    }
    if summary.setId != sets.active {
      return Some(14);
    }
    var authorities := sets.Of(sets.active);
    if authorities == [] {
      return Some(15);
    }
    var required := rules.percent51(|authorities|);
    if required < 1 {
      required := 1;
    }
    if |sigs| < required {
      return Some(11);
    }
    var seen: set<nat> := {};
    var i := 0;
    assert sigs[0..] == sigs;
    while i < |sigs|
      invariant 0 <= i <= |sigs|
      invariant SignatureFault(rules, authorities, summary, sigs, {})
                == SignatureFault(rules, authorities, summary, sigs[i..], seen)
    {
      assert sigs[i..][1..] == sigs[i + 1..];
      var sig := sigs[i];
      if sig.index in seen {
        return Some(16);
      }
      seen := seen + {sig.index};
      if |authorities| <= sig.index {
        return Some(12);
      }
      if !rules.verify(authorities[sig.index], summary, sig.signature) {
        return Some(12);
      }
      i := i + 1;
    }
    return None;
  }

  // ------------------------------------------------------------------ what acceptance means

  ghost predicate DistinctSigners(sigs: seq<Signed>) {
    forall i, j | 0 <= i < j < |sigs| :: sigs[i].index != sigs[j].index
  }

  /** Every signature is by the authority it names. */
  ghost predicate Genuine(rules: Rules, authorities: seq<Authority>, summary: Summary, sigs: seq<Signed>) {
    forall i | 0 <= i < |sigs| ::
      sigs[i].index < |authorities| && rules.verify(authorities[sigs[i].index], summary, sigs[i].signature)
  }

  ghost predicate Fresh(sigs: seq<Signed>, seen: set<nat>) {
    forall i | 0 <= i < |sigs| :: sigs[i].index !in seen
  }

  lemma {:induction false} NoSignatureFault(rules: Rules, authorities: seq<Authority>, summary: Summary,
                                            sigs: seq<Signed>,
                                               seen: set<nat>)
    ensures SignatureFault(rules, authorities, summary, sigs, seen).None?
            <==> DistinctSigners(sigs) && Fresh(sigs, seen) && Genuine(rules, authorities, summary, sigs)
    decreases |sigs|
  {
    if sigs != [] {
      var first, rest := sigs[0], sigs[1..];
      NoSignatureFault(rules, authorities, summary, rest, seen + {first.index});
      if DistinctSigners(rest) && Fresh(rest, seen + {first.index}) && Genuine(rules, authorities, summary, rest)
         && first.index !in seen && first.index < |authorities|
            && rules.verify(authorities[first.index], summary, first.signature) {
        forall i, j | 0 <= i < j < |sigs|
          ensures sigs[i].index != sigs[j].index
        {
          assert sigs[j] == rest[j - 1];
          if i > 0 {
            assert sigs[i] == rest[i - 1];
          }
        }
        forall i | 0 <= i < |sigs|
          ensures sigs[i].index !in seen && sigs[i].index < |authorities|
                  && rules.verify(authorities[sigs[i].index], summary, sigs[i].signature)
        {
          if i > 0 {
            assert sigs[i] == rest[i - 1];
          }
        }
      }
      if DistinctSigners(sigs) && Fresh(sigs, seen) && Genuine(rules, authorities, summary, sigs) {
        assert sigs[0] == first;
        forall i | 0 <= i < |rest|
          ensures rest[i].index != first.index && rest[i].index !in seen
        {
          assert rest[i] == sigs[i + 1];
        }
      }
    }
  }

  /** A snapshot is accepted exactly when it is the next one, within the limit, for the active validator set,
      and signed by enough different members of that set. */
  lemma AcceptedIff(rules: Rules, nonce: nat, sets: Sets, summary: Summary, sigs: seq<Signed>)
    ensures Fault(rules, nonce, sets, summary, sigs).None? <==>
            var authorities := sets.Of(sets.active);
            && summary.snapshotId == (if nonce < U64_MAX then nonce + 1 else U64_MAX)
            && |summary.withdrawals| <= rules.withdrawalLimit
            && summary.setId == sets.active && authorities != []
            && rules.percent51(|authorities|) <= |sigs| && sigs != []
            && DistinctSigners(sigs) && Genuine(rules, authorities, summary, sigs)
  {
    NoSignatureFault(rules, sets.Of(sets.active), summary, sigs, {});
  }

  lemma {:induction false} SignatureCodes(rules: Rules, authorities: seq<Authority>, summary: Summary,
                                          sigs: seq<Signed>,
                                          seen: set<nat>, i: nat)
    requires i < |sigs| && DistinctSigners(sigs[..i]) && Genuine(rules, authorities, summary, sigs[..i])
    requires forall k | 0 <= k < i :: sigs[k].index !in seen
    requires var s := sigs[i];
             s.index in seen || (exists k | 0 <= k < i :: sigs[k].index == s.index)
             || |authorities| <= s.index || !rules.verify(authorities[s.index], summary, s.signature)
    ensures SignatureFault(rules, authorities, summary, sigs, seen)
            == Some(if sigs[i].index in seen || exists k | 0 <= k < i :: sigs[k].index == sigs[i].index then 16 else 12)
    decreases |sigs|
  {
    if i > 0 {
      var rest := sigs[1..];
      assert sigs[..i][0] == sigs[0];
      assert forall k | 0 <= k < i - 1 :: rest[k] == sigs[k + 1] && rest[..i - 1][k] == sigs[..i][k + 1];
      assert forall k | 0 < k < i :: sigs[..i][k] == sigs[k] && sigs[k] == rest[k - 1];
      assert (exists k | 0 <= k < i :: sigs[k].index == sigs[i].index)
             <==> sigs[0].index == sigs[i].index || (exists k | 0 <= k < i - 1 :: rest[k].index == sigs[i].index);
      SignatureCodes(rules, authorities, summary, rest, seen + {sigs[0].index}, i - 1);
    }
  }

  /** The code a snapshot is refused with: 10 unless it is the next one, then 13 above the limit, 14 for another
      validator set, 15 if that is empty, 11 without enough signatures; and for the first signature that is wrong,
      16 if its signer has signed before, else 12. */
  lemma FaultCodes(rules: Rules, nonce: nat, sets: Sets, summary: Summary, sigs: seq<Signed>, i: nat)
    ensures var fault, authorities := Fault(rules, nonce, sets, summary, sigs), sets.Of(sets.active);
            if summary.snapshotId != (if nonce < U64_MAX then nonce + 1 else U64_MAX) then fault == Some(10)
            else if |summary.withdrawals| > rules.withdrawalLimit then fault == Some(13)
            else if summary.setId != sets.active then fault == Some(14)
            else if authorities == [] then fault == Some(15)
            else if |sigs| < rules.percent51(|authorities|) || sigs == [] then fault == Some(11)
            else i < |sigs| && DistinctSigners(sigs[..i]) && Genuine(rules, authorities, summary, sigs[..i]) ==>
              var s := sigs[i];
              if exists k | 0 <= k < i :: sigs[k].index == s.index then fault == Some(16)
              else |authorities| <= s.index || !rules.verify(authorities[s.index], summary, s.signature) ==>
                fault == Some(12)
  {
    var authorities := sets.Of(sets.active);
    if i < |sigs| && DistinctSigners(sigs[..i]) && Genuine(rules, authorities, summary, sigs[..i]) {
      var s := sigs[i];
      if (exists k | 0 <= k < i :: sigs[k].index == s.index)
         || |authorities| <= s.index || !rules.verify(authorities[s.index], summary, s.signature) {
        SignatureCodes(rules, authorities, summary, sigs, {}, i);
      }
    }
  }

  // ------------------------------------------------------------------ quorums

  ghost function Signers(sigs: seq<Signed>): (r: set<nat>)
    ensures forall i | 0 <= i < |sigs| :: sigs[i].index in r
    ensures forall x | x in r :: exists i | 0 <= i < |sigs| :: sigs[i].index == x
  {
    if sigs == [] then {} else Signers(sigs[..|sigs| - 1]) + {sigs[|sigs| - 1].index}
  }

  ghost function Range(n: nat): (r: set<nat>)
    ensures forall i :: i in r <==> 0 <= i < n
    ensures |r| == n
  {
    if n == 0 then {} else Range(n - 1) + {n - 1}
  }

  lemma {:induction false} SignersCount(sigs: seq<Signed>)
    requires DistinctSigners(sigs)
    ensures |Signers(sigs)| == |sigs|
  {
    if sigs != [] {
      var rest := sigs[..|sigs| - 1];
      SignersCount(rest);
      assert sigs[|sigs| - 1].index !in Signers(rest);
    }
  }

  lemma SubsetSize(a: set<nat>, b: set<nat>)
    requires a <= b
    ensures |a| <= |b|
  {
    assert b == a + (b - a);
  }

  /** Two signer sets of more than half the authorities each have a member in common. */
  lemma QuorumsMeet(a: seq<Signed>, b: seq<Signed>, n: nat)
    requires DistinctSigners(a) && DistinctSigners(b)
    requires (forall i | 0 <= i < |a| :: a[i].index < n) && (forall i | 0 <= i < |b| :: b[i].index < n)
    requires |a| + |b| > n
    ensures exists x :: x in Signers(a) && x in Signers(b)
  {
    SignersCount(a);
    SignersCount(b);
    var x, y := Signers(a), Signers(b);
    SubsetSize(x + y, Range(n));
    assert |x + y| + |x * y| == |x| + |y|;
    assert x * y != {};
    var z :| z in x * y;
  }

  /** With at least a hundred authorities, whichever way percentages round, any two snapshots accepted
      under the same validator set share a signer. */
  lemma AcceptedShareSigner(rules: Rules, sets: Sets, m: nat, n: nat, s: Summary, t: Summary, a: seq<Signed>,
                            b: seq<Signed>)
    requires FairPercent(rules.percent51) && |sets.Of(sets.active)| >= 100
    requires Fault(rules, m, sets, s, a).None? && Fault(rules, n, sets, t, b).None?
    ensures exists x :: x in Signers(a) && x in Signers(b)
  {
    var k := |sets.Of(sets.active)|;
    AcceptedIff(rules, m, sets, s, a);
    AcceptedIff(rules, n, sets, t, b);
    assert rules.percent51(k) >= 51 * k / 100;
    QuorumsMeet(a, b, k);
  }

  function Sign(first: nat, count: nat): (sigs: seq<Signed>)
    ensures |sigs| == count && forall i | 0 <= i < count :: sigs[i] == Signed(first + i, 0)
  {
    seq(count, i requires 0 <= i < count => Signed(first + i, 0))
  }

  /** Signatures that are enough, by different members of a set of n. */
  ghost predicate Quorum(rules: Rules, n: nat, sigs: seq<Signed>) {
    Required(rules, n) <= |sigs| && DistinctSigners(sigs) && forall i | 0 <= i < |sigs| :: sigs[i].index < n
  }

  ghost predicate Meet(a: seq<Signed>, b: seq<Signed>) {
    exists x :: x in Signers(a) && x in Signers(b)
  }

  lemma HalvesAreApart(rules: Rules, n: nat)
    requires 2 * Required(rules, n) <= n
    ensures var r := Required(rules, n);
            Quorum(rules, n, Sign(0, r)) && Quorum(rules, n, Sign(r, r)) && !Meet(Sign(0, r), Sign(r, r))
  {
    var r := Required(rules, n);
    var a, b := Sign(0, r), Sign(r, r);
    assert forall x | x in Signers(a) :: x < r;
    assert forall x | x in Signers(b) :: x >= r;
  }

  /** Quorums always meet exactly when the required number is more than half of the set; with two authorities,
      51 percent rounded to one signature is not. */
  lemma MeetIffMajority(rules: Rules, n: nat)
    ensures (forall a, b | Quorum(rules, n, a) && Quorum(rules, n, b) :: Meet(a, b)) <==> 2 * Required(rules, n) > n
  {
    if 2 * Required(rules, n) > n {
      forall a, b | Quorum(rules, n, a) && Quorum(rules, n, b)
        ensures Meet(a, b)
      {
        QuorumsMeet(a, b, n);
      }
    } else {
      HalvesAreApart(rules, n);
    }
  }
}
