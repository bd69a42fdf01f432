/**
 Restart classification: every process the sandbox reports is paired with at
 most one unclosed journal record of the same evidence.
 */
module Classification {
  import opened Results
  import opened JournalFile
  import opened RecoveryView

  datatype RecoveryState = RecoveryState(nodeEpoch: u64, nextFenceToken: u64, processes: seq<ProcessRecord>)

  datatype Verdict = Valid | Stale | Unknown | Foreign

  datatype Candidate = Candidate(verdict: Verdict, record: Option<ProcessRecord>, observed: Option<Evidence>)

  function MatchedCandidate(recovery: RecoveryState, record: ProcessRecord, current: Evidence): Candidate {
    Candidate(if record.nodeEpoch < recovery.nodeEpoch then Stale else Valid, Some(record), Some(current))
  }

  /** The verdict of a candidate says exactly which of its two sides are present and whether the record is older. */
  predicate VerdictFits(recovery: RecoveryState, c: Candidate) {
    match c.verdict
    case Foreign => c.record.None? && c.observed.Some?
    case Unknown => c.record.Some? && c.observed.None?
    case _ => c.record.Some? && c.observed.Some? && c.record.value.evidence == c.observed &&
              c == MatchedCandidate(recovery, c.record.value, c.observed.value)
  }

  function RecordsIn(candidates: seq<Candidate>): seq<ProcessRecord> {
    if candidates == [] then [] else
    var before, last := candidates[..|candidates| - 1], candidates[|candidates| - 1];
    if last.record.Some? then RecordsIn(before) + [last.record.value] else RecordsIn(before)
  }

  function ObservedIn(candidates: seq<Candidate>): seq<Evidence> {
    if candidates == [] then [] else
    var before, last := candidates[..|candidates| - 1], candidates[|candidates| - 1];
    if last.observed.Some? then ObservedIn(before) + [last.observed.value] else ObservedIn(before)
  }

  /**
   The candidates partition both inputs: every observation occurs once and in
   order, every journal record occurs once, and no evidence value is left over
   on both sides.
   */
  ghost predicate IsPartition(recovery: RecoveryState, observed: seq<Evidence>, candidates: seq<Candidate>) {
    && (forall i :: 0 <= i < |candidates| ==> VerdictFits(recovery, candidates[i]))
    && ObservedIn(candidates) == observed
    && multiset(RecordsIn(candidates)) == multiset(recovery.processes)
    && (forall i, j ::
          0 <= i < |candidates| && 0 <= j < |candidates| && candidates[i].verdict == Foreign &&
            candidates[j].verdict == Unknown ==>
          candidates[j].record.value.evidence != candidates[i].observed)
  }

  /** The records not yet paired. */
  ghost function Unpaired(processes: seq<ProcessRecord>, matched: seq<bool>): multiset<ProcessRecord>
    requires |matched| == |processes|
  {
    if processes == [] then multiset{} else
    var n := |processes| - 1;
    var before := Unpaired(processes[..n], matched[..n]);
    if matched[n] then before else before + multiset{processes[n]}
  }

  lemma {:induction false} PairingRemovesOne(processes: seq<ProcessRecord>, matched: seq<bool>, k: nat)
    requires |matched| == |processes| && k < |processes| && !matched[k]
    ensures Unpaired(processes, matched) == Unpaired(processes, matched[k := true]) + multiset{processes[k]}
  {
    var n := |processes| - 1;
    if k == n {
      assert matched[k := true][..n] == matched[..n];
    } else {
      PairingRemovesOne(processes[..n], matched[..n], k);
      assert matched[k := true][..n] == matched[..n][k := true];
    }
  }

  lemma {:induction false} NothingPairedYet(processes: seq<ProcessRecord>, matched: seq<bool>)
    requires |matched| == |processes| && forall i :: 0 <= i < |matched| ==> !matched[i]
    ensures Unpaired(processes, matched) == multiset(processes)
  {
    if processes != [] {
      var n := |processes| - 1;
      NothingPairedYet(processes[..n], matched[..n]);
      assert processes == processes[..n] + [processes[n]];
    }
  }

  lemma CandidateAdded(candidates: seq<Candidate>, c: Candidate)
    ensures RecordsIn(candidates + [c]) ==
              if c.record.Some? then RecordsIn(candidates) + [c.record.value] else RecordsIn(candidates)
    ensures ObservedIn(candidates + [c]) ==
              if c.observed.Some? then ObservedIn(candidates) + [c.observed.value] else ObservedIn(candidates)
  {
    assert (candidates + [c])[..|candidates|] == candidates;
  }

  /** No observation already called foreign equals the evidence of a record that is still unpaired. */
  ghost predicate ForeignsSettled(candidates: seq<Candidate>, processes: seq<ProcessRecord>, matched: seq<bool>)
    requires |matched| == |processes|
  {
    forall i, k :: 0 <= i < |candidates| && candidates[i].verdict == Foreign && 0 <= k < |processes| && !matched[k] ==>
                     processes[k].evidence != candidates[i].observed
  }

  /** Each record is either in a candidate or still unpaired. */
  ghost predicate Conserved(processes: seq<ProcessRecord>, candidates: seq<Candidate>, matched: seq<bool>) {
    && |matched| == |processes|
    && multiset(RecordsIn(candidates)) + Unpaired(processes, matched) == multiset(processes)
  }

  /** The state of the first pass after the given observations. */
  ghost predicate Paired(recovery: RecoveryState, observed: seq<Evidence>, candidates: seq<Candidate>,
                         matched: seq<bool>)
  {
    && |candidates| == |observed|
    && (forall i :: 0 <= i < |candidates| ==> VerdictFits(recovery, candidates[i]) && candidates[i].verdict != Unknown)
    && ObservedIn(candidates) == observed
    && Conserved(recovery.processes, candidates, matched)
    && ForeignsSettled(candidates, recovery.processes, matched)
  }

  lemma NothingPaired(recovery: RecoveryState, matched: seq<bool>)
    requires |matched| == |recovery.processes| && forall i :: 0 <= i < |matched| ==> !matched[i]
    ensures Paired(recovery, [], [], matched)
  {
    NothingPairedYet(recovery.processes, matched);
  }

  lemma ConservedByMatch(processes: seq<ProcessRecord>, candidates: seq<Candidate>, matched: seq<bool>, k: nat,
                         c: Candidate)
    requires Conserved(processes, candidates, matched) && k < |processes| && !matched[k] &&
               c.record == Some(processes[k])
    ensures Conserved(processes, candidates + [c], matched[k := true])
  {
    PairingRemovesOne(processes, matched, k);
    CandidateAdded(candidates, c);
  }

  lemma MatchStep(recovery: RecoveryState, observed: seq<Evidence>, candidates: seq<Candidate>, matched: seq<bool>,
                  k: nat, current: Evidence)
    requires Paired(recovery, observed, candidates, matched)
    requires k < |recovery.processes| && !matched[k] && recovery.processes[k].evidence == Some(current)
    ensures Paired(recovery, observed + [current],
                   candidates + [MatchedCandidate(recovery, recovery.processes[k], current)], matched[k := true])
  {
    var c := MatchedCandidate(recovery, recovery.processes[k], current);
    CandidateAdded(candidates, c);
    ConservedByMatch(recovery.processes, candidates, matched, k, c);
  }

  lemma ForeignStep(recovery: RecoveryState, observed: seq<Evidence>, candidates: seq<Candidate>, matched: seq<bool>,
                    current: Evidence)
    requires Paired(recovery, observed, candidates, matched)
    requires forall j :: 0 <= j < |recovery.processes| ==> matched[j] || recovery.processes[j].evidence != Some(current)
    ensures Paired(recovery, observed + [current], candidates + [Candidate(Foreign, None, Some(current))], matched)
  {
    var c := Candidate(Foreign, None, Some(current));
    CandidateAdded(candidates, c);
    assert Conserved(recovery.processes, candidates + [c], matched);
    assert ForeignsSettled(candidates + [c], recovery.processes, matched);
  }

  /** Classifies one observation against the records still unmatched. */
  method ClassifyOne(recovery: RecoveryState, ghost observed: seq<Evidence>, candidates: seq<Candidate>,
                     matched: seq<bool>, current: Evidence)
    returns (longer: seq<Candidate>, marked: seq<bool>)
    requires Paired(recovery, observed, candidates, matched)
    ensures Paired(recovery, observed + [current], longer, marked)
  {
    var k := FindUnmatched(recovery.processes, matched, current);
    if k < |recovery.processes| {
      MatchStep(recovery, observed, candidates, matched, k, current);
      marked := matched[k := true];
      longer := candidates + [MatchedCandidate(recovery, recovery.processes[k], current)];
    } else {
      ForeignStep(recovery, observed, candidates, matched, current);
      marked := matched;
      longer := candidates + [Candidate(Foreign, None, Some(current))];
    }
  }

  method ClassifyRecovery(recovery: RecoveryState, observed: seq<Evidence>) returns (candidates: seq<Candidate>)
    ensures IsPartition(recovery, observed, candidates)
    ensures |candidates| >= |observed|
    ensures forall i :: 0 <= i < |candidates| ==> (candidates[i].verdict == Unknown <==> |observed| <= i)
  {
    var matched: seq<bool> := seq(|recovery.processes|, _ => false);
    candidates := [];
    NothingPaired(recovery, matched);
    for n := 0 to |observed|
      invariant Paired(recovery, observed[..n], candidates, matched)
    {
      assert observed[..n + 1] == observed[..n] + [observed[n]];
      candidates, matched := ClassifyOne(recovery, observed[..n], candidates, matched, observed[n]);
    }
    assert observed[..|observed|] == observed;
    candidates := AppendUnknown(recovery, observed, candidates, matched);
  }

  /** The second pass: every record left unmatched becomes an unknown candidate. */
  method AppendUnknown(recovery: RecoveryState, ghost observed: seq<Evidence>, paired: seq<Candidate>,
                       matched: seq<bool>)
    returns (candidates: seq<Candidate>)
    requires Paired(recovery, observed, paired, matched)
    ensures IsPartition(recovery, observed, candidates)
    ensures |candidates| >= |observed|
    ensures forall i :: 0 <= i < |candidates| ==> (candidates[i].verdict == Unknown <==> |observed| <= i)
  {
    var processes := recovery.processes;
    candidates := paired;
    for k := 0 to |processes|
      invariant Extended(recovery, paired, matched, candidates, k)
    {
      ghost var before := candidates;
      if !matched[k] {
        candidates := candidates + [Candidate(Unknown, Some(processes[k]), None)];
      }
      UnknownStep(recovery, paired, matched, before, candidates, k);
    }
    ExtendedIsPartition(recovery, observed, paired, matched, candidates);
  }

  /** The first record that is still unmatched and has the evidence, or the length when there is none. */
  method FindUnmatched(processes: seq<ProcessRecord>, matched: seq<bool>, current: Evidence) returns (k: nat)
    requires |matched| == |processes|
    ensures k <= |processes|
    ensures k < |processes| ==> !matched[k] && processes[k].evidence == Some(current)
    ensures forall j :: 0 <= j < k ==> matched[j] || processes[j].evidence != Some(current)
  {
    k := 0;
    while k < |processes| && (matched[k] || processes[k].evidence != Some(current))
      invariant k <= |processes|
      invariant forall j :: 0 <= j < k ==> matched[j] || processes[j].evidence != Some(current)
    {
      k := k + 1;
    }
  }

  predicate IsUnmatchedRecord(processes: seq<ProcessRecord>, matched: seq<bool>, c: Candidate)
    requires |matched| == |processes|
  {
    && c.verdict == Unknown && c.observed.None?
    && exists j :: 0 <= j < |processes| && !matched[j] && c.record == Some(processes[j])
  }

  /** The state of the second pass after k records. */
  ghost predicate Extended(recovery: RecoveryState, paired: seq<Candidate>, matched: seq<bool>,
                           candidates: seq<Candidate>, k: nat)
  {
    && |matched| == |recovery.processes| && k <= |recovery.processes|
    && |paired| <= |candidates| && candidates[..|paired|] == paired
    && (forall i :: |paired| <= i < |candidates| ==> IsUnmatchedRecord(recovery.processes, matched, candidates[i]))
    && ObservedIn(candidates) == ObservedIn(paired)
    && multiset(RecordsIn(candidates)) == multiset(RecordsIn(paired)) + Unpaired(recovery.processes[..k], matched[..k])
  }

  lemma UnknownAdded(recovery: RecoveryState, paired: seq<Candidate>, matched: seq<bool>, before: seq<Candidate>,
                     k: nat)
    requires Extended(recovery, paired, matched, before, k) && k < |recovery.processes| && !matched[k]
    ensures Extended(recovery, paired, matched, before + [Candidate(Unknown, Some(recovery.processes[k]), None)], k + 1)
  {
    var processes := recovery.processes;
    var c := Candidate(Unknown, Some(processes[k]), None);
    var after := before + [c];
    UnpairedStep(processes, matched, k);
    CandidateAdded(before, c);
    assert after[..|paired|] == before[..|paired|];
    assert IsUnmatchedRecord(processes, matched, c);
    assert multiset(RecordsIn(after)) == multiset(RecordsIn(before)) + multiset{processes[k]};
  }

  lemma UnknownStep(recovery: RecoveryState, paired: seq<Candidate>, matched: seq<bool>, before: seq<Candidate>,
                    after: seq<Candidate>, k: nat)
    requires Extended(recovery, paired, matched, before, k) && k < |recovery.processes|
    requires after == if matched[k] then before else before + [Candidate(Unknown, Some(recovery.processes[k]), None)]
    ensures Extended(recovery, paired, matched, after, k + 1)
  {
    if matched[k] {
      UnpairedStep(recovery.processes, matched, k);
    } else {
      UnknownAdded(recovery, paired, matched, before, k);
    }
  }

  lemma UnpairedStep(processes: seq<ProcessRecord>, matched: seq<bool>, k: nat)
    requires |matched| == |processes| && k < |processes|
    ensures Unpaired(processes[..k + 1], matched[..k + 1]) ==
            if matched[k] then Unpaired(processes[..k], matched[..k])
              else Unpaired(processes[..k], matched[..k]) + multiset{processes[k]}
  {
    assert processes[..k + 1][..k] == processes[..k] && matched[..k + 1][..k] == matched[..k];
  }

  lemma ExtendedIsPartition(recovery: RecoveryState, observed: seq<Evidence>, paired: seq<Candidate>,
                            matched: seq<bool>, candidates: seq<Candidate>)
    requires Paired(recovery, observed, paired, matched)
    requires Extended(recovery, paired, matched, candidates, |recovery.processes|)
    ensures IsPartition(recovery, observed, candidates)
    ensures forall i :: 0 <= i < |candidates| ==> (candidates[i].verdict == Unknown <==> |paired| <= i)
  {
    var processes := recovery.processes;
    assert processes[..|processes|] == processes && matched[..|processes|] == matched;
    assert multiset(RecordsIn(candidates)) == multiset(processes);
    assert forall i :: 0 <= i < |paired| ==> candidates[i] == paired[i];
    forall i, j | 0 <= i < |candidates| && 0 <= j < |candidates| && candidates[i].verdict == Foreign &&
      candidates[j].verdict == Unknown
      ensures candidates[j].record.value.evidence != candidates[i].observed
    {
      assert i < |paired| && candidates[i] == paired[i];
      assert IsUnmatchedRecord(processes, matched, candidates[j]);
    }
  }

  // --------------------------------------------------------------------- counting

  function CountMatched(candidates: seq<Candidate>, e: Evidence): nat {
    if candidates == [] then 0 else
    var before, last := candidates[..|candidates| - 1], candidates[|candidates| - 1];
    CountMatched(before, e) + if last.record.Some? && last.observed == Some(e) then 1 else 0
  }

  function CountForeign(candidates: seq<Candidate>, e: Evidence): nat {
    if candidates == [] then 0 else
    var before, last := candidates[..|candidates| - 1], candidates[|candidates| - 1];
    CountForeign(before, e) + if last.verdict == Foreign && last.observed == Some(e) then 1 else 0
  }

  function CountUnknown(candidates: seq<Candidate>, e: Evidence): nat {
    if candidates == [] then 0 else
    var before, last := candidates[..|candidates| - 1], candidates[|candidates| - 1];
    var counts := last.verdict == Unknown && last.record.Some? && last.record.value.evidence == Some(e);
    CountUnknown(before, e) + if counts then 1 else 0
  }

  function CountRecorded(processes: seq<ProcessRecord>, e: Evidence): nat {
    if processes == [] then 0 else
    var before, last := processes[..|processes| - 1], processes[|processes| - 1];
    CountRecorded(before, e) + if last.evidence == Some(e) then 1 else 0
  }

  lemma {:induction false} ObservedCounts(recovery: RecoveryState, candidates: seq<Candidate>, e: Evidence)
    requires forall i :: 0 <= i < |candidates| ==> VerdictFits(recovery, candidates[i])
    ensures CountMatched(candidates, e) + CountForeign(candidates, e) == multiset(ObservedIn(candidates))[e]
    ensures CountForeign(candidates, e) > 0 ==>
              exists i :: 0 <= i < |candidates| && candidates[i].verdict == Foreign && candidates[i].observed == Some(e)
  {
    if candidates != [] {
      var before, last := candidates[..|candidates| - 1], candidates[|candidates| - 1];
      ObservedCounts(recovery, before, e);
      assert VerdictFits(recovery, last);
      assert forall i :: 0 <= i < |before| ==> candidates[i] == before[i];
    }
  }

  lemma {:induction false} RecordCounts(recovery: RecoveryState, candidates: seq<Candidate>, e: Evidence)
    requires forall i :: 0 <= i < |candidates| ==> VerdictFits(recovery, candidates[i])
    ensures CountMatched(candidates, e) + CountUnknown(candidates, e) == CountRecorded(RecordsIn(candidates), e)
    ensures CountUnknown(candidates, e) > 0 ==>
              exists i ::
                0 <= i < |candidates| && candidates[i].verdict == Unknown && candidates[i].record.Some? &&
                  candidates[i].record.value.evidence == Some(e)
  {
    if candidates != [] {
      var before, last := candidates[..|candidates| - 1], candidates[|candidates| - 1];
      RecordCounts(recovery, before, e);
      assert VerdictFits(recovery, last);
      assert forall i :: 0 <= i < |before| ==> candidates[i] == before[i];
      if last.record.Some? {
        assert (RecordsIn(before) + [last.record.value])[..|RecordsIn(before)|] == RecordsIn(before);
      }
    }
  }

  lemma WithoutOne(b: seq<ProcessRecord>, k: nat)
    requires k < |b|
    ensures multiset(b[..k] + b[k + 1..]) == multiset(b) - multiset{b[k]}
  {
    assert b == b[..k] + [b[k]] + b[k + 1..];
  }

  /** Counting is insensitive to order. */
  lemma {:induction false} CountRecordedMultiset(a: seq<ProcessRecord>, b: seq<ProcessRecord>, e: Evidence)
    requires multiset(a) == multiset(b)
    ensures CountRecorded(a, e) == CountRecorded(b, e)
  {
    if a == [] {
      assert multiset(b) == multiset{};
    } else {
      var n := |a| - 1;
      assert a == a[..n] + [a[n]];
      assert a[n] in multiset(b);
      var k :| 0 <= k < |b| && b[k] == a[n];
      CountRecordedRemove(b, k, e);
      var rest := b[..k] + b[k + 1..];
      WithoutOne(a, n);
      WithoutOne(b, k);
      assert a[..n] + a[n + 1..] == a[..n];
      CountRecordedMultiset(a[..n], rest, e);
    }
  }

  lemma {:induction false} CountRecordedConcat(a: seq<ProcessRecord>, b: seq<ProcessRecord>, e: Evidence)
    ensures CountRecorded(a + b, e) == CountRecorded(a, e) + CountRecorded(b, e)
  {
    if b == [] {
      assert a + b == a;
    } else {
      assert (a + b)[..|a + b| - 1] == a + b[..|b| - 1];
      CountRecordedConcat(a, b[..|b| - 1], e);
    }
  }

  lemma CountRecordedRemove(b: seq<ProcessRecord>, k: nat, e: Evidence)
    requires k < |b|
    ensures CountRecorded(b, e) == CountRecorded(b[..k] + b[k + 1..], e) + if b[k].evidence == Some(e) then 1 else 0
  {
    var front, rest := b[..k], b[k + 1..];
    assert b == front + [b[k]] + rest;
    CountRecordedConcat(front + [b[k]], rest, e);
    CountRecordedConcat(front, [b[k]], e);
    CountRecordedConcat(front, rest, e);
    assert CountRecorded([b[k]][..0], e) == 0;
  }

  /**
   For each evidence value, the number of pairs is the smaller of the number of
   observations and the number of records; the surplus observations are Foreign
   and the surplus records are Unknown.
   */
  lemma PartitionCounts(recovery: RecoveryState, observed: seq<Evidence>, candidates: seq<Candidate>, e: Evidence)
    requires IsPartition(recovery, observed, candidates)
    ensures var seen, recorded := multiset(observed)[e], CountRecorded(recovery.processes, e);
            var pairs := if seen < recorded then seen else recorded;
            && CountMatched(candidates, e) == pairs
            && CountForeign(candidates, e) == seen - pairs
            && CountUnknown(candidates, e) == recorded - pairs
  {
    ObservedCounts(recovery, candidates, e);
    RecordCounts(recovery, candidates, e);
    CountRecordedMultiset(RecordsIn(candidates), recovery.processes, e);
  }
}
