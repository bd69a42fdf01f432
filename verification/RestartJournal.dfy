/**
 The restart journal of the Kernel: epochs and fence tokens that only move
 forward, and the reconciliation that runs before any listener is bound.

 The clock, the outcome of every write and the answers of the sandbox are
 arguments, so each statement holds for every choice of them.
 */
module RestartJournal {
  import opened Results
  import opened JournalFile
  import opened RecoveryView
  import opened Classification
  import opened EventReplay
  import opened KeyOrder

  /** The processes are the rows of the table in key order, each once. */
  ghost predicate RowsInOrder(table: ProcessTable, processes: seq<ProcessRecord>) {
    && (forall i :: 0 <= i < |processes| ==>
          processes[i].instanceName in table && table[processes[i].instanceName] == processes[i])
    && (forall name :: name in table ==> table[name] in processes)
    && (forall i, j :: 0 <= i < j < |processes| ==> Less(processes[i].instanceName, processes[j].instanceName))
  }

  /** What recovery returns for the node. */
  ghost predicate IsRecovery(contents: seq<Token>, node: string, s: RecoveryState) {
    var records := Records(contents);
    && s.nodeEpoch == MaxEpoch(records, node)
    && s.nextFenceToken == Max(SaturatingSucc(MaxFence(records, node)), 1)
    && RowsInOrder(OpenTable(records, node), s.processes)
  }

  function StartRecord(stamp: u64, node: string, epoch: u64): Record {
    Record(stamp, KernelStarted, node, epoch, None, None, None, "KERNEL_EPOCH_STARTED", None, None)
  }

  /** The record that closes, or fails to close, a stale process. */
  function CleanupRecord(stamp: u64, node: string, epoch: u64, process: ProcessRecord, complete: bool,
                         reason: string): Record
  {
    Record(stamp, if complete then InstanceTerminated else InstanceCleanupFailed, node, epoch,
           Some(process.instanceName), process.leaseName, process.fenceToken, reason, None, None)
  }

  /** The maxima and the table a reader holds after some records. */
  datatype Progress = Progress(nodeEpoch: u64, maxFenceToken: u64, table: ProcessTable)

  function Advance(p: Progress, r: Record, node: string): Progress {
    if r.nodeId != node then p
    else Progress(Max(p.nodeEpoch, r.nodeEpoch), Max(p.maxFenceToken, FenceOf(r)), UpdateTable(p.table, r, node))
  }

  function ProgressOf(records: seq<Record>, node: string): Progress {
    if records == [] then Progress(0, 0, map[])
    else Advance(ProgressOf(records[..|records| - 1], node), records[|records| - 1], node)
  }

  lemma AdvanceIsSnoc(records: seq<Record>, r: Record, node: string)
    ensures ProgressOf(records + [r], node) == Advance(ProgressOf(records, node), r, node)
  {
    assert (records + [r])[..|records|] == records;
  }

  /** The single fold of the reader is the three folds of the recovery view. */
  lemma {:induction false} ProgressIsFolds(records: seq<Record>, node: string)
    ensures ProgressOf(records, node) ==
              Progress(MaxEpoch(records, node), MaxFence(records, node), OpenTable(records, node))
  {
    if records != [] {
      ProgressIsFolds(records[..|records| - 1], node);
    }
  }

  /** What a reader holds after some lines, line by line. */
  function ReadUpTo(lines: seq<Line>, i: nat, node: string): Progress
    requires i <= |lines|
  {
    if i == 0 then Progress(0, 0, map[])
    else
      var before, parsed := ReadUpTo(lines, i - 1, node), ParseLine(lines[i - 1]);
      if parsed.Some? then Advance(before, parsed.value, node) else before
  }

  /** Reading line by line gives the folds over the parsed records. */
  lemma {:induction false} ReadUpToIsFold(lines: seq<Line>, i: nat, node: string)
    requires i <= |lines|
    ensures ReadUpTo(lines, i, node) == ProgressOf(Parsed(lines[..i]), node)
  {
    if i > 0 {
      ReadUpToIsFold(lines, i - 1, node);
      NextLine(lines, i - 1);
      if ParseLine(lines[i - 1]).Some? {
        AdvanceIsSnoc(Parsed(lines[..i - 1]), ParseLine(lines[i - 1]).value, node);
      }
    }
  }

  /** The reader's loop over the lines of the file. */
  method RecoverLines(lines: seq<Line>, hasTerminalNewline: bool, node: string) returns (r: Option<Progress>)
    ensures r.Some? <==> PassesLines(lines, hasTerminalNewline, |lines|)
    ensures r.Some? ==> r.value == ReadUpTo(lines, |lines|, node)
  {
    var nodeEpoch: u64 := 0;
    var maxFenceToken: u64 := 0;
    var table: ProcessTable := map[];
    for i := 0 to |lines|
      invariant PassesLines(lines, hasTerminalNewline, i)
      invariant Progress(nodeEpoch, maxFenceToken, table) == ReadUpTo(lines, i, node)
    {
      var parsed := ParseLine(lines[i]);
      if parsed.None? {
        if i + 1 == |lines| && !hasTerminalNewline {
          continue;
        }
        StopIsFinal(lines, hasTerminalNewline, i, |lines|);
        return None;
      }
      var record := parsed.value;
      if record.nodeId == node {
        nodeEpoch := Max(nodeEpoch, record.nodeEpoch);
        maxFenceToken := Max(maxFenceToken, FenceOf(record));
        table := UpdateTable(table, record, node);
      }
    }
    return Some(Progress(nodeEpoch, maxFenceToken, table));
  }

  method RecoverContents(contents: seq<Token>, node: string) returns (r: Result<RecoveryState, ReadError>)
    ensures r.Ok? <==> Readable(contents)
    ensures r.Ok? ==> IsRecovery(contents, node, r.value)
  {
    ReadableLineByLine(contents);
    if Torn(false) in contents {
      return Err(ReadFailed);
    }
    var lines := Lines(contents);
    var progress := RecoverLines(lines, EndsWithNewline(contents), node);
    if progress.None? {
      return Err(Corrupt);
    }
    ReadUpToIsFold(lines, |lines|, node);
    assert lines[..|lines|] == lines;
    ProgressIsFolds(Parsed(lines), node);
    var processes := Rows(Records(contents), node, progress.value.table);
    return Ok(RecoveryState(progress.value.nodeEpoch, Max(SaturatingSucc(progress.value.maxFenceToken), 1), processes));
  }

  method Rows(ghost records: seq<Record>, ghost node: string, table: ProcessTable)
    returns (processes: seq<ProcessRecord>)
    requires table == OpenTable(records, node)
    ensures RowsInOrder(table, processes)
  {
    var keys := SortedKeys(table.Keys);
    forall name | name in table ensures table[name].instanceName == name {
      TableRows(records, node, name);
    }
    processes := seq(|keys|, i requires 0 <= i < |keys| && keys[i] in table => table[keys[i]]);
    forall name | name in table ensures table[name] in processes {
      var i :| 0 <= i < |keys| && keys[i] == name;
      assert processes[i] == table[name];
    }
  }

  // --------------------------------------------------------- epochs over all runs

  function NextEpoch(contents: seq<Token>, node: string, now: u64): u64 {
    Max(now, SaturatingSucc(MaxEpoch(Records(contents), node)))
  }

  function NextFence(contents: seq<Token>, node: string): u64 {
    Max(SaturatingSucc(MaxFence(Records(contents), node)), 1)
  }

  /** One reader or writer of the journal: a Kernel start, or any other append. */
  datatype Action =
    | Begin(node: string, now: u64, stamp: u64, outcome: WriteOutcome)
    | Append(record: Record, outcome: WriteOutcome)

  /** A start that reported success, with the records completed before it. */
  datatype Start = Start(node: string, epoch: u64, nextFenceToken: u64, before: seq<Record>)

  /** The file, the records whose append reported success, and the successful starts so far. */
  datatype World = World(text: seq<Token>, completed: seq<Record>, starts: seq<Start>)

  function PerformAppend(w: World, record: Record, outcome: WriteOutcome): World {
    var completed := if outcome == Complete then w.completed + [record] else w.completed;
    World(w.text + Written(record, outcome), completed, w.starts)
  }

  ghost function Perform(w: World, a: Action): World {
    match a
    case Append(record, outcome) => PerformAppend(w, record, outcome)
    case Begin(node, now, stamp, outcome) =>
      if !Readable(w.text) then w else
      var epoch := NextEpoch(w.text, node, now);
      var w' := PerformAppend(w, StartRecord(stamp, node, epoch), outcome);
      if outcome != Complete then w'
      else w'.(starts := w.starts + [Start(node, epoch, NextFence(w.text, node), w.completed)])
  }

  ghost function PerformAll(w: World, actions: seq<Action>): World {
    if actions == [] then w else Perform(PerformAll(w, actions[..|actions| - 1]), actions[|actions| - 1])
  }

  /**
   The start is ahead of every record of its node completed before it, unless that
   record had reached the largest u64.
   */
  ghost predicate Advances(s: Start) {
    forall r :: r in s.before && r.nodeId == s.node ==>
      && (r.nodeEpoch < s.epoch <==> r.nodeEpoch < U64_MAX)
      && (r.fenceToken.Some? ==> (r.fenceToken.value < s.nextFenceToken <==> r.fenceToken.value < U64_MAX))
  }

  ghost predicate Holds(s: seq<Record>, node: string, epoch: u64) {
    exists r :: r in s && r.nodeId == node && r.nodeEpoch == epoch
  }

  ghost predicate Inv(w: World) {
    && (Readable(w.text) ==> forall r :: r in w.completed ==> r in Parsed(Done(w.text)))
    && (forall i :: 0 <= i < |w.starts| ==>
          Advances(w.starts[i]) && Holds(w.completed, w.starts[i].node, w.starts[i].epoch))
    && (forall i, j :: 0 <= i < j < |w.starts| ==> Holds(w.starts[j].before, w.starts[i].node, w.starts[i].epoch))
  }

  /** A completed append is in the file for as long as the file can be read. */
  lemma CompletedStays(w: World, record: Record, outcome: WriteOutcome)
    requires Inv(w)
    ensures Inv(PerformAppend(w, record, outcome))
  {
    var w' := PerformAppend(w, record, outcome);
    AppendKeepsReadable(w.text, record, outcome);
    if Readable(w'.text) {
      forall r | r in w'.completed ensures r in Parsed(Done(w'.text)) {
        if r in w.completed {
          DoneRecordsStay(w.text, record, outcome, r);
        } else {
          AppendAddsRecord(w.text, record, outcome);
          assert Lines(w'.text) == Done(w'.text);
        }
      }
    }
    forall i | 0 <= i < |w.starts| ensures Holds(w'.completed, w.starts[i].node, w.starts[i].epoch) {
      assert Holds(w.completed, w.starts[i].node, w.starts[i].epoch);
      var r :| r in w.completed && r.nodeId == w.starts[i].node && r.nodeEpoch == w.starts[i].epoch;
      assert r in w'.completed;
    }
  }

  lemma StartIsAhead(w: World, node: string, now: u64)
    requires Inv(w) && Readable(w.text)
    ensures Advances(Start(node, NextEpoch(w.text, node, now), NextFence(w.text, node), w.completed))
  {
    MaximaAreBounds(Records(w.text), node);
    forall r | r in w.completed && r.nodeId == node
      ensures r.nodeEpoch <= MaxEpoch(Records(w.text), node) && FenceOf(r) <= MaxFence(Records(w.text), node)
    {
      DoneRecordsAreRead(w.text, r);
    }
  }

  lemma ActionKeepsInv(w: World, a: Action)
    requires Inv(w)
    ensures Inv(Perform(w, a))
  {
    match a
    case Append(record, outcome) => CompletedStays(w, record, outcome);
    case Begin(node, now, stamp, outcome) =>
      if Readable(w.text) {
        BeginKeepsInv(w, node, now, stamp, outcome);
      }
  }

  lemma StartKeepsInv(w: World, s: Start)
    requires Inv(w) && Advances(s) && Holds(w.completed, s.node, s.epoch)
    requires forall i :: 0 <= i < |w.starts| ==> Holds(s.before, w.starts[i].node, w.starts[i].epoch)
    ensures Inv(w.(starts := w.starts + [s]))
  {
  }

  lemma BeginKeepsInv(w: World, node: string, now: u64, stamp: u64, outcome: WriteOutcome)
    requires Inv(w) && Readable(w.text)
    ensures Inv(Perform(w, Begin(node, now, stamp, outcome)))
  {
    var epoch := NextEpoch(w.text, node, now);
    var record := StartRecord(stamp, node, epoch);
    var w' := PerformAppend(w, record, outcome);
    CompletedStays(w, record, outcome);
    StartIsAhead(w, node, now);
    if outcome == Complete {
      assert record in w'.completed;
      StartKeepsInv(w', Start(node, epoch, NextFence(w.text, node), w.completed));
    }
  }

  /**
   Over every run of starts and appends on any initial file, with every write
   cut off anywhere and any clock: each successful start has an epoch and a next
   fence token above those of every record of its node completed before it, and
   later starts of a node have larger epochs than earlier ones.
   */
  lemma {:induction false} EveryStartAdvances(text: seq<Token>, actions: seq<Action>)
    ensures var w := PerformAll(World(text, [], []), actions);
            && Inv(w)
            && (forall s :: s in w.starts ==> Advances(s))
            && (forall i, j ::
                  0 <= i < j < |w.starts| && w.starts[i].node == w.starts[j].node && w.starts[i].epoch < U64_MAX ==>
                  w.starts[i].epoch < w.starts[j].epoch)
  {
    var w := PerformAll(World(text, [], []), actions);
    if actions != [] {
      EveryStartAdvances(text, actions[..|actions| - 1]);
      ActionKeepsInv(PerformAll(World(text, [], []), actions[..|actions| - 1]), actions[|actions| - 1]);
    }
    forall i, j | 0 <= i < j < |w.starts| && w.starts[i].node == w.starts[j].node && w.starts[i].epoch < U64_MAX
      ensures w.starts[i].epoch < w.starts[j].epoch
    {
      assert Holds(w.starts[j].before, w.starts[i].node, w.starts[i].epoch);
      var r :| r in w.starts[j].before && r.nodeId == w.starts[i].node && r.nodeEpoch == w.starts[i].epoch;
    }
  }

  /** Once a reader refuses the file, every later start fails, whatever else is appended. */
  lemma {:induction false} RefusalIsPermanent(w: World, actions: seq<Action>)
    requires !Readable(w.text)
    ensures !Readable(PerformAll(w, actions).text) && PerformAll(w, actions).starts == w.starts
  {
    if actions != [] {
      var before, a := actions[..|actions| - 1], actions[|actions| - 1];
      RefusalIsPermanent(w, before);
      if a.Append? {
        AppendKeepsReadable(PerformAll(w, before).text, a.record, a.outcome);
      }
    }
  }

  /** A replay fails for good, whatever is appended, exactly when the journal is spoiled. */
  lemma {:induction false} SpoiledForGood(w: World, actions: seq<Action>, accepts: Event -> bool)
    requires Spoiled(w.text, accepts)
    ensures Spoiled(PerformAll(w, actions).text, accepts) && !Replayable(PerformAll(w, actions).text, accepts)
  {
    if actions == [] {
      SpoiledIsNotReplayable(w.text, accepts);
    } else {
      var before, a := actions[..|actions| - 1], actions[|actions| - 1];
      var w' := PerformAll(w, before);
      SpoiledForGood(w, before, accepts);
      match a {
        case Append(record, outcome) => SpoiledStays(w'.text, accepts, record, outcome);
        case Begin(node, now, stamp, outcome) =>
          SpoiledStays(w'.text, accepts, StartRecord(stamp, node, NextEpoch(w'.text, node, now)), outcome);
      }
      SpoiledIsNotReplayable(PerformAll(w, actions).text, accepts);
    }
  }

  lemma ReplayFailureIsPermanent(w: World, accepts: Event -> bool, record: Record)
    ensures Spoiled(w.text, accepts) <==> forall actions :: !Replayable(PerformAll(w, actions).text, accepts)
  {
    if Spoiled(w.text, accepts) {
      forall actions ensures !Replayable(PerformAll(w, actions).text, accepts) {
        SpoiledForGood(w, actions, accepts);
      }
    } else {
      var actions := [Append(record, TornWrite(true))];
      assert actions[..0] == [];
      assert PerformAll(w, actions) == Perform(w, actions[0]);
      TornWriteRepairs(w.text, accepts, record);
    }
  }

  /**
   A torn tail costs the journal: the next start still succeeds, but its own
   record is glued to the tail and every start after it is refused.
   */
  lemma TornTailRefusesSecondStart(w: World, first: Action, rest: seq<Action>)
    requires Readable(w.text) && Tail(w.text) != [] && first.Begin? && first.outcome == Complete
    ensures |Perform(w, first).starts| == |w.starts| + 1
    ensures PerformAll(Perform(w, first), rest).starts == Perform(w, first).starts
  {
    var record := StartRecord(first.stamp, first.node, NextEpoch(w.text, first.node, first.now));
    AppendKeepsReadable(w.text, record, first.outcome);
    RefusalIsPermanent(Perform(w, first), rest);
  }

  // ------------------------------------------------------------------ the journal

  datatype Cleanup = Cleanup(complete: bool, reasonCode: string)

  /** What the sandbox answers to discovery and to the n-th cleanup, and how the n-th journal write ends. */
  datatype Sandbox = Sandbox(
    observed: Result<seq<Evidence>, string>,
    cleanups: nat -> Result<Cleanup, string>,
    stamps: nat -> u64,
    writes: nat -> WriteOutcome)

  /** The text of complete appends. */
  function LinesOf(records: seq<Record>): seq<Token> {
    if records == [] then [] else LinesOf(records[..|records| - 1]) + [Whole(records[|records| - 1]), Newline]
  }

  lemma LinesOfSnoc(records: seq<Record>, r: Record)
    ensures LinesOf(records + [r]) == LinesOf(records) + [Whole(r), Newline]
  {
    assert (records + [r])[..|records|] == records;
  }

  /** Evidence that a cleanup may act on: some process of the recovery has it and belongs to an older epoch. */
  ghost predicate IsStaleEvidence(recovery: RecoveryState, e: Evidence) {
    exists k ::
      0 <= k < |recovery.processes| && recovery.processes[k].evidence == Some(e) &&
        recovery.processes[k].nodeEpoch < recovery.nodeEpoch
  }

  /** Every process of the recovery was observed, and every observation was a process of the recovery. */
  ghost predicate FullyReconciled(recovery: RecoveryState, observed: seq<Evidence>) {
    && (forall k :: 0 <= k < |recovery.processes| ==>
          recovery.processes[k].evidence.Some? && recovery.processes[k].evidence.value in observed &&
            recovery.processes[k].nodeEpoch < recovery.nodeEpoch)
    && (forall e :: multiset(observed)[e] == CountRecorded(recovery.processes, e))
  }

  /** Each record closes an instance on the node, and together they name every process of the recovery. */
  ghost predicate ClosesAll(recovery: RecoveryState, node: string, closings: seq<Record>) {
    && (forall i :: 0 <= i < |closings| ==>
          closings[i].kind == InstanceTerminated && closings[i].nodeId == node && closings[i].instanceName.Some?)
    && (forall k :: 0 <= k < |recovery.processes| ==>
          exists i :: 0 <= i < |closings| && closings[i].instanceName == Some(recovery.processes[k].instanceName))
  }

  lemma {:induction false} RecordIsInSomeCandidate(candidates: seq<Candidate>, p: ProcessRecord)
    requires p in RecordsIn(candidates)
    ensures exists i :: 0 <= i < |candidates| && candidates[i].record == Some(p)
  {
    var before, last := candidates[..|candidates| - 1], candidates[|candidates| - 1];
    if last.record == Some(p) {
      assert candidates[|candidates| - 1].record == Some(p);
    } else {
      RecordIsInSomeCandidate(before, p);
      var i :| 0 <= i < |before| && before[i].record == Some(p);
      assert candidates[i].record == Some(p);
    }
  }

  ghost predicate AllStale(candidates: seq<Candidate>) {
    forall i :: 0 <= i < |candidates| ==> candidates[i].verdict == Stale
  }

  ghost predicate StaleUpTo(candidates: seq<Candidate>, n: nat)
    requires n <= |candidates|
  {
    n == 0 || (StaleUpTo(candidates, n - 1) && candidates[n - 1].verdict == Stale)
  }

  lemma {:induction false} StaleUpToMeaning(candidates: seq<Candidate>, n: nat)
    requires n <= |candidates| && StaleUpTo(candidates, n)
    ensures forall i :: 0 <= i < n ==> candidates[i].verdict == Stale
  {
    if n > 0 {
      StaleUpToMeaning(candidates, n - 1);
    }
  }

  /** A matched record of an older epoch carries evidence that a cleanup may act on. */
  lemma StaleCandidateEvidence(recovery: RecoveryState, observed: seq<Evidence>, candidates: seq<Candidate>, i: nat)
    requires IsPartition(recovery, observed, candidates) && i < |candidates| && candidates[i].verdict == Stale
    ensures candidates[i].record.Some? && candidates[i].observed.Some? &&
              IsStaleEvidence(recovery, candidates[i].observed.value)
    ensures candidates[i].record.value in recovery.processes
  {
    assert VerdictFits(recovery, candidates[i]);
    var p := candidates[i].record.value;
    CandidateRecordIsListed(candidates, i);
    assert p in multiset(recovery.processes);
    var k :| 0 <= k < |recovery.processes| && recovery.processes[k] == p;
  }

  lemma {:induction false} CandidateRecordIsListed(candidates: seq<Candidate>, i: nat)
    requires i < |candidates| && candidates[i].record.Some?
    ensures candidates[i].record.value in RecordsIn(candidates)
  {
    if i < |candidates| - 1 {
      CandidateRecordIsListed(candidates[..|candidates| - 1], i);
    }
  }

  lemma {:induction false} StaleCountsOnly(candidates: seq<Candidate>, e: Evidence)
    requires AllStale(candidates)
    ensures CountForeign(candidates, e) == 0 && CountUnknown(candidates, e) == 0
  {
    if candidates != [] {
      StaleCountsOnly(candidates[..|candidates| - 1], e);
    }
  }

  /** When every verdict is Stale, the journal and the sandbox agree completely. */
  lemma AllStaleReconciles(recovery: RecoveryState, observed: seq<Evidence>, candidates: seq<Candidate>)
    requires IsPartition(recovery, observed, candidates) && AllStale(candidates)
    ensures FullyReconciled(recovery, observed)
  {
    forall e ensures multiset(observed)[e] == CountRecorded(recovery.processes, e) {
      PartitionCounts(recovery, observed, candidates, e);
      StaleCountsOnly(candidates, e);
    }
    forall k | 0 <= k < |recovery.processes|
      ensures && recovery.processes[k].evidence.Some? && recovery.processes[k].evidence.value in observed
              && recovery.processes[k].nodeEpoch < recovery.nodeEpoch
    {
      var _ := ProcessHasCandidate(recovery, observed, candidates, k);
    }
  }

  lemma ProcessHasCandidate(recovery: RecoveryState, observed: seq<Evidence>, candidates: seq<Candidate>, k: nat)
    returns (i: nat)
    requires IsPartition(recovery, observed, candidates) && AllStale(candidates) && k < |recovery.processes|
    ensures i < |candidates| && candidates[i].record == Some(recovery.processes[k])
    ensures && recovery.processes[k].evidence.Some? && recovery.processes[k].evidence.value in observed
            && recovery.processes[k].nodeEpoch < recovery.nodeEpoch
  {
    var p := recovery.processes[k];
    assert p in multiset(RecordsIn(candidates));
    RecordIsInSomeCandidate(candidates, p);
    i :| 0 <= i < |candidates| && candidates[i].record == Some(p);
    assert VerdictFits(recovery, candidates[i]);
    ObservationIsListed(candidates, i);
  }

  lemma {:induction false} ObservationIsListed(candidates: seq<Candidate>, i: nat)
    requires i < |candidates| && candidates[i].observed.Some?
    ensures candidates[i].observed.value in ObservedIn(candidates)
  {
    if i < |candidates| - 1 {
      ObservationIsListed(candidates[..|candidates| - 1], i);
    }
  }

  lemma Regroup(a: seq<Token>, b: seq<Token>, c: seq<Token>)
    ensures a + (b + c) == a + b + c
  {
  }

  /** Whether complete appends leave the journal readable. */
  lemma {:induction false} AppendedLinesReadable(text: seq<Token>, records: seq<Record>)
    ensures Readable(text + LinesOf(records)) <==> Readable(text) && (records == [] || Tail(text) == [])
    ensures Tail(text + LinesOf(records)) == if records == [] then Tail(text) else []
  {
    if records == [] {
      assert text + LinesOf(records) == text;
    } else {
      var before, last := records[..|records| - 1], records[|records| - 1];
      var text' := text + LinesOf(before);
      AppendedLinesReadable(text, before);
      Regroup(text, LinesOf(before), Written(last, Complete));
      AppendKeepsReadable(text', last, Complete);
      AppendShape(text', last, Complete);
    }
  }

  /** Complete appends to an untorn journal add exactly their records. */
  lemma {:induction false} AppendedLinesRecords(text: seq<Token>, records: seq<Record>)
    requires Tail(text) == []
    ensures Records(text + LinesOf(records)) == Records(text) + records
  {
    if records == [] {
      assert text + LinesOf(records) == text && Records(text) + records == Records(text);
    } else {
      var before, last := records[..|records| - 1], records[|records| - 1];
      var text' := text + LinesOf(before);
      AppendedLinesReadable(text, before);
      AppendedLinesRecords(text, before);
      Regroup(text, LinesOf(before), Written(last, Complete));
      AppendAddsRecord(text', last, Complete);
      calc {
        Records(text) + before + [last];
        { assert records == before + [last]; }
        Records(text) + records;
      }
    }
  }

  lemma ClosingOneRow(table: ProcessTable, last: Record, node: string, name: string)
    requires last.kind == InstanceTerminated && last.nodeId == node && last.instanceName.Some?
    requires name in UpdateTable(table, last, node) && (name in table ==> table[name].instanceName == name)
    ensures name in table && last.instanceName != Some(name)
  {
    UpdateAt(table, last, node, name);
  }

  /** Closing records leave only rows that none of them names. */
  lemma {:induction false} ClosedRowsAreGone(records: seq<Record>, node: string, closings: seq<Record>, name: string)
    requires forall i :: 0 <= i < |closings| ==>
               closings[i].kind == InstanceTerminated && closings[i].nodeId == node && closings[i].instanceName.Some?
    requires name in OpenTable(records + closings, node)
    ensures name in OpenTable(records, node)
    ensures forall i :: 0 <= i < |closings| ==> closings[i].instanceName != Some(name)
  {
    if closings == [] {
      assert records + closings == records;
    } else {
      var before, last := closings[..|closings| - 1], closings[|closings| - 1];
      assert records + closings == records + before + [last];
      var table := OpenTable(records + before, node);
      Snoc(records + before, last, node);
      if name in table {
        TableRows(records + before, node, name);
      }
      ClosingOneRow(table, last, node, name);
      ClosedRowsAreGone(records, node, before, name);
      assert forall i :: 0 <= i < |before| ==> closings[i] == before[i];
    }
  }

  /** Only stale evidence was handed out, and only the closing records were written. */
  ghost predicate Cleaned(recovery: RecoveryState, before: seq<Token>, after: seq<Token>, calls: seq<Evidence>,
                          closings: seq<Record>)
  {
    (forall k :: 0 <= k < |calls| ==> IsStaleEvidence(recovery, calls[k])) && after == before + LinesOf(closings)
  }

  class FileRuntimeJournal {
    /** `None` until the first append creates the file. */
    var file: Option<seq<Token>>
    const accepts: Event -> bool

    constructor (accepts: Event -> bool, existing: Option<seq<Token>>)
      ensures this.accepts == accepts && file == existing
    {
      this.accepts := accepts;
      file := existing;
    }

    function Text(): seq<Token>
      reads this
    {
      if file.None? then [] else file.value
    }

    /** One append, as a step of a run. */
    method AppendPersisted(record: Record, outcome: WriteOutcome) returns (ok: bool)
      modifies this
      ensures Text() == old(Text()) + Written(record, outcome) ==
                Perform(World(old(Text()), [], []), Append(record, outcome)).text
      ensures ok <==> outcome == Complete
    {
      if outcome != OpenFailed {
        file := Some(Text() + Written(record, outcome));
      }
      ok := outcome == Complete;
    }

    method Recover(node: string) returns (r: Result<RecoveryState, ReadError>)
      ensures r.Ok? <==> Readable(Text())
      ensures r.Ok? ==> IsRecovery(Text(), node, r.value)
    {
      if file.None? {
        return Ok(RecoveryState(0, 1, []));
      }
      r := RecoverContents(file.value, node);
    }

    /** One start, as a step of a run. */
    method BeginEpoch(node: string, now: u64, stamp: u64, outcome: WriteOutcome)
      returns (r: Result<RecoveryState, string>)
      modifies this
      ensures r.Ok? <==> Readable(old(Text())) && outcome == Complete
      ensures !Readable(old(Text())) ==> Text() == old(Text())
      ensures Readable(old(Text())) ==>
                Text() == old(Text()) + Written(StartRecord(stamp, node, NextEpoch(old(Text()), node, now)), outcome)
      ensures r.Ok? ==>
                && r.value.nodeEpoch == NextEpoch(old(Text()), node, now)
                && r.value.nextFenceToken == NextFence(old(Text()), node)
                && RowsInOrder(OpenTable(Records(old(Text())), node), r.value.processes)
      ensures var w := Perform(World(old(Text()), [], []), Begin(node, now, stamp, outcome));
              Text() == w.text &&
                w.starts == if r.Ok? then [Start(node, r.value.nodeEpoch, r.value.nextFenceToken, [])] else []
    {
      var recovery := Recover(node);
      if recovery.Err? {
        return Err("JOURNAL_READ_FAILED");
      }
      var nodeEpoch := Max(now, SaturatingSucc(recovery.value.nodeEpoch));
      var ok := AppendPersisted(StartRecord(stamp, node, nodeEpoch), outcome);
      if !ok {
        return Err("JOURNAL_WRITE_FAILED");
      }
      return Ok(RecoveryState(nodeEpoch, recovery.value.nextFenceToken, recovery.value.processes));
    }

    method AppendEvent(e: Event, stamp: u64, outcome: WriteOutcome) returns (ok: bool)
      modifies this
      ensures ok <==> accepts(e) && outcome == Complete
      ensures Text() == old(Text()) + if accepts(e) then Written(EventRecord(e, stamp), outcome) else []
    {
      if !accepts(e) {
        return false;
      }
      ok := AppendPersisted(EventRecord(e, stamp), outcome);
    }

    method EventsForSource(source: Identity, namespace: string) returns (r: Result<seq<Event>, ReadError>)
      ensures r.Ok? <==> Replayable(Text(), accepts)
      ensures r.Ok? ==> r.value == Select(Events(Records(Text())), StreamKey(namespace, source))
    {
      if file.None? {
        return Ok([]);
      }
      r := ReplayEvents(file.value, accepts, StreamKey(namespace, source));
    }

    /** Journals the cleanup of one stale process; only a complete cleanup that was completely written is no problem. */
    method ReapStale(node: string, epoch: u64, process: ProcessRecord, cleanup: Result<Cleanup, string>, stamp: u64,
                     write: WriteOutcome)
      returns (problem: Option<string>, closing: Record)
      modifies this
      ensures old(Text()) <= Text()
      ensures problem.None? ==>
                && cleanup.Ok? && cleanup.value.complete && write == Complete
                && closing == CleanupRecord(stamp, node, epoch, process, true, cleanup.value.reasonCode)
                && Text() == old(Text()) + [Whole(closing), Newline]
    {
      var complete := cleanup.Ok? && cleanup.value.complete;
      var reason := if cleanup.Ok? then cleanup.value.reasonCode else "";
      closing := CleanupRecord(stamp, node, epoch, process, complete, reason);
      if cleanup.Err? {
        return Some(cleanup.error), closing;
      }
      var ok := AppendPersisted(closing, write);
      if !ok {
        return Some("JOURNAL_WRITE_FAILED"), closing;
      }
      problem := if cleanup.value.complete then None else Some("RECOVERY_CLEANUP_INCOMPLETE");
    }

    /** Hands one stale process to the sandbox and journals its cleanup. */
    method Clean(node: string, recovery: RecoveryState, c: Candidate, sandbox: Sandbox, ghost text: seq<Token>,
                 ghost before: seq<Candidate>, calls: seq<Evidence>, closings: seq<Record>, ghost handled: bool)
      returns (problem: Option<string>, calls': seq<Evidence>, closings': seq<Record>)
      requires Cleaned(recovery, text, Text(), calls, closings)
      requires c.verdict == Stale && c.record.Some? && c.observed.Some? && c.record.value.evidence == c.observed &&
                 IsStaleEvidence(recovery, c.observed.value)
      requires handled ==> Handled(node, before, calls, closings)
      modifies this
      ensures text + LinesOf(closings') <= Text()
      ensures forall k :: 0 <= k < |calls'| ==> IsStaleEvidence(recovery, calls'[k])
      ensures problem.None? ==> Cleaned(recovery, text, Text(), calls', closings')
      ensures problem.None? && handled ==> Handled(node, before + [c], calls', closings')
    {
      var record, evidence := c.record.value, c.observed.value;
      var n := |calls|;
      calls', closings' := calls + [evidence], closings;
      var closing;
      problem, closing := ReapStale(node, recovery.nodeEpoch, record, sandbox.cleanups(n), sandbox.stamps(n),
                                    sandbox.writes(n));
      if problem.Some? {
        return;
      }
      LinesOfSnoc(closings, closing);
      closings' := closings + [closing];
      if handled {
        HandledStep(node, before, c, calls, closings, evidence, closing);
      }
    }

    /**
     Reconciles leftover processes with the journal before any listener is
     bound.  `calls` lists the evidence handed to the sandbox for cleanup and
     `closings` the closing records that were completely written.
     */
    method RecoverBeforeListeners(node: string, recovery: RecoveryState, sandbox: Sandbox)
      returns (r: Result<(), string>, calls: seq<Evidence>, closings: seq<Record>)
      modifies this
      ensures forall i :: 0 <= i < |calls| ==> IsStaleEvidence(recovery, calls[i])
      ensures old(Text()) + LinesOf(closings) <= Text()
      ensures r.Ok? ==>
                && sandbox.observed.Ok? && calls == sandbox.observed.value
                && FullyReconciled(recovery, calls)
                && ClosesAll(recovery, node, closings)
                && Text() == old(Text()) + LinesOf(closings)
    {
      calls, closings := [], [];
      if sandbox.observed.Err? {
        return Err(sandbox.observed.error), calls, closings;
      }
      var observed := sandbox.observed.value;
      var candidates := ClassifyRecovery(recovery, observed);
      var blocked: Option<string> := None;
      for i := 0 to |candidates|
        invariant Cleaned(recovery, old(Text()), Text(), calls, closings)
        invariant blocked.None? ==> StaleUpTo(candidates, i) && Handled(node, candidates[..i], calls, closings)
      {
        assert candidates[..i + 1] == candidates[..i] + [candidates[i]];
        if candidates[i].verdict == Stale {
          StaleCandidateEvidence(recovery, observed, candidates, i);
          var problem;
          problem, calls, closings := Clean(node, recovery, candidates[i], sandbox, old(Text()), candidates[..i], calls,
                                            closings, blocked.None?);
          if problem.Some? {
            return Err(problem.value), calls, closings;
          }
        } else if candidates[i].verdict == Valid {
          blocked := Some("RECOVERY_VALID_PROCESS_UNADOPTED");
        } else if candidates[i].verdict == Unknown {
          blocked := Some("RECOVERY_UNKNOWN_PROCESS");
        } else {
          blocked := Some("RECOVERY_FOREIGN_PROCESS");
        }
      }
      assert candidates[..|candidates|] == candidates;
      if blocked.Some? {
        return Err(blocked.value), calls, closings;
      }
      StaleUpToMeaning(candidates, |candidates|);
      AllStaleReconciles(recovery, observed, candidates);
      HandledClosesAll(recovery, node, observed, candidates, calls, closings);
      return Ok(()), calls, closings;
    }

    /** The start of the Kernel up to the point where listeners may be bound. */
    method StartKernel(node: string, now: u64, stamp: u64, outcome: WriteOutcome, sandbox: Sandbox)
      returns (r: Result<RecoveryState, string>, calls: seq<Evidence>)
      modifies this
      ensures r.Ok? ==> Readable(old(Text())) && sandbox.observed == Ok(calls) && FullyReconciled(r.value, calls)
      ensures r.Ok? && Tail(old(Text())) == [] ==> Readable(Text()) && OpenTable(Records(Text()), node) == map[]
      ensures r.Ok? && Tail(old(Text())) != [] ==> !Readable(Text())
      ensures calls != [] ==> Readable(old(Text()))
      ensures forall i :: 0 <= i < |calls| ==>
                IsOlderLaunch(Records(old(Text())), node, NextEpoch(old(Text()), node, now), calls[i])
    {
      ghost var text := Text();
      var recovery := BeginEpoch(node, now, stamp, outcome);
      if recovery.Err? {
        return Err(recovery.error), [];
      }
      ghost var start := StartRecord(stamp, node, recovery.value.nodeEpoch);
      ghost var text' := Text();
      var reconciled, cleaned, closings := RecoverBeforeListeners(node, recovery.value, sandbox);
      calls := cleaned;
      forall i | 0 <= i < |calls| ensures IsOlderLaunch(Records(text), node, recovery.value.nodeEpoch, calls[i]) {
        StaleEvidenceIsLaunch(Records(text), node, recovery.value, calls[i]);
      }
      if reconciled.Err? {
        return Err(reconciled.error), calls;
      }
      StartedText(text, node, start, recovery.value, closings);
      return Ok(recovery.value), calls;
    }
  }

  /** The log records a launch of this process on the node, in an epoch before the given one. */
  ghost predicate IsOlderLaunch(records: seq<Record>, node: string, epoch: u64, e: Evidence) {
    exists r :: r in records && Launches(r, node) && r.evidence == Some(e) && r.nodeEpoch < epoch
  }

  lemma StaleEvidenceIsLaunch(records: seq<Record>, node: string, recovery: RecoveryState, e: Evidence)
    requires RowsInOrder(OpenTable(records, node), recovery.processes) && IsStaleEvidence(recovery, e)
    ensures IsOlderLaunch(records, node, recovery.nodeEpoch, e)
  {
    var k :| 0 <= k < |recovery.processes| && recovery.processes[k].evidence == Some(e) &&
      recovery.processes[k].nodeEpoch < recovery.nodeEpoch;
    var p := recovery.processes[k];
    TableRows(records, node, p.instanceName);
    var r :| r in records && Launches(r, node) && ProcessOf(r) == p;
  }

  /** The text after the start record and the closing records of every open process. */
  lemma StartedText(text: seq<Token>, node: string, start: Record, recovery: RecoveryState, closings: seq<Record>)
    requires Readable(text) && start.instanceName.None?
    requires RowsInOrder(OpenTable(Records(text), node), recovery.processes) && ClosesAll(recovery, node, closings)
    ensures var after := text + Written(start, Complete) + LinesOf(closings);
            if Tail(text) == [] then Readable(after) && OpenTable(Records(after), node) == map[] else !Readable(after)
  {
    var text' := text + Written(start, Complete);
    var after := text' + LinesOf(closings);
    AppendKeepsReadable(text, start, Complete);
    AppendShape(text, start, Complete);
    AppendedLinesReadable(text', closings);
    if Tail(text) == [] {
      AppendedLinesRecords(text', closings);
      AppendAddsRecord(text, start, Complete);
      Snoc(Records(text), start, node);
      NothingStaysOpen(Records(text'), node, recovery, closings);
    }
  }

  /** Closing records that name every open process empty the table. */
  lemma NothingStaysOpen(records: seq<Record>, node: string, recovery: RecoveryState, closings: seq<Record>)
    requires RowsInOrder(OpenTable(records, node), recovery.processes) && ClosesAll(recovery, node, closings)
    ensures OpenTable(records + closings, node) == map[]
  {
    var table := OpenTable(records + closings, node);
    forall name ensures name !in table {
      if name in table {
        ClosedRowsAreGone(records, node, closings, name);
        TableRows(records, node, name);
        assert false;
      }
    }
  }

  /** Below the largest u64, the epoch of a start exceeds every epoch in its process table, so no verdict is Valid. */
  lemma StartSeesNoValidProcess(text: seq<Token>, node: string, now: u64, recovery: RecoveryState,
                                observed: seq<Evidence>, candidates: seq<Candidate>, i: nat)
    requires recovery.nodeEpoch == NextEpoch(text, node, now) && MaxEpoch(Records(text), node) < U64_MAX
    requires RowsInOrder(OpenTable(Records(text), node), recovery.processes)
    requires IsPartition(recovery, observed, candidates) && i < |candidates|
    ensures candidates[i].verdict != Valid
  {
    assert VerdictFits(recovery, candidates[i]);
    if candidates[i].record.Some? {
      var p := candidates[i].record.value;
      CandidateRecordIsListed(candidates, i);
      assert p in multiset(recovery.processes);
      var k :| 0 <= k < |recovery.processes| && recovery.processes[k] == p;
      TableRows(Records(text), node, p.instanceName);
      MaximaAreBounds(Records(text), node);
    }
  }

  /** Every candidate so far was handed over for cleanup and closed. */
  ghost predicate Handled(node: string, candidates: seq<Candidate>, calls: seq<Evidence>, closings: seq<Record>) {
    && calls == ObservedIn(candidates)
    && |closings| == |candidates|
    && forall i :: 0 <= i < |closings| ==>
         && closings[i].kind == InstanceTerminated && closings[i].nodeId == node
         && candidates[i].record.Some? && closings[i].instanceName == Some(candidates[i].record.value.instanceName)
  }

  lemma HandledStep(node: string, candidates: seq<Candidate>, c: Candidate, calls: seq<Evidence>,
                    closings: seq<Record>, evidence: Evidence, closing: Record)
    requires Handled(node, candidates, calls, closings)
    requires c.record.Some? && c.observed == Some(evidence)
    requires closing.kind == InstanceTerminated && closing.nodeId == node &&
               closing.instanceName == Some(c.record.value.instanceName)
    ensures Handled(node, candidates + [c], calls + [evidence], closings + [closing])
  {
    CandidateAdded(candidates, c);
  }

  lemma HandledClosesAll(recovery: RecoveryState, node: string, observed: seq<Evidence>, candidates: seq<Candidate>,
                         calls: seq<Evidence>, closings: seq<Record>)
    requires IsPartition(recovery, observed, candidates) && AllStale(candidates) &&
               Handled(node, candidates, calls, closings)
    ensures ClosesAll(recovery, node, closings)
  {
    forall k | 0 <= k < |recovery.processes|
      ensures exists i :: 0 <= i < |closings| && closings[i].instanceName == Some(recovery.processes[k].instanceName)
    {
      var i := ProcessHasCandidate(recovery, observed, candidates, k);
      assert closings[i].instanceName == Some(recovery.processes[k].instanceName);
    }
  }
}
