/**
 What restart recovery reads out of the journal: the largest epoch and fence
 token of a node, and the table of its processes that were launched and never
 closed.  The functions follow the reader's record-by-record update; the lemmas
 relate them to a view of the whole log.
 */
module RecoveryView {
  import opened Results
  import opened JournalFile

  datatype ProcessRecord = ProcessRecord(
    instanceName: string,
    leaseName: Option<string>,
    fenceToken: Option<u64>,
    nodeEpoch: u64,
    evidence: Option<Evidence>)

  type ProcessTable = map<string, ProcessRecord>

  function Max(a: u64, b: u64): u64 { if a < b then b else a }

  function SaturatingSucc(x: u64): u64 { if x == U64_MAX then x else x + 1 }

  function FenceOf(r: Record): u64 { if r.fenceToken.Some? then r.fenceToken.value else 0 }

  predicate IsClosing(kind: Kind) { kind == InstanceTerminated || kind == WatchdogReaped }

  predicate Launches(r: Record, node: string) {
    r.nodeId == node && r.kind == InstanceLaunched && r.instanceName.Some?
  }

  /** A closing record names the process, or carries both its lease and its fence token. */
  predicate Closes(r: Record, node: string, process: ProcessRecord) {
    && r.nodeId == node && IsClosing(r.kind) && r.instanceName.Some?
    && ( || r.instanceName.value == process.instanceName
         || (r.leaseName.Some? && r.fenceToken.Some? && r.leaseName == process.leaseName &&
               r.fenceToken == process.fenceToken))
  }

  function ProcessOf(r: Record): ProcessRecord
    requires r.instanceName.Some?
  {
    ProcessRecord(r.instanceName.value, r.leaseName, r.fenceToken, r.nodeEpoch, r.evidence)
  }

  // ----------------------------------------------------- record-by-record update

  function MaxEpoch(records: seq<Record>, node: string): u64 {
    if records == [] then 0 else
    var before, r := records[..|records| - 1], records[|records| - 1];
    if r.nodeId == node then Max(MaxEpoch(before, node), r.nodeEpoch) else MaxEpoch(before, node)
  }

  function MaxFence(records: seq<Record>, node: string): u64 {
    if records == [] then 0 else
    var before, r := records[..|records| - 1], records[|records| - 1];
    if r.nodeId == node then Max(MaxFence(before, node), FenceOf(r)) else MaxFence(before, node)
  }

  function UpdateTable(table: ProcessTable, r: Record, node: string): ProcessTable {
    if r.nodeId != node || r.instanceName.None? then table
    else if r.kind == InstanceLaunched then table[r.instanceName.value := ProcessOf(r)]
    else if IsClosing(r.kind) then
      var removed := table - {r.instanceName.value};
      if r.leaseName.Some? && r.fenceToken.Some? then
        map name | name in removed &&
          (removed[name].leaseName != r.leaseName || removed[name].fenceToken != r.fenceToken)
          :: removed[name]
      else removed
    else table
  }

  function OpenTable(records: seq<Record>, node: string): ProcessTable {
    if records == [] then map[] else
    UpdateTable(OpenTable(records[..|records| - 1], node), records[|records| - 1], node)
  }

  lemma Snoc(records: seq<Record>, r: Record, node: string)
    ensures MaxEpoch(records + [r], node) ==
              if r.nodeId == node then Max(MaxEpoch(records, node), r.nodeEpoch) else MaxEpoch(records, node)
    ensures MaxFence(records + [r], node) ==
              if r.nodeId == node then Max(MaxFence(records, node), FenceOf(r)) else MaxFence(records, node)
    ensures OpenTable(records + [r], node) == UpdateTable(OpenTable(records, node), r, node)
  {
    assert (records + [r])[..|records|] == records;
  }

  // ------------------------------------------------------------ declarative view

  /** Record k is the last launch of its instance on the node, and nothing after it closes that process. */
  ghost predicate OpenAt(records: seq<Record>, node: string, name: string, k: nat) {
    && k < |records| && Launches(records[k], node) && records[k].instanceName.value == name
    && (forall j :: k < j < |records| && Launches(records[j], node) ==> records[j].instanceName.value != name)
    && (forall j :: k < j < |records| ==> !Closes(records[j], node, ProcessOf(records[k])))
  }

  /** The maxima are attained bounds over the records of the node. */
  lemma {:induction false} MaximaAreBounds(records: seq<Record>, node: string)
    ensures forall r :: r in records && r.nodeId == node ==>
              r.nodeEpoch <= MaxEpoch(records, node) && FenceOf(r) <= MaxFence(records, node)
    ensures MaxEpoch(records, node) != 0 ==>
              exists r :: r in records && r.nodeId == node && r.nodeEpoch == MaxEpoch(records, node)
    ensures MaxFence(records, node) != 0 ==>
              exists r :: r in records && r.nodeId == node && r.fenceToken == Some(MaxFence(records, node))
  {
    if records != [] {
      var before, last := records[..|records| - 1], records[|records| - 1];
      MaximaAreBounds(before, node);
      assert records == before + [last];
    }
  }

  lemma LaterRecordKeepsOpen(records: seq<Record>, r: Record, node: string, name: string, k: nat)
    requires k < |records|
    ensures OpenAt(records + [r], node, name, k) <==>
            && OpenAt(records, node, name, k)
            && !(Launches(r, node) && r.instanceName.value == name)
            && !Closes(r, node, ProcessOf(records[k]))
  {
    var all := records + [r];
    assert all[|records|] == r;
    assert forall j :: 0 <= j < |records| ==> all[j] == records[j];
  }

  /** One update, seen from one instance. */
  lemma UpdateAt(table: ProcessTable, r: Record, node: string, name: string)
    requires name in table ==> table[name].instanceName == name
    ensures var after := UpdateTable(table, r, node);
            if Launches(r, node) && r.instanceName.value == name then name in after && after[name] == ProcessOf(r)
            else && (name in after <==> name in table && !Closes(r, node, table[name]))
                 && (name in after ==> after[name] == table[name])
  {
  }

  /** The table holds an instance exactly when its last launch was never closed, and then holds that launch. */
  lemma {:induction false} TableIsOpenLaunches(records: seq<Record>, node: string, name: string)
    ensures name in OpenTable(records, node) <==> exists k: nat :: OpenAt(records, node, name, k)
    ensures forall k: nat :: OpenAt(records, node, name, k) ==>
              name in OpenTable(records, node) && OpenTable(records, node)[name] == ProcessOf(records[k])
  {
    if records != [] {
      var before, r := records[..|records| - 1], records[|records| - 1];
      var table := OpenTable(before, node);
      TableIsOpenLaunches(before, node, name);
      UpdateAt(table, r, node, name);
      assert records == before + [r];
      forall k: nat | k < |before|
        ensures OpenAt(records, node, name, k) <==>
                OpenAt(before, node, name, k) && !(Launches(r, node) && r.instanceName.value == name) &&
                  !Closes(r, node, ProcessOf(before[k]))
      {
        LaterRecordKeepsOpen(before, r, node, name, k);
      }
      if Launches(r, node) && r.instanceName.value == name {
        assert OpenAt(records, node, name, |before|);
      } else if name in table {
        var k: nat :| OpenAt(before, node, name, k);
        assert OpenAt(records, node, name, k) <==> !Closes(r, node, table[name]);
      }
    }
  }

  /** Every row is filed under its own instance name and is a launch of this node in the log. */
  lemma {:induction false} TableRows(records: seq<Record>, node: string, name: string)
    requires name in OpenTable(records, node)
    ensures OpenTable(records, node)[name].instanceName == name
    ensures exists r :: r in records && Launches(r, node) && ProcessOf(r) == OpenTable(records, node)[name]
  {
    TableIsOpenLaunches(records, node, name);
    var k: nat :| OpenAt(records, node, name, k);
    assert records[k] in records;
  }

  /** A record of another node changes nothing, wherever it stands in the log. */
  lemma {:induction false} OtherNodesAreInvisible(a: seq<Record>, r: Record, b: seq<Record>, node: string)
    requires r.nodeId != node
    ensures MaxEpoch(a + [r] + b, node) == MaxEpoch(a + b, node)
    ensures MaxFence(a + [r] + b, node) == MaxFence(a + b, node)
    ensures OpenTable(a + [r] + b, node) == OpenTable(a + b, node)
  {
    if b == [] {
      assert a + [r] + b == a + [r] && a + b == a;
      Snoc(a, r, node);
    } else {
      var b', last := b[..|b| - 1], b[|b| - 1];
      OtherNodesAreInvisible(a, r, b', node);
      assert a + [r] + b == (a + [r] + b') + [last] && a + b == (a + b') + [last];
      Snoc(a + [r] + b', last, node);
      Snoc(a + b', last, node);
    }
  }

  /** A launch that was only announced changes no recovered process, wherever it stands in the log. */
  lemma {:induction false} AnnouncedLaunchIsInvisible(a: seq<Record>, r: Record, b: seq<Record>, node: string)
    requires r.kind == InstanceLaunching
    ensures OpenTable(a + [r] + b, node) == OpenTable(a + b, node)
  {
    if b == [] {
      assert a + [r] + b == a + [r] && a + b == a;
      Snoc(a, r, node);
    } else {
      var b', last := b[..|b| - 1], b[|b| - 1];
      AnnouncedLaunchIsInvisible(a, r, b', node);
      assert a + [r] + b == (a + [r] + b') + [last] && a + b == (a + b') + [last];
      Snoc(a + [r] + b', last, node);
      Snoc(a + b', last, node);
    }
  }
}
