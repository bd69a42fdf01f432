/**
 The release index: built from component manifests in one pass, and checked by a
 validator that was written independently of the builder.
 */
module ReleaseIndex {
  import opened Results
  import opened KeyOrder

  /** A target, as the value that its canonical JSON determines. */
  datatype Target = Target(os: string, osVersion: string, architecture: string, details: map<string, string>)

  datatype Lock = Lock(repository: string, path: string, commit: string, sha256: string)

  /** The contract pins of a compatibility group. */
  datatype Pins = Pins(groupVersion: Option<string>, contractApi: string, wireApi: string, lock: Lock)

  datatype Compatibility = Compatibility(groupId: string, pins: Pins)

  datatype Manifest = Manifest(
    component: string,
    version: string,
    target: Target,
    digest: string,
    channel: string,
    ref: string,
    commit: string,
    repository: string,
    releaseId: string,
    compatibility: Option<Compatibility>)

  datatype Row = Row(component: string, version: string, target: Target, uri: string, digest: string)

  datatype Member = Member(component: string, target: Target, version: string, digest: string)

  datatype Group = Group(groupId: string, pins: Pins, members: seq<Member>)

  datatype Index = Index(releases: seq<Row>, groups: seq<Group>)

  /** The text formats that regular expressions check, and the asset name when the target has one. */
  datatype Formats = Formats(
    componentId: string -> bool,
    sha256: string -> bool,
    lock: Lock -> bool,
    asset: Manifest -> Option<string>)

  const GITHUB := "https://github.com/"

  predicate ValidTarget(t: Target) {
    (t.os == "linux" || t.os == "windows") && t.osVersion != "" &&
      (t.architecture == "x86_64" || t.architecture == "aarch64")
  }

  /** A compatibility section; a group version may be missing here. */
  predicate ValidCompatibility(f: Formats, groupId: string, pins: Pins) {
    && groupId != "" && pins.contractApi != "" && pins.wireApi != "" && f.lock(pins.lock)
    && (pins.groupVersion.Some? ==> pins.groupVersion.value != "")
  }

  predicate ValidManifest(f: Formats, m: Manifest) {
    && f.componentId(m.component) && m.version != "" && ValidTarget(m.target) && f.sha256(m.digest)
    && (m.compatibility.Some? ==> ValidCompatibility(f, m.compatibility.value.groupId, m.compatibility.value.pins))
  }

  // ---------------------------------------------------------------- what is valid

  predicate ValidRow(f: Formats, row: Row) {
    f.componentId(row.component) && row.version != "" && GITHUB <= row.uri && f.sha256(row.digest) &&
      ValidTarget(row.target)
  }

  /** One row per component and target. */
  ghost predicate ValidRows(f: Formats, rows: seq<Row>) {
    && rows != []
    && (forall i :: 0 <= i < |rows| ==> ValidRow(f, rows[i]))
    && (forall i, j :: 0 <= i < j < |rows| ==>
          (rows[i].component, rows[i].target) != (rows[j].component, rows[j].target))
  }

  /** The member stands for an indexed row. */
  predicate Indexed(rows: seq<Row>, m: Member) {
    exists i :: 0 <= i < |rows| && Stands(rows[i], m)
  }

  predicate Stands(row: Row, m: Member) {
    row.component == m.component && row.target == m.target && row.version == m.version && row.digest == m.digest
  }

  predicate ValidMember(f: Formats, rows: seq<Row>, m: Member) {
    f.componentId(m.component) && f.sha256(m.digest) && Indexed(rows, m)
  }

  ghost predicate ValidMembers(f: Formats, rows: seq<Row>, members: seq<Member>) {
    && members != []
    && (forall i :: 0 <= i < |members| ==> ValidMember(f, rows, members[i]))
    && (forall i, j :: 0 <= i < j < |members| ==>
          (members[i].component, members[i].target) != (members[j].component, members[j].target))
  }

  /** In an index the group version must be there. */
  predicate ValidPins(f: Formats, g: Group) {
    ValidCompatibility(f, g.groupId, g.pins) && g.pins.groupVersion.Some?
  }

  ghost predicate ValidGroups(f: Formats, rows: seq<Row>, groups: seq<Group>) {
    && (forall i :: 0 <= i < |groups| ==> ValidPins(f, groups[i]) && ValidMembers(f, rows, groups[i].members))
    && (forall i, j :: 0 <= i < j < |groups| ==> groups[i].groupId != groups[j].groupId)
  }

  // ------------------------------------------------------------------ the validator

  /** Counts what is wrong with the release rows. */
  method CheckRows(f: Formats, rows: seq<Row>) returns (errors: nat)
    ensures errors == 0 <==> ValidRows(f, rows)
  {
    errors := if rows == [] then 1 else 0;
    var seen: set<(string, Target)> := {};
    for i := 0 to |rows|
      invariant seen == set k | 0 <= k < i :: (rows[k].component, rows[k].target)
      invariant errors == 0 <==>
                  && rows != []
                  && (forall k :: 0 <= k < i ==> ValidRow(f, rows[k]))
                  && (forall k, l :: 0 <= k < l < i ==>
                        (rows[k].component, rows[k].target) != (rows[l].component, rows[l].target))
    {
      var row := rows[i];
      if !ValidRow(f, row) {
        errors := errors + 1;
      }
      if (row.component, row.target) in seen {
        errors := errors + 1;
      }
      seen := seen + {(row.component, row.target)};
    }
  }

  /** Counts what is wrong with the members of one group. */
  method CheckMembers(f: Formats, rows: seq<Row>, members: seq<Member>) returns (errors: nat)
    ensures errors == 0 <==> ValidMembers(f, rows, members)
  {
    errors := if members == [] then 1 else 0;
    var seen: set<(string, Target)> := {};
    for i := 0 to |members|
      invariant seen <= set k | 0 <= k < i :: (members[k].component, members[k].target)
      invariant errors == 0 ==> seen == set k | 0 <= k < i :: (members[k].component, members[k].target)
      invariant errors == 0 <==>
                  && members != []
                  && (forall k :: 0 <= k < i ==> ValidMember(f, rows, members[k]))
                  && (forall k, l :: 0 <= k < l < i ==>
                        (members[k].component, members[k].target) != (members[l].component, members[l].target))
    {
      var m := members[i];
      if !f.componentId(m.component) || !f.sha256(m.digest) {
        errors := errors + 1;
      } else {
        if (m.component, m.target) in seen {
          errors := errors + 1;
        }
        seen := seen + {(m.component, m.target)};
        if !Indexed(rows, m) {
          errors := errors + 1;
        }
      }
    }
  }

  /** Counts what is wrong with the compatibility groups. */
  method CheckGroups(f: Formats, rows: seq<Row>, groups: seq<Group>) returns (errors: nat)
    ensures errors == 0 <==> ValidGroups(f, rows, groups)
  {
    errors := 0;
    var ids: set<string> := {};
    for i := 0 to |groups|
      invariant ids <= set k | 0 <= k < i :: groups[k].groupId
      invariant errors == 0 ==> ids == set k | 0 <= k < i :: groups[k].groupId
      invariant errors == 0 <==>
                  && (forall k :: 0 <= k < i ==> ValidPins(f, groups[k]) && ValidMembers(f, rows, groups[k].members))
                  && (forall k, l :: 0 <= k < l < i ==> groups[k].groupId != groups[l].groupId)
    {
      var g := groups[i];
      if g.groupId == "" || g.groupId in ids {
        errors := errors + 1;
      } else {
        ids := ids + {g.groupId};
      }
      if !ValidPins(f, g) {
        errors := errors + 1;
      }
      var inside := CheckMembers(f, rows, g.members);
      errors := errors + inside;
    }
  }

  // -------------------------------------------------------------------- the builder

  datatype Error =
    | NoManifests | InvalidManifest | ChannelMismatch | SourceMismatch | DuplicateTarget
    | NoAssetName | GroupVersionMissing | PinsDiffer | MixedReleases

  function RowOf(f: Formats, m: Manifest): Row
    requires f.asset(m).Some?
  {
    Row(m.component, m.version, m.target, GITHUB + f.asset(m).value, m.digest)
  }

  function MemberOf(m: Manifest): Member { Member(m.component, m.target, m.version, m.digest) }

  predicate Names(m: Manifest, id: string) { m.compatibility.Some? && m.compatibility.value.groupId == id }

  /** The members of a group, in manifest order: exactly the manifests that name it. */
  function MembersOf(ms: seq<Manifest>, id: string): seq<Member> {
    if ms == [] then []
    else
      var m, before := ms[|ms| - 1], MembersOf(ms[..|ms| - 1], id);
      if Names(m, id) then before + [MemberOf(m)] else before
  }

  /** What one index asks of each of its manifests. */
  predicate Fits(f: Formats, channel: string, ref: string, commit: string, m: Manifest) {
    && ValidManifest(f, m) && m.channel == channel && m.ref == ref && m.commit == commit && f.asset(m).Some?
    && (m.compatibility.Some? ==> m.compatibility.value.pins.groupVersion.Some?)
  }

  ghost predicate Distinct(ms: seq<Manifest>) {
    forall i, j :: 0 <= i < j < |ms| ==> (ms[i].component, ms[i].target) != (ms[j].component, ms[j].target)
  }

  /** Manifests that name the same group pin the same contracts. */
  ghost predicate PinsAgree(ms: seq<Manifest>) {
    forall i, j :: 0 <= i < j < |ms| && ms[i].compatibility.Some? && Names(ms[j], ms[i].compatibility.value.groupId) ==>
      ms[i].compatibility == ms[j].compatibility
  }

  ghost predicate OneRelease(ms: seq<Manifest>) {
    forall i, j :: 0 <= i < |ms| && 0 <= j < |ms| ==>
      ms[i].repository == ms[j].repository && ms[i].releaseId == ms[j].releaseId
  }

  /** The inputs an index can be built from. */
  ghost predicate Acceptable(f: Formats, channel: string, ref: string, commit: string, ms: seq<Manifest>) {
    ms != [] && (forall i :: 0 <= i < |ms| ==> Fits(f, channel, ref, commit, ms[i])) && Distinct(ms) && PinsAgree(ms) &&
      OneRelease(ms)
  }

  ghost predicate RowsOf(f: Formats, ms: seq<Manifest>, rows: seq<Row>) {
    |rows| == |ms| && forall i :: 0 <= i < |ms| ==> f.asset(ms[i]).Some? && rows[i] == RowOf(f, ms[i])
  }

  /** The groups named so far, each with the shared pins and exactly the members that name it. */
  ghost predicate GroupsOf(ms: seq<Manifest>, groups: map<string, Group>) {
    && (forall i :: 0 <= i < |ms| && ms[i].compatibility.Some? ==>
          var c := ms[i].compatibility.value;
          c.groupId in groups && groups[c.groupId].pins == c.pins)
    && (forall id :: id in groups ==>
          && groups[id].groupId == id && groups[id].members == MembersOf(ms, id)
          && exists i :: 0 <= i < |ms| && Names(ms[i], id))
  }

  /** The groups of an index, ordered by identifier. */
  ghost predicate GroupList(groups: map<string, Group>, list: seq<Group>) {
    && (forall i, j :: 0 <= i < j < |list| ==> Less(list[i].groupId, list[j].groupId))
    && (forall i :: 0 <= i < |list| ==> list[i].groupId in groups && list[i] == groups[list[i].groupId])
    && (forall id :: id in groups ==> exists i :: 0 <= i < |list| && list[i].groupId == id)
  }

  lemma {:induction false} UnnamedHasNoMembers(ms: seq<Manifest>, id: string)
    requires forall i :: 0 <= i < |ms| ==> !Names(ms[i], id)
    ensures MembersOf(ms, id) == []
  {
    if ms != [] {
      UnnamedHasNoMembers(ms[..|ms| - 1], id);
    }
  }

  /** The groups after one more manifest that names a group. */
  function Joined(groups: map<string, Group>, m: Manifest): map<string, Group>
    requires m.compatibility.Some?
  {
    var c := m.compatibility.value;
    var group := if c.groupId in groups then groups[c.groupId] else Group(c.groupId, c.pins, []);
    groups[c.groupId := group.(members := group.members + [MemberOf(m)])]
  }

  predicate PinsFit(groups: map<string, Group>, m: Manifest) {
    m.compatibility.Some? && m.compatibility.value.groupId in groups ==>
      groups[m.compatibility.value.groupId].pins == m.compatibility.value.pins
  }

  lemma PinsFitMeansAgree(before: seq<Manifest>, m: Manifest, groups: map<string, Group>)
    requires GroupsOf(before, groups) && PinsAgree(before)
    ensures PinsFit(groups, m) <==> PinsAgree(before + [m])
  {
    var ms := before + [m];
    if PinsFit(groups, m) {
      forall i, j | 0 <= i < j < |ms| && ms[i].compatibility.Some? && Names(ms[j], ms[i].compatibility.value.groupId)
        ensures ms[i].compatibility == ms[j].compatibility
      {
        assert before[i] == ms[i];
      }
    } else {
      var id := m.compatibility.value.groupId;
      var i :| 0 <= i < |before| && Names(before[i], id);
      assert ms[i] == before[i] && Names(ms[|before|], id);
    }
  }

  lemma MembersAfter(before: seq<Manifest>, m: Manifest, id: string)
    ensures MembersOf(before + [m], id) ==
              if Names(m, id) then MembersOf(before, id) + [MemberOf(m)] else MembersOf(before, id)
  {
    assert (before + [m])[..|before|] == before;
  }

  lemma JoinedGroup(before: seq<Manifest>, m: Manifest, groups: map<string, Group>, id: string)
    requires GroupsOf(before, groups) && m.compatibility.Some? && PinsFit(groups, m) && id in Joined(groups, m)
    ensures Joined(groups, m)[id].groupId == id && Joined(groups, m)[id].members == MembersOf(before + [m], id)
    ensures exists i :: 0 <= i < |before + [m]| && Names((before + [m])[i], id)
  {
    var ms := before + [m];
    MembersAfter(before, m, id);
    if id in groups {
      var i :| 0 <= i < |before| && Names(before[i], id);
      assert Names(ms[i], id);
    } else {
      assert Names(ms[|before|], id);
      UnnamedHasNoMembers(before, id);
    }
  }

  lemma JoiningKeepsGroups(before: seq<Manifest>, m: Manifest, groups: map<string, Group>)
    requires GroupsOf(before, groups) && PinsFit(groups, m) && m.compatibility.Some?
    ensures GroupsOf(before + [m], Joined(groups, m))
  {
    var ms := before + [m];
    forall id | id in Joined(groups, m)
      ensures Joined(groups, m)[id].groupId == id && Joined(groups, m)[id].members == MembersOf(ms, id)
      ensures exists i :: 0 <= i < |ms| && Names(ms[i], id)
    {
      JoinedGroup(before, m, groups, id);
    }
  }

  lemma UngroupedKeepsGroups(before: seq<Manifest>, m: Manifest, groups: map<string, Group>)
    requires GroupsOf(before, groups) && m.compatibility.None?
    ensures GroupsOf(before + [m], groups)
  {
    var ms := before + [m];
    forall id | id in groups
      ensures groups[id].members == MembersOf(ms, id) && exists i :: 0 <= i < |ms| && Names(ms[i], id)
    {
      MembersAfter(before, m, id);
      var i :| 0 <= i < |before| && Names(before[i], id);
      assert Names(ms[i], id);
    }
  }

  /** Adds one manifest to the group it names. */
  method AddToGroup(ghost before: seq<Manifest>, m: Manifest, groups: map<string, Group>)
    returns (r: Result<map<string, Group>, Error>)
    requires GroupsOf(before, groups) && PinsAgree(before)
    ensures r.Ok? <==>
              PinsAgree(before + [m]) && (m.compatibility.Some? ==> m.compatibility.value.pins.groupVersion.Some?)
    ensures r.Ok? ==> GroupsOf(before + [m], r.value)
  {
    PinsFitMeansAgree(before, m, groups);
    if m.compatibility.None? {
      UngroupedKeepsGroups(before, m, groups);
      return Ok(groups);
    }
    if m.compatibility.value.pins.groupVersion.None? {
      return Err(GroupVersionMissing);
    }
    if !PinsFit(groups, m) {
      return Err(PinsDiffer);
    }
    JoiningKeepsGroups(before, m, groups);
    return Ok(Joined(groups, m));
  }

  function Identity(m: Manifest): (string, Target) { (m.component, m.target) }

  /** What the loop has built from some manifests. */
  ghost predicate Built(f: Formats, channel: string, ref: string, commit: string, ms: seq<Manifest>,
                        rows: seq<Row>, seen: set<(string, Target)>, groups: map<string, Group>) {
    && (forall i :: 0 <= i < |ms| ==> Fits(f, channel, ref, commit, ms[i]))
    && Distinct(ms) && PinsAgree(ms)
    && RowsOf(f, ms, rows) && seen == (set i | 0 <= i < |ms| :: Identity(ms[i])) && GroupsOf(ms, groups)
  }

  lemma SeenMeansDistinct(before: seq<Manifest>, m: Manifest, seen: set<(string, Target)>)
    requires Distinct(before) && seen == set i | 0 <= i < |before| :: Identity(before[i])
    ensures Identity(m) !in seen <==> Distinct(before + [m])
    ensures seen + {Identity(m)} == set i | 0 <= i < |before + [m]| :: Identity((before + [m])[i])
  {
    var ms := before + [m];
    assert forall i :: 0 <= i < |before| ==> ms[i] == before[i];
    assert ms[|before|] == m;
    if Identity(m) in seen {
      var i :| 0 <= i < |before| && Identity(before[i]) == Identity(m);
      assert Identity(ms[i]) == Identity(ms[|before|]);
    }
  }

  /** The loop body: checks one manifest and enters it. */
  method AddManifest(f: Formats, channel: string, ref: string, commit: string, ghost before: seq<Manifest>, m: Manifest,
                     rows: seq<Row>, seen: set<(string, Target)>, groups: map<string, Group>)
    returns (r: Result<(seq<Row>, set<(string, Target)>, map<string, Group>), Error>)
    requires Built(f, channel, ref, commit, before, rows, seen, groups)
    ensures r.Ok? <==> Fits(f, channel, ref, commit, m) && Distinct(before + [m]) && PinsAgree(before + [m])
    ensures r.Ok? ==> Built(f, channel, ref, commit, before + [m], r.value.0, r.value.1, r.value.2)
  {
    if !ValidManifest(f, m) {
      return Err(InvalidManifest);
    }
    if m.channel != channel {
      return Err(ChannelMismatch);
    }
    if m.ref != ref || m.commit != commit {
      return Err(SourceMismatch);
    }
    SeenMeansDistinct(before, m, seen);
    if Identity(m) in seen {
      return Err(DuplicateTarget);
    }
    if f.asset(m).None? {
      return Err(NoAssetName);
    }
    var joined := AddToGroup(before, m, groups);
    if joined.Err? {
      return Err(joined.error);
    }
    return Ok((rows + [RowOf(f, m)], seen + {Identity(m)}, joined.value));
  }

  // ----------------------------------------------- what is built passes the validator

  ghost predicate ComesFrom(ms: seq<Manifest>, id: string, m: Member) {
    exists i :: 0 <= i < |ms| && Names(ms[i], id) && MemberOf(ms[i]) == m
  }

  lemma {:induction false} MembersComeFromManifests(ms: seq<Manifest>, id: string)
    requires Distinct(ms)
    ensures forall k :: 0 <= k < |MembersOf(ms, id)| ==> ComesFrom(ms, id, MembersOf(ms, id)[k])
    ensures forall k, l :: 0 <= k < l < |MembersOf(ms, id)| ==>
              (MembersOf(ms, id)[k].component, MembersOf(ms, id)[k].target) !=
              (MembersOf(ms, id)[l].component, MembersOf(ms, id)[l].target)
  {
    if ms != [] {
      var before, m := ms[..|ms| - 1], ms[|ms| - 1];
      MembersComeFromManifests(before, id);
      forall x | ComesFrom(before, id, x) ensures ComesFrom(ms, id, x) && (x.component, x.target) != Identity(m) {
        var i :| 0 <= i < |before| && Names(before[i], id) && MemberOf(before[i]) == x;
        assert ms[i] == before[i];
      }
      assert Names(m, id) ==> ComesFrom(ms, id, MemberOf(m));
    }
  }

  lemma {:induction false} NamedHasMembers(ms: seq<Manifest>, id: string, i: nat)
    requires i < |ms| && Names(ms[i], id)
    ensures MembersOf(ms, id) != []
  {
    if i < |ms| - 1 {
      NamedHasMembers(ms[..|ms| - 1], id, i);
    }
  }

  lemma GroupMembersAreValid(f: Formats, channel: string, ref: string, commit: string, ms: seq<Manifest>,
                             rows: seq<Row>, id: string)
    requires (forall i :: 0 <= i < |ms| ==> Fits(f, channel, ref, commit, ms[i])) && Distinct(ms) && RowsOf(f, ms, rows)
    requires exists i :: 0 <= i < |ms| && Names(ms[i], id)
    ensures ValidMembers(f, rows, MembersOf(ms, id))
  {
    var members := MembersOf(ms, id);
    var n :| 0 <= n < |ms| && Names(ms[n], id);
    NamedHasMembers(ms, id, n);
    MembersComeFromManifests(ms, id);
    forall k | 0 <= k < |members| ensures ValidMember(f, rows, members[k]) {
      assert ComesFrom(ms, id, members[k]);
      var i :| 0 <= i < |ms| && Names(ms[i], id) && MemberOf(ms[i]) == members[k];
      assert Stands(rows[i], members[k]);
    }
  }

  lemma {:induction false} LessIrreflexive(a: string)
    ensures !Less(a, a)
  {
    if a != [] {
      LessIrreflexive(a[1..]);
    }
  }

  lemma RowsAreValid(f: Formats, channel: string, ref: string, commit: string, ms: seq<Manifest>, rows: seq<Row>)
    requires ms != [] && (forall i :: 0 <= i < |ms| ==> Fits(f, channel, ref, commit, ms[i])) && Distinct(ms) &&
               RowsOf(f, ms, rows)
    ensures ValidRows(f, rows)
  {
    forall i | 0 <= i < |rows| ensures ValidRow(f, rows[i]) {
      assert Fits(f, channel, ref, commit, ms[i]);
    }
  }

  lemma GroupsAreValid(f: Formats, channel: string, ref: string, commit: string, ms: seq<Manifest>, rows: seq<Row>,
                       groups: map<string, Group>, list: seq<Group>)
    requires (forall i :: 0 <= i < |ms| ==> Fits(f, channel, ref, commit, ms[i])) && Distinct(ms) && RowsOf(f, ms, rows)
    requires GroupsOf(ms, groups) && GroupList(groups, list)
    ensures ValidGroups(f, rows, list)
  {
    forall k | 0 <= k < |list| ensures ValidPins(f, list[k]) && ValidMembers(f, rows, list[k].members) {
      var id := list[k].groupId;
      assert groups[id] == list[k] && groups[id].members == MembersOf(ms, id);
      GroupMembersAreValid(f, channel, ref, commit, ms, rows, id);
      var i :| 0 <= i < |ms| && Names(ms[i], id);
      assert Fits(f, channel, ref, commit, ms[i]);
    }
    forall i, j | 0 <= i < j < |list| ensures list[i].groupId != list[j].groupId {
      LessIrreflexive(list[i].groupId);
    }
  }

  // ---------------------------------------------------------------------- the index

  method ListGroups(groups: map<string, Group>) returns (list: seq<Group>)
    requires forall id :: id in groups ==> groups[id].groupId == id
    ensures GroupList(groups, list)
  {
    var ids := SortedKeys(groups.Keys);
    list := [];
    for i := 0 to |ids|
      invariant |list| == i && forall k :: 0 <= k < i ==> list[k] == groups[ids[k]]
    {
      list := list + [groups[ids[i]]];
    }
    forall id | id in groups ensures exists i :: 0 <= i < |list| && list[i].groupId == id {
      var i :| 0 <= i < |ids| && ids[i] == id;
      assert list[i].groupId == id;
    }
  }

  /** The groups of an index are the groups the manifests name. */
  ghost predicate IndexesGroups(ms: seq<Manifest>, list: seq<Group>) {
    exists groups :: GroupsOf(ms, groups) && GroupList(groups, list)
  }

  /** Enters every manifest, up to the first that does not fit. */
  method Enter(f: Formats, channel: string, ref: string, commit: string, ms: seq<Manifest>)
    returns (r: Result<Index, Error>)
    ensures r.Ok? <==>
              (forall i :: 0 <= i < |ms| ==> Fits(f, channel, ref, commit, ms[i])) && Distinct(ms) && PinsAgree(ms)
    ensures r.Ok? ==> RowsOf(f, ms, r.value.releases) && IndexesGroups(ms, r.value.groups)
  {
    var rows: seq<Row>, seen: set<(string, Target)>, groups: map<string, Group> := [], {}, map[];
    for i := 0 to |ms|
      invariant Built(f, channel, ref, commit, ms[..i], rows, seen, groups)
    {
      assert ms[..i + 1] == ms[..i] + [ms[i]];
      var added := AddManifest(f, channel, ref, commit, ms[..i], ms[i], rows, seen, groups);
      if added.Err? {
        PrefixFails(f, channel, ref, commit, ms, i);
        return Err(added.error);
      }
      rows, seen, groups := added.value.0, added.value.1, added.value.2;
    }
    assert ms[..|ms|] == ms;
    var list := ListGroups(groups);
    return Ok(Index(rows, list));
  }

  lemma PrefixFails(f: Formats, channel: string, ref: string, commit: string, ms: seq<Manifest>, k: nat)
    requires k < |ms| &&
               !(Fits(f, channel, ref, commit, ms[k]) && Distinct(ms[..k] + [ms[k]]) && PinsAgree(ms[..k] + [ms[k]]))
    ensures !((forall i :: 0 <= i < |ms| ==> Fits(f, channel, ref, commit, ms[i])) && Distinct(ms) && PinsAgree(ms))
  {
    var some := ms[..k] + [ms[k]];
    assert forall i :: 0 <= i < |some| ==> some[i] == ms[i];
  }

  /** Whether all manifests come from one repository and one release. */
  method SameRelease(ms: seq<Manifest>) returns (same: bool)
    requires ms != []
    ensures same <==> OneRelease(ms)
  {
    same := true;
    for i := 0 to |ms|
      invariant same <==>
                  forall k :: 0 <= k < i ==> ms[k].repository == ms[0].repository && ms[k].releaseId == ms[0].releaseId
    {
      same := same && ms[i].repository == ms[0].repository && ms[i].releaseId == ms[0].releaseId;
    }
  }

  /**
   Builds an index.  It succeeds on exactly the acceptable manifests, and then the
   validator finds nothing wrong with its rows and groups.
   */
  method CreateIndex(f: Formats, channel: string, ref: string, commit: string, ms: seq<Manifest>)
    returns (r: Result<Index, Error>)
    ensures r.Ok? <==> Acceptable(f, channel, ref, commit, ms)
    ensures r.Ok? ==> RowsOf(f, ms, r.value.releases) && IndexesGroups(ms, r.value.groups)
    ensures r.Ok? ==> ValidRows(f, r.value.releases) && ValidGroups(f, r.value.releases, r.value.groups)
  {
    if ms == [] {
      return Err(NoManifests);
    }
    r := Enter(f, channel, ref, commit, ms);
    if r.Err? {
      return;
    }
    var same := SameRelease(ms);
    if !same {
      return Err(MixedReleases);
    }
    RowsAreValid(f, channel, ref, commit, ms, r.value.releases);
    ghost var groups :| GroupsOf(ms, groups) && GroupList(groups, r.value.groups);
    GroupsAreValid(f, channel, ref, commit, ms, r.value.releases, groups, r.value.groups);
  }
}
