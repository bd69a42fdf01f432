/**
 The delegated cgroup move: the daemon leaves its service group for a control
 leaf so that controllers can be enabled for the worker root beside it.

 The environment may answer every call with anything.  Next to the log of calls
 the environment keeps a model tree, and `quiet` says whether every answer so far
 was the one that tree gives: nothing else changes the tree between the calls.
 */
module DelegatedMove {
  import opened Results
  import opened ServiceGroup

  datatype Error =
    | DevModeForbidden | PathInvalid | PidInvalid | ProbeMismatch | ChildUnexpected | WorkerRootPopulated
    | ParentPopulated | ControlLeafUnsafe | VerifyFailed | ParentHasProcesses | Io

  datatype Part = Named(name: string) | Up | Here

  datatype Path = Path(absolute: bool, parts: seq<Part>)

  /** Direct processes per group, and the controllers offered to and enabled in the service group. */
  datatype Tree = Tree(groups: map<Group, set<nat>>, available: set<string>, enabled: set<string>)

  /** A call and its answer; `None` and `false` stand for a failed call. */
  datatype Event =
    | Current(group: Option<Group>)
    | Exists(at: Group, present: Option<bool>)
    | Direct(at: Group, pids: Option<seq<nat>>)
    | Children(at: Group, children: Option<seq<Group>>)
    | Ensure(at: Group, leaf: Option<Group>)
    | Move(pid: nat, at: Group, ok: bool)
    | Create(at: Group, ok: bool)
    | Controllers(at: Group, subtree: bool, offered: seq<string>)
    | Enable(at: Group, names: seq<string>, ok: bool)

  function ParentOf(group: Group): Group
    requires group != []
  {
    group[..|group| - 1]
  }

  predicate IsChild(group: Group, parent: Group) { group != [] && ParentOf(group) == parent }

  /** The answer a tree gives to a call of process `self`. */
  ghost predicate Truth(t: Tree, self: nat, e: Event) {
    match e
    case Current(a) =>
      if a.Some? then a.value in t.groups && self in t.groups[a.value] && MOUNT <= a.value && ServiceOf(a.value).Ok?
      else forall g :: g in t.groups && self in t.groups[g] && MOUNT <= g ==> ServiceOf(g).Err?
    case Exists(g, a) => a == Some(g in t.groups)
    case Direct(g, a) => a.Some? == (g in t.groups) && (a.Some? ==> multiset(a.value) == multiset(t.groups[g]))
    case Children(g, a) =>
      a.Some? == (g in t.groups) && (a.Some? ==> forall c :: c in a.value <==> c in t.groups && IsChild(c, g))
    case Ensure(g, a) => a.Some? == (g in t.groups) && (a.Some? ==> a.value == g + [LEAF])
    case Move(_, g, ok) => ok == (g in t.groups)
    case Create(_, ok) => ok
    case Controllers(g, subtree, offered) =>
      subtree == (g in t.groups) && forall c :: c in offered <==> c in t.available
    case Enable(g, _, ok) => ok == (g == MOUNT || (g in t.groups && t.groups[g] == {}))
  }

  function WithGroup(groups: map<Group, set<nat>>, group: Group): map<Group, set<nat>> {
    if group in groups then groups else groups[group := {}]
  }

  /** A process belongs to one group: moving takes it out of every other. */
  ghost function WithMember(groups: map<Group, set<nat>>, pid: nat, group: Group): map<Group, set<nat>> {
    map g | g in groups :: if g == group then groups[g] + {pid} else groups[g] - {pid}
  }

  /** What a call leaves behind. */
  ghost function After(t: Tree, e: Event): Tree {
    match e
    case Ensure(g, Some(leaf)) => t.(groups := WithGroup(t.groups, leaf))
    case Move(pid, g, true) => t.(groups := WithMember(t.groups, pid, g))
    case Create(g, true) => t.(groups := WithGroup(t.groups, g))
    case Enable(g, names, true) => t.(enabled := t.enabled + set c | c in names)
    case _ => t
  }

  /** The calls the move may make, in any environment. */
  class DelegatedCgroupIo {
    const pid: nat
    ghost var log: seq<Event>
    ghost var tree: Tree
    ghost var quiet: bool

    constructor (pid: nat, ghost tree: Tree)
      ensures this.pid == pid && this.tree == tree && log == [] && quiet
    {
      this.pid := pid;
      this.tree := tree;
      log := [];
      quiet := true;
    }

    twostate predicate Called(e: Event)
      reads this
    {
      && log == old(log) + [e]
      && tree == After(old(tree), e)
      && quiet == (old(quiet) && Truth(old(tree), pid, e))
    }

    ghost method Note(e: Event)
      modifies this
      ensures Called(e)
    {
      quiet := quiet && Truth(tree, pid, e);
      tree := After(tree, e);
      log := log + [e];
    }

    method CurrentGroup() returns (a: Option<Group>)
      modifies this
      ensures Called(Current(a))
    {
      a := *;
      Note(Current(a));
    }

    method GroupExists(group: Group) returns (a: Option<bool>)
      modifies this
      ensures Called(Exists(group, a))
    {
      a := *;
      Note(Exists(group, a));
    }

    method DirectProcesses(group: Group) returns (a: Option<seq<nat>>)
      modifies this
      ensures Called(Direct(group, a))
    {
      a := *;
      Note(Direct(group, a));
    }

    method ChildGroups(group: Group) returns (a: Option<seq<Group>>)
      modifies this
      ensures Called(Children(group, a))
    {
      a := *;
      Note(Children(group, a));
    }

    method EnsureControlGroup(parent: Group) returns (a: Option<Group>)
      modifies this
      ensures Called(Ensure(parent, a))
    {
      a := *;
      Note(Ensure(parent, a));
    }

    method MoveProcess(process: nat, destination: Group) returns (a: bool)
      modifies this
      ensures Called(Move(process, destination, a))
    {
      a := *;
      Note(Move(process, destination, a));
    }

    method CreateGroup(group: Group) returns (a: bool)
      modifies this
      ensures Called(Create(group, a))
    {
      a := *;
      Note(Create(group, a));
    }

    method ReadControllers(group: Group) returns (subtree: bool, offered: seq<string>)
      modifies this
      ensures Called(Controllers(group, subtree, offered))
    {
      subtree, offered := *, *;
      Note(Controllers(group, subtree, offered));
    }

    method EnableControllers(group: Group, names: seq<string>) returns (a: bool)
      modifies this
      ensures Called(Enable(group, names, a))
    {
      a := *;
      Note(Enable(group, names, a));
    }
  }

  // ------------------------------------------------------------- the quiet tree

  /** Every group lies under the mount with its parent. */
  ghost predicate Rooted(groups: set<Group>) {
    && MOUNT in groups
    && (forall g :: g in groups ==> MOUNT <= g)
    && (forall g :: g in groups && g != MOUNT ==> ParentOf(g) in groups)
  }

  lemma ChildIsRooted(groups: set<Group>, child: Group)
    requires Rooted(groups) && child != [] && ParentOf(child) in groups
    ensures Rooted(groups + {child})
  {
  }

  /** Every group is rooted, and the daemon is in exactly one. */
  ghost predicate WellFormed(t: Tree, pid: nat) {
    && Rooted(t.groups.Keys)
    && (exists g :: g in t.groups && pid in t.groups[g])
    && (forall g, h :: g in t.groups && h in t.groups && pid in t.groups[g] && pid in t.groups[h] ==> g == h)
  }

  ghost predicate Located(t: Tree, pid: nat, group: Group) {
    group in t.groups && pid in t.groups[group] && MOUNT <= group && ServiceOf(group).Ok?
  }

  ghost predicate NoProcesses(t: Tree, group: Group) { group in t.groups ==> t.groups[group] == {} }

  ghost predicate OnlyExpected(t: Tree, parent: Group, worker: Group) {
    forall c :: c in t.groups && IsChild(c, parent) ==> c == worker || c == parent + [LEAF]
  }

  ghost predicate Childless(t: Tree, group: Group) { forall c :: c in t.groups ==> !IsChild(c, group) }

  /** The daemon alone in its service group with an empty leaf, or already alone in the leaf. */
  ghost predicate Alone(t: Tree, pid: nat, parent: Group) {
    var control := parent + [LEAF];
    || (Located(t, pid, parent) && t.groups[parent] == {pid} && NoProcesses(t, control))
    || (Located(t, pid, control) && NoProcesses(t, parent) && t.groups[control] == {pid})
  }

  /** The trees in which the move succeeds. */
  ghost predicate Admissible(t: Tree, pid: nat, parent: Group, worker: Group) {
    pid != 0 && Alone(t, pid, parent) && OnlyExpected(t, parent, worker) && NoProcesses(t, worker) &&
      Childless(t, parent + [LEAF])
  }

  const WANTED := ["cpu", "memory", "pids", "cpuset"]

  ghost function Wanted(t: Tree): set<string> { set c | c in WANTED && c in t.available }

  ghost function WithControllers(t: Tree): Tree { t.(enabled := t.enabled + Wanted(t)) }

  /** The tree a successful move leaves. */
  ghost function Prepared(t: Tree, pid: nat, parent: Group, worker: Group): Tree {
    var control := parent + [LEAF];
    WithControllers(t.(groups := WithGroup(t.groups[parent := {}][control := {pid}], worker)))
  }

  lemma ListedProcesses(pids: seq<nat>, members: set<nat>, pid: nat)
    requires multiset(pids) == multiset(members)
    ensures pids == [] <==> members == {}
    ensures pids == [pid] <==> members == {pid}
  {
    assert |pids| == |multiset(pids)| == |members|;
    if members == {pid} {
      assert pids[0] in multiset(pids);
    }
    if pids == [pid] {
      assert multiset(pids) == multiset{pid};
      assert forall p :: p in members <==> p in multiset(members);
    }
  }

  // ------------------------------------------------------------------- the move

  /** The log grew by reads only. */
  ghost predicate OnlyReads(before: seq<Event>, after: seq<Event>) {
    before <= after && forall i :: |before| <= i < |after| ==>
      after[i].Current? || after[i].Exists? || after[i].Direct? || after[i].Children?
  }

  /** The answer shows no child group other than the worker root and the control leaf. */
  ghost predicate ShowsExpected(e: Event, parent: Group, worker: Group) {
    e.Children? && e.at == parent && e.children.Some? && forall c :: c in e.children.value ==>
      c == worker || c == parent + [LEAF]
  }

  method ValidateChildren(io: DelegatedCgroupIo, parent: Group, worker: Group) returns (r: Result<(), Error>)
    modifies io
    ensures r != Err(ParentHasProcesses)
    ensures OnlyReads(old(io.log), io.log) && |io.log| == |old(io.log)| + 1 && io.tree == old(io.tree)
    ensures r.Ok? <==> ShowsExpected(io.log[|io.log| - 1], parent, worker)
    ensures io.quiet ==> old(io.quiet)
    ensures io.quiet && parent in io.tree.groups ==> (r.Ok? <==> OnlyExpected(io.tree, parent, worker))
  {
    var children := io.ChildGroups(parent);
    if children.None? {
      return Err(Io);
    }
    for i := 0 to |children.value|
      invariant forall k :: 0 <= k < i ==> children.value[k] == worker || children.value[k] == parent + [LEAF]
    {
      if children.value[i] != worker && children.value[i] != parent + [LEAF] {
        assert children.value[i] in children.value;
        return Err(ChildUnexpected);
      }
    }
    return Ok(());
  }

  lemma OneHome(t: Tree, pid: nat, parent: Group, current: Option<Group>)
    requires WellFormed(t, pid) && Truth(t, pid, Current(current))
    ensures current.Some? && (current.value == parent || current.value == parent + [LEAF]) <==>
            Located(t, pid, parent) || Located(t, pid, parent + [LEAF])
  {
  }

  /** The daemon's own group, which must be the service group or its control leaf. */
  method Probe(io: DelegatedCgroupIo, parent: Group) returns (r: Result<Group, Error>)
    modifies io
    ensures r != Err(ParentHasProcesses)
    ensures OnlyReads(old(io.log), io.log) && io.tree == old(io.tree)
    ensures r.Ok? ==> r.value == parent || r.value == parent + [LEAF]
    ensures io.quiet ==> old(io.quiet) && (r.Ok? ==> Located(io.tree, io.pid, r.value))
    ensures io.quiet && WellFormed(io.tree, io.pid) ==>
              (r.Ok? <==> Located(io.tree, io.pid, parent) || Located(io.tree, io.pid, parent + [LEAF]))
  {
    var current := io.CurrentGroup();
    if io.quiet && WellFormed(io.tree, io.pid) {
      OneHome(io.tree, io.pid, parent, current);
    }
    if current.None? {
      return Err(Io);
    }
    if current.value != parent && current.value != parent + [LEAF] {
      return Err(ProbeMismatch);
    }
    return Ok(current.value);
  }

  method CheckWorkerRoot(io: DelegatedCgroupIo, worker: Group) returns (r: Result<(), Error>)
    modifies io
    ensures r != Err(ParentHasProcesses)
    ensures OnlyReads(old(io.log), io.log) && io.tree == old(io.tree)
    ensures io.quiet ==> old(io.quiet) && (r.Ok? <==> NoProcesses(io.tree, worker))
  {
    var present := io.GroupExists(worker);
    if present.None? {
      return Err(Io);
    }
    if present.value {
      var inside := io.DirectProcesses(worker);
      if inside.None? {
        return Err(Io);
      }
      if io.quiet {
        ListedProcesses(inside.value, io.tree.groups[worker], 0);
      }
      if inside.value != [] {
        return Err(WorkerRootPopulated);
      }
    }
    return Ok(());
  }

  /** The checks before anything is changed. */
  method CheckService(io: DelegatedCgroupIo, parent: Group, worker: Group) returns (r: Result<Group, Error>)
    modifies io
    ensures r != Err(ParentHasProcesses)
    ensures OnlyReads(old(io.log), io.log) && io.tree == old(io.tree)
    ensures r.Ok? ==> r.value == parent || r.value == parent + [LEAF]
    ensures io.quiet ==> old(io.quiet) && (r.Ok? ==> Located(io.tree, io.pid, r.value))
    ensures io.quiet && WellFormed(io.tree, io.pid) ==> (r.Ok? <==>
              && (Located(io.tree, io.pid, parent) || Located(io.tree, io.pid, parent + [LEAF]))
              && OnlyExpected(io.tree, parent, worker) && NoProcesses(io.tree, worker))
  {
    r := Probe(io, parent);
    if r.Err? {
      return;
    }
    if io.quiet && WellFormed(io.tree, io.pid) {
      ParentPresent(io.tree, io.pid, parent);
    }
    var children := ValidateChildren(io, parent, worker);
    if children.Err? {
      return Err(children.error);
    }
    var inside := CheckWorkerRoot(io, worker);
    if inside.Err? {
      return Err(inside.error);
    }
  }

  lemma ParentPresent(t: Tree, pid: nat, parent: Group)
    requires WellFormed(t, pid)
    requires Located(t, pid, parent) || Located(t, pid, parent + [LEAF])
    ensures parent in t.groups
  {
    var control := parent + [LEAF];
    assert ParentOf(control) == parent;
    assert control != MOUNT by { assert control[|control| - 1] == LEAF; }
  }

  /** The calls that hand the daemon over to the control leaf. */
  ghost function Handover(pid: nat, parent: Group, ok: bool): seq<Event> {
    var control := parent + [LEAF];
    [Direct(parent, Some([pid])), Ensure(parent, Some(control)), Direct(control, Some([])), Children(control, Some([])),
     Move(pid, control, ok)]
  }

  /** The log grew without a move and without touching the worker root. */
  ghost predicate NoMove(before: seq<Event>, after: seq<Event>) {
    before <= after && forall i :: |before| <= i < |after| ==> !after[i].Move? && !after[i].Create? && !after[i].Enable?
  }

  ghost function Moved(t: Tree, pid: nat, parent: Group): Tree {
    t.(groups := t.groups[parent := {}][parent + [LEAF] := {pid}])
  }

  /** The tree after the leaf was ensured and, possibly, entered. */
  ghost function Left(t: Tree, pid: nat, parent: Group, entered: bool): Tree {
    var groups := WithGroup(t.groups, parent + [LEAF]);
    t.(groups := if entered then WithMember(groups, pid, parent + [LEAF]) else groups)
  }

  /** Leaving the service group: the leaf must be there and empty. */
  method LeaveService(io: DelegatedCgroupIo, parent: Group) returns (r: Result<(), Error>)
    modifies io
    ensures r != Err(ParentHasProcesses)
    ensures NoMove(old(io.log), io.log) || exists ok :: io.log == old(io.log) + Handover(io.pid, parent, ok)[1..]
    ensures io.quiet ==> old(io.quiet)
    ensures io.quiet && parent in old(io.tree).groups ==>
              (r.Ok? <==> NoProcesses(old(io.tree), parent + [LEAF]) && Childless(old(io.tree), parent + [LEAF]))
    ensures io.quiet && parent in old(io.tree).groups ==> io.tree == Left(old(io.tree), io.pid, parent, r.Ok?)
  {
    var control := parent + [LEAF];
    var leaf := io.EnsureControlGroup(parent);
    if leaf.None? {
      return Err(Io);
    }
    if leaf.value != control {
      return Err(ControlLeafUnsafe);
    }
    var inside := io.DirectProcesses(control);
    if inside.None? {
      return Err(Io);
    }
    if inside.value != [] {
      if io.quiet && control in io.tree.groups {
        ListedProcesses(inside.value, io.tree.groups[control], io.pid);
      }
      return Err(ControlLeafUnsafe);
    }
    var below := io.ChildGroups(control);
    if below.None? {
      return Err(Io);
    }
    if below.value != [] {
      assert below.value[0] in below.value;
      return Err(ControlLeafUnsafe);
    }
    var moved := io.MoveProcess(io.pid, control);
    assert io.log == old(io.log) + Handover(io.pid, parent, moved)[1..];
    if !moved {
      return Err(Io);
    }
    return Ok(());
  }

  /** Being in the leaf already: the service group must be empty and the leaf the daemon's alone. */
  method ConfirmControl(io: DelegatedCgroupIo, parent: Group) returns (r: Result<(), Error>)
    modifies io
    ensures r != Err(ParentHasProcesses)
    ensures OnlyReads(old(io.log), io.log) && io.tree == old(io.tree)
    ensures io.quiet ==> old(io.quiet)
    ensures io.quiet && parent + [LEAF] in io.tree.groups ==>
              (r.Ok? <==> io.tree.groups[parent + [LEAF]] == {io.pid} && Childless(io.tree, parent + [LEAF]))
  {
    var control := parent + [LEAF];
    var inside := io.DirectProcesses(control);
    if inside.None? {
      return Err(Io);
    }
    if io.quiet && control in io.tree.groups {
      ListedProcesses(inside.value, io.tree.groups[control], io.pid);
    }
    if inside.value != [io.pid] {
      return Err(ControlLeafUnsafe);
    }
    var below := io.ChildGroups(control);
    if below.None? {
      return Err(Io);
    }
    if below.value != [] {
      assert below.value[0] in below.value;
      return Err(ControlLeafUnsafe);
    }
    return Ok(());
  }

  lemma LeavingEmptiesService(t: Tree, pid: nat, parent: Group)
    requires WellFormed(t, pid) && parent in t.groups && t.groups[parent] == {pid} && NoProcesses(t, parent + [LEAF])
    ensures Left(t, pid, parent, true) == Moved(t, pid, parent)
  {
    var left, moved := Left(t, pid, parent, true).groups, Moved(t, pid, parent).groups;
    assert parent != parent + [LEAF];
    assert left.Keys == moved.Keys;
    forall g | g in left ensures left[g] == moved[g] {
    }
  }

  lemma AloneInService(t: Tree, pid: nat, parent: Group)
    requires WellFormed(t, pid) && Located(t, pid, parent)
    ensures Alone(t, pid, parent) <==> t.groups[parent] == {pid} && NoProcesses(t, parent + [LEAF])
  {
  }

  lemma AloneInControl(t: Tree, pid: nat, parent: Group)
    requires WellFormed(t, pid) && Located(t, pid, parent + [LEAF]) && parent in t.groups
    ensures Alone(t, pid, parent) <==> t.groups[parent] == {} && t.groups[parent + [LEAF]] == {pid}
    ensures Alone(t, pid, parent) ==> Moved(t, pid, parent) == t
  {
    var control := parent + [LEAF];
    if Alone(t, pid, parent) {
      assert t.groups[parent := {}] == t.groups;
      assert t.groups[control := {pid}] == t.groups;
    }
  }

  /** No process moved: at most the control leaf was created, empty. */
  ghost predicate OnlyLeafAdded(t: Tree, t': Tree, pid: nat, parent: Group) {
    t' == t || (parent in t.groups && t' == Left(t, pid, parent, false))
  }

  /** What entering the control leaf does to a quiet tree. */
  ghost predicate EntersQuietly(t: Tree, t': Tree, pid: nat, parent: Group, ok: bool) {
    && (ok <==> Alone(t, pid, parent) && Childless(t, parent + [LEAF]))
    && (ok ==> t' == Moved(t, pid, parent))
    && (!ok ==> OnlyLeafAdded(t, t', pid, parent))
  }

  /** The daemon ends up in the control leaf, by a move or because it was there. */
  method EnterControl(io: DelegatedCgroupIo, parent: Group, current: Group) returns (r: Result<(), Error>)
    requires current == parent || current == parent + [LEAF]
    modifies io
    ensures r != Err(ParentHasProcesses)
    ensures NoMove(old(io.log), io.log) || exists ok :: io.log == old(io.log) + Handover(io.pid, parent, ok)
    ensures io.quiet ==> old(io.quiet)
    ensures io.quiet && WellFormed(old(io.tree), io.pid) && Located(old(io.tree), io.pid, current) ==>
              EntersQuietly(old(io.tree), io.tree, io.pid, parent, r.Ok?)
  {
    ghost var t := io.tree;
    ghost var known := WellFormed(t, io.pid) && Located(t, io.pid, current);
    if known {
      ParentPresent(t, io.pid, parent);
    }
    var inside := io.DirectProcesses(parent);
    if inside.None? {
      return Err(Io);
    }
    if io.quiet && known {
      ListedProcesses(inside.value, t.groups[parent], io.pid);
    }
    if current == parent {
      if known {
        AloneInService(t, io.pid, parent);
      }
      if inside.value != [io.pid] {
        return Err(ParentPopulated);
      }
      ghost var before := io.log;
      r := LeaveService(io, parent);
      LogOfLeaving(old(io.log), before, io.log, io.pid, parent);
      if io.quiet && known && r.Ok? {
        LeavingEmptiesService(t, io.pid, parent);
      }
    } else {
      if known {
        AloneInControl(t, io.pid, parent);
      }
      if inside.value != [] {
        return Err(ControlLeafUnsafe);
      }
      r := ConfirmControl(io, parent);
    }
  }

  lemma LogOfLeaving(first: seq<Event>, before: seq<Event>, after: seq<Event>, pid: nat, parent: Group)
    requires before == first + [Direct(parent, Some([pid]))]
    requires NoMove(before, after) || exists ok :: after == before + Handover(pid, parent, ok)[1..]
    ensures NoMove(first, after) || exists ok :: after == first + Handover(pid, parent, ok)
  {
    if !NoMove(before, after) {
      var ok :| after == before + Handover(pid, parent, ok)[1..];
      assert after == first + Handover(pid, parent, ok);
    }
  }

  /** The daemon is alone in the control leaf, and the service group is empty. */
  ghost predicate Settled(t: Tree, pid: nat, parent: Group) {
    var control := parent + [LEAF];
    && Located(t, pid, control) && t.groups[control] == {pid}
    && parent in t.groups && t.groups[parent] == {}
    && forall g :: g in t.groups && pid in t.groups[g] ==> g == control
  }

  lemma MovedIsSettled(t: Tree, pid: nat, parent: Group)
    requires WellFormed(t, pid) && Alone(t, pid, parent)
    ensures Settled(Moved(t, pid, parent), pid, parent)
    ensures forall worker :: OnlyExpected(t, parent, worker) ==> OnlyExpected(Moved(t, pid, parent), parent, worker)
  {
    var control := parent + [LEAF];
    ParentPresent(t, pid, parent);
    if Located(t, pid, parent) {
      assert MOUNT < parent;
      ServiceOfBoth(parent);
    }
  }

  /** The four answers that end the checks: home, leaf, service group and children, in this order. */
  ghost predicate SawEmptyService(events: seq<Event>, pid: nat, parent: Group, worker: Group) {
    var control := parent + [LEAF];
    && |events| == 4
    && events[0] == Current(Some(control))
    && events[1] == Direct(control, Some([pid]))
    && events[2] == Direct(parent, Some([]))
    && ShowsExpected(events[3], parent, worker)
  }

  method VerifyMove(io: DelegatedCgroupIo, parent: Group, worker: Group) returns (r: Result<(), Error>)
    modifies io
    ensures r != Err(ParentHasProcesses)
    ensures OnlyReads(old(io.log), io.log) && io.tree == old(io.tree)
    ensures r.Ok? ==> SawEmptyService(io.log[|old(io.log)|..], io.pid, parent, worker)
    ensures io.quiet ==> old(io.quiet)
    ensures io.quiet && Settled(io.tree, io.pid, parent) && OnlyExpected(io.tree, parent, worker) ==> r.Ok?
  {
    var control := parent + [LEAF];
    var current := io.CurrentGroup();
    if current.None? {
      return Err(Io);
    }
    if current.value != control {
      return Err(VerifyFailed);
    }
    var inside := io.DirectProcesses(control);
    if inside.None? {
      return Err(Io);
    }
    if io.quiet && control in io.tree.groups {
      ListedProcesses(inside.value, io.tree.groups[control], io.pid);
    }
    if inside.value != [io.pid] {
      return Err(VerifyFailed);
    }
    var left := io.DirectProcesses(parent);
    if left.None? {
      return Err(Io);
    }
    if io.quiet && parent in io.tree.groups {
      ListedProcesses(left.value, io.tree.groups[parent], io.pid);
    }
    if left.value != [] {
      return Err(VerifyFailed);
    }
    r := ValidateChildren(io, parent, worker);
  }

  /** The wanted controllers that are offered, in the wanted order. */
  function Requested(wanted: seq<string>, offered: seq<string>): (names: seq<string>)
    ensures forall c :: c in names <==> c in wanted && c in offered
  {
    if wanted == [] then []
    else
      var rest := Requested(wanted[1..], offered);
      assert wanted == [wanted[0]] + wanted[1..];
      if wanted[0] in offered then [wanted[0]] + rest else rest
  }

  /** Asking for the wanted controllers that were offered asks for `Wanted`. */
  lemma RequestedAreWanted(t: Tree, parent: Group, offered: seq<string>, names: seq<string>)
    requires Truth(t, 0, Controllers(parent, true, offered)) && names == Requested(WANTED, offered)
    ensures After(t, Enable(parent, names, true)) == WithControllers(t)
    ensures names == [] ==> WithControllers(t) == t
  {
    var asked := set c | c in names;
    assert asked == Wanted(t);
    if names == [] {
      assert t.enabled + asked == t.enabled;
    }
  }

  /** The log grew by the calls that enabling controllers makes. */
  ghost predicate OnlyEnables(before: seq<Event>, after: seq<Event>) {
    before <= after && forall i :: |before| <= i < |after| ==>
      after[i].Controllers? || after[i].Direct? || after[i].Enable?
  }

  /** Enables the offered controllers of the worker root's parent, which must hold no process unless it is the mount. */
  method EnableParentControllers(io: DelegatedCgroupIo, parent: Group) returns (r: Result<(), Error>)
    modifies io
    ensures OnlyEnables(old(io.log), io.log)
    ensures io.quiet ==> old(io.quiet)
    ensures io.quiet && parent in old(io.tree).groups ==>
              (r.Ok? <==> parent == MOUNT || old(io.tree).groups[parent] == {})
    ensures io.quiet && parent in old(io.tree).groups ==>
              if r.Ok? then io.tree == WithControllers(old(io.tree))
                else r == Err(ParentHasProcesses) && io.tree == old(io.tree)
  {
    ghost var t := io.tree;
    var subtree, offered := io.ReadControllers(parent);
    if !subtree {
      return Ok(());
    }
    var names := Requested(WANTED, offered);
    if io.quiet {
      RequestedAreWanted(t, parent, offered, names);
    }
    if parent != MOUNT {
      var inside := io.DirectProcesses(parent);
      if inside.None? {
        return Err(Io);
      }
      if io.quiet && parent in t.groups {
        ListedProcesses(inside.value, t.groups[parent], io.pid);
      }
      if inside.value != [] {
        return Err(ParentHasProcesses);
      }
    }
    if names == [] {
      return Ok(());
    }
    var enabled := io.EnableControllers(parent, names);
    return if enabled then Ok(()) else Err(Io);
  }

  /** Creates the worker root and enables the controllers of its parent. */
  method InitializeOwnedRoot(io: DelegatedCgroupIo, parent: Group, worker: Group) returns (r: Result<(), Error>)
    modifies io
    ensures exists ok :: OnlyEnables(old(io.log) + [Create(worker, ok)], io.log)
    ensures io.quiet ==> old(io.quiet)
    ensures io.quiet && worker != parent && parent in old(io.tree).groups && old(io.tree).groups[parent] == {} ==>
              r.Ok? && io.tree == WithControllers(old(io.tree).(groups := WithGroup(old(io.tree).groups, worker)))
  {
    var created := io.CreateGroup(worker);
    assert OnlyEnables(old(io.log) + [Create(worker, created)], io.log);
    if !created {
      return Err(Io);
    }
    r := EnableParentControllers(io, parent);
  }

  // ----------------------------------------------------------- the whole protocol

  /** No more than one move: this process, into the control leaf, right after the answers that allow it. */
  ghost predicate MovesOnlySelf(before: seq<Event>, after: seq<Event>, pid: nat, parent: Group) {
    forall i :: |before| <= i < |after| && after[i].Move? ==>
      && i >= |before| + 4 && after[i - 4..i + 1] == Handover(pid, parent, after[i].ok)
      && forall j :: |before| <= j < |after| && after[j].Move? ==> j == i
  }

  /** The worker root is touched only right after the answers that show an empty service group. */
  ghost predicate InitializesVerified(before: seq<Event>, after: seq<Event>, pid: nat, parent: Group, worker: Group) {
    forall i :: |before| <= i < |after| && after[i].Create? ==>
      && after[i].at == worker && i >= |before| + 4 && SawEmptyService(after[i - 4..i], pid, parent, worker)
      && forall j :: i < j < |after| ==> !after[j].Move? && !after[j].Create?
  }

  /** Controllers are enabled only after the worker root was created. */
  ghost predicate EnablesLast(before: seq<Event>, after: seq<Event>) {
    forall i :: |before| <= i < |after| && after[i].Enable? ==> exists k :: |before| <= k < i && after[k].Create?
  }

  ghost predicate Guarded(before: seq<Event>, after: seq<Event>, pid: nat, parent: Group, worker: Group) {
    && before <= after
    && MovesOnlySelf(before, after, pid, parent)
    && InitializesVerified(before, after, pid, parent, worker)
    && EnablesLast(before, after)
  }

  ghost predicate Untouched(before: seq<Event>, after: seq<Event>) {
    before <= after && forall i :: |before| <= i < |after| ==> !after[i].Create? && !after[i].Enable?
  }

  lemma HandoverMovesLast(before: seq<Event>, after: seq<Event>, pid: nat, parent: Group, ok: bool)
    requires after == before + Handover(pid, parent, ok)
    ensures |after| == |before| + 5 && after[|before|..] == Handover(pid, parent, ok)
    ensures after[|before| + 4] == Move(pid, parent + [LEAF], ok)
    ensures NoMove(before, after[..|before| + 4])
  {
    var n := |before|;
    assert after[n].Direct? && after[n + 1].Ensure? && after[n + 2].Direct? && after[n + 3].Children?;
  }

  lemma GuardedHandover(first: seq<Event>, before: seq<Event>, after: seq<Event>, pid: nat, parent: Group,
                        worker: Group, ok: bool)
    requires OnlyReads(first, before) && after == before + Handover(pid, parent, ok)
    ensures Guarded(first, after, pid, parent, worker) && Untouched(first, after)
  {
    HandoverMovesLast(before, after, pid, parent, ok);
    var n := |before|;
    var quiet := after[..n + 4];
    forall i | |first| <= i < |after|
      ensures !after[i].Create? && !after[i].Enable? && (after[i].Move? ==> i == n + 4)
    {
      if i < n {
        assert after[i] == before[i];
      } else if i < n + 4 {
        assert after[i] == quiet[i];
      }
    }
    assert after[n..n + 5] == after[n..];
  }

  lemma GuardedMove(first: seq<Event>, before: seq<Event>, after: seq<Event>, pid: nat, parent: Group, worker: Group)
    requires OnlyReads(first, before)
    requires NoMove(before, after) || exists ok :: after == before + Handover(pid, parent, ok)
    ensures Guarded(first, after, pid, parent, worker) && Untouched(first, after)
  {
    if NoMove(before, after) {
      assert forall i :: |first| <= i < |before| ==> after[i] == before[i];
    } else {
      var ok :| after == before + Handover(pid, parent, ok);
      GuardedHandover(first, before, after, pid, parent, worker, ok);
    }
  }

  lemma GuardedReads(first: seq<Event>, before: seq<Event>, after: seq<Event>, pid: nat, parent: Group, worker: Group)
    requires Guarded(first, before, pid, parent, worker) && Untouched(first, before) && OnlyReads(before, after)
    ensures Guarded(first, after, pid, parent, worker) && Untouched(first, after)
  {
    forall i | |first| <= i < |after| && after[i].Move?
      ensures i >= |first| + 4 && after[i - 4..i + 1] == Handover(pid, parent, after[i].ok)
    {
      assert before[i].Move?;
      assert after[i - 4..i + 1] == before[i - 4..i + 1];
    }
  }

  lemma GuardedInitialization(first: seq<Event>, moved: seq<Event>, before: seq<Event>, after: seq<Event>, pid: nat,
                              parent: Group, worker: Group, ok: bool)
    requires Guarded(first, before, pid, parent, worker) && Untouched(first, before)
    requires first <= moved <= before && SawEmptyService(before[|moved|..], pid, parent, worker)
    requires OnlyEnables(before + [Create(worker, ok)], after)
    ensures Guarded(first, after, pid, parent, worker)
  {
    var n := |before|;
    assert after[n] == Create(worker, ok);
    assert after[n - 4..n] == before[|moved|..];
    forall i | |first| <= i < |after| && after[i].Move?
      ensures i < n && i >= |first| + 4 && after[i - 4..i + 1] == Handover(pid, parent, after[i].ok)
    {
      assert before[i].Move?;
      assert after[i - 4..i + 1] == before[i - 4..i + 1];
    }
  }

  /** The service group and worker root a configured path names, when it is a safe absolute child. */
  function Target(path: Path): Option<(Group, Group)> {
    var n := |path.parts|;
    if !path.absolute || n == 0 || exists i :: 0 <= i < n && !path.parts[i].Named? then None
    else if !SafeSegment(path.parts[n - 1].name) then None
    else
      var worker := seq(n, i requires 0 <= i < n => path.parts[i].name);
      Some((worker[..n - 1], worker))
  }

  /** What the move does to a quiet tree. */
  ghost predicate PreparesQuietly(t: Tree, t': Tree, pid: nat, parent: Group, worker: Group, ok: bool) {
    && (ok <==> Admissible(t, pid, parent, worker))
    && (ok ==> t' == Prepared(t, pid, parent, worker))
    && (!ok ==> OnlyLeafAdded(t, t', pid, parent))
  }

  method PrepareGroups(io: DelegatedCgroupIo, parent: Group, worker: Group) returns (r: Result<(), Error>)
    requires io.pid != 0 && IsChild(worker, parent)
    modifies io
    ensures Guarded(old(io.log), io.log, io.pid, parent, worker)
    ensures io.quiet ==> old(io.quiet)
    ensures io.quiet && WellFormed(old(io.tree), io.pid) ==>
              PreparesQuietly(old(io.tree), io.tree, io.pid, parent, worker, r.Ok?)
    ensures io.quiet && WellFormed(old(io.tree), io.pid) ==> r != Err(ParentHasProcesses)
  {
    ghost var t := io.tree;
    var current := CheckService(io, parent, worker);
    if current.Err? {
      return Err(current.error);
    }
    ghost var checked := io.log;
    r := EnterControl(io, parent, current.value);
    GuardedMove(old(io.log), checked, io.log, io.pid, parent, worker);
    if r.Err? {
      return;
    }
    ghost var expected := io.quiet && WellFormed(t, io.pid);
    if expected {
      MovedIsSettled(t, io.pid, parent);
    }
    ghost var entered := io.log;
    r := VerifyMove(io, parent, worker);
    GuardedReads(old(io.log), entered, io.log, io.pid, parent, worker);
    if r.Err? {
      return;
    }
    ghost var verified := io.log;
    r := InitializeOwnedRoot(io, parent, worker);
    ghost var ok :| OnlyEnables(verified + [Create(worker, ok)], io.log);
    GuardedInitialization(old(io.log), entered, verified, io.log, io.pid, parent, worker, ok);
  }

  /**
   The delegated start, for every answer of the environment.  A bad path, a zero
   pid or development mode ends it before the first call.
   */
  method InitializeDelegatedOwnedRoot(io: DelegatedCgroupIo, root: Path, devMode: bool) returns (r: Result<(), Error>)
    modifies io
    ensures io.quiet ==> old(io.quiet)
    ensures devMode ==> r == Err(DevModeForbidden) && io.log == old(io.log)
    ensures !devMode && Target(root).None? ==> r == Err(PathInvalid) && io.log == old(io.log)
    ensures !devMode && Target(root).Some? && io.pid == 0 ==> r == Err(PidInvalid) && io.log == old(io.log)
    ensures !devMode && Target(root).Some? ==>
              Guarded(old(io.log), io.log, io.pid, Target(root).value.0, Target(root).value.1)
    ensures !devMode && Target(root).Some? && io.quiet && WellFormed(old(io.tree), io.pid) ==>
              PreparesQuietly(old(io.tree), io.tree, io.pid, Target(root).value.0, Target(root).value.1, r.Ok?)
    ensures io.quiet && WellFormed(old(io.tree), io.pid) ==> r != Err(ParentHasProcesses)
  {
    if devMode {
      return Err(DevModeForbidden);
    }
    var target := Target(root);
    if target.None? {
      return Err(PathInvalid);
    }
    if io.pid == 0 {
      return Err(PidInvalid);
    }
    r := PrepareGroups(io, target.value.0, target.value.1);
  }

  // ------------------------------------------------------------- starting again

  /**
   Running the move again changes nothing, and succeeds exactly when the worker root is
   not itself the control leaf.
   */
  lemma RerunIsIdle(t: Tree, pid: nat, parent: Group, worker: Group)
    requires WellFormed(t, pid) && Admissible(t, pid, parent, worker) && IsChild(worker, parent)
    ensures var t' := Prepared(t, pid, parent, worker);
            && (Admissible(t', pid, parent, worker) <==> worker != parent + [LEAF])
            && (worker != parent + [LEAF] ==> Prepared(t', pid, parent, worker) == t')
  {
    var control := parent + [LEAF];
    var t' := Prepared(t, pid, parent, worker);
    MovedIsSettled(t, pid, parent);
    ParentPresent(t, pid, parent);
    assert worker != parent && control != parent;
    assert t'.groups[control] == {pid} && t'.groups[parent] == {};
    assert !IsChild(worker, control) && !IsChild(control, control) && !IsChild(parent, control);
    assert Located(t', pid, control);
    if worker != control {
      assert t'.groups[parent := {}][control := {pid}] == t'.groups;
      assert t'.enabled + Wanted(t') == t'.enabled;
    }
  }

  lemma PreparedIsWellFormed(t: Tree, pid: nat, parent: Group, worker: Group)
    requires WellFormed(t, pid) && Admissible(t, pid, parent, worker) && IsChild(worker, parent)
    ensures WellFormed(Prepared(t, pid, parent, worker), pid)
  {
    var control := parent + [LEAF];
    var t' := Prepared(t, pid, parent, worker);
    ParentPresent(t, pid, parent);
    assert ParentOf(control) == parent;
    ChildIsRooted(t.groups.Keys, control);
    ChildIsRooted(t.groups.Keys + {control}, worker);
    assert t'.groups.Keys == t.groups.Keys + {control} + {worker};
    PreparedHome(t, pid, parent, worker);
  }

  lemma PreparedHome(t: Tree, pid: nat, parent: Group, worker: Group)
    requires WellFormed(t, pid) && Alone(t, pid, parent)
    ensures var t' := Prepared(t, pid, parent, worker);
            forall g :: g in t'.groups ==> (pid in t'.groups[g] <==> g == parent + [LEAF])
  {
    MovedIsSettled(t, pid, parent);
  }

  /** A refused move is refused again: the leaf it may have created does not help. */
  lemma RefusalRepeats(t: Tree, t': Tree, pid: nat, parent: Group, worker: Group)
    requires WellFormed(t, pid) && !Admissible(t, pid, parent, worker) && OnlyLeafAdded(t, t', pid, parent)
    ensures WellFormed(t', pid) && !Admissible(t', pid, parent, worker)
  {
    var control := parent + [LEAF];
    if t' != t {
      assert ParentOf(control) == parent;
      ChildIsRooted(t.groups.Keys, control);
      assert t'.groups.Keys == t.groups.Keys + {control};
      assert control !in t.groups && t'.groups[control] == {};
      assert forall g :: g in t.groups ==> t'.groups[g] == t.groups[g];
    }
  }

  /**
   Two starts of one daemon.  Nothing else being at work, the second succeeds exactly
   when the first did and the worker root is not itself the control leaf, and leaves
   what the first left.
   */
  method StartTwice(io: DelegatedCgroupIo, root: Path) returns (first: Result<(), Error>, second: Result<(), Error>)
    requires Target(root).Some?
    modifies io
    ensures io.quiet && WellFormed(old(io.tree), io.pid) ==>
              var (parent, worker) := Target(root).value;
              && (first.Ok? <==> Admissible(old(io.tree), io.pid, parent, worker))
              && (second.Ok? <==> first.Ok? && worker != parent + [LEAF])
              && (second.Ok? ==> io.tree == Prepared(old(io.tree), io.pid, parent, worker))
  {
    ghost var t := io.tree;
    ghost var (parent, worker) := Target(root).value;
    first := InitializeDelegatedOwnedRoot(io, root, false);
    if WellFormed(t, io.pid) && io.quiet {
      if first.Ok? {
        RerunIsIdle(t, io.pid, parent, worker);
        PreparedIsWellFormed(t, io.pid, parent, worker);
      } else {
        RefusalRepeats(t, io.tree, io.pid, parent, worker);
      }
    }
    second := InitializeDelegatedOwnedRoot(io, root, false);
  }

  /** The daemon in the control leaf exits, and its successor starts in the service group. */
  ghost function Restarted(t: Tree, next: nat, parent: Group): Tree {
    t.(groups := t.groups[parent + [LEAF] := {}][parent := {next}])
  }

  /** No process but the daemon itself has this pid. */
  ghost predicate Unused(t: Tree, pid: nat, next: nat) {
    forall g :: g in t.groups && next in t.groups[g] ==> next == pid
  }

  lemma RestartedIsWellFormed(t: Tree, pid: nat, next: nat, parent: Group, worker: Group)
    requires WellFormed(t, pid) && Admissible(t, pid, parent, worker) && IsChild(worker, parent) && Unused(t, pid, next)
    ensures WellFormed(Restarted(Prepared(t, pid, parent, worker), next, parent), next)
  {
    var control := parent + [LEAF];
    var t' := Prepared(t, pid, parent, worker);
    PreparedIsWellFormed(t, pid, parent, worker);
    var restarted := Restarted(t', next, parent);
    assert parent != control && t'.groups[control] == {pid};
    assert restarted.groups.Keys == t'.groups.Keys && restarted.groups[parent] == {next};
    forall g | g in restarted.groups && g != parent ensures next !in restarted.groups[g] {
      assert g != control && g != worker ==> restarted.groups[g] == t.groups[g];
    }
  }

  lemma PreparedChildren(t: Tree, pid: nat, parent: Group, worker: Group)
    requires WellFormed(t, pid) && Admissible(t, pid, parent, worker) && IsChild(worker, parent)
    ensures var t' := Prepared(t, pid, parent, worker);
            && {parent, parent + [LEAF], worker} <= t'.groups.Keys
            && OnlyExpected(t', parent, worker) && Childless(t', parent + [LEAF])
            && (worker != parent + [LEAF] ==> t'.groups[worker] == {})
  {
    var control := parent + [LEAF];
    ParentPresent(t, pid, parent);
    assert worker != parent;
    assert !IsChild(worker, control) && !IsChild(control, control) && !IsChild(parent, control);
  }

  /** The group of a prepared service is a service group unless it is itself a leaf right under the mount. */
  lemma PreparedService(t: Tree, pid: nat, parent: Group)
    requires WellFormed(t, pid) && Alone(t, pid, parent)
    ensures MOUNT < parent && (ServiceOf(parent).Ok? <==> parent != MOUNT + [LEAF])
  {
    ParentPresent(t, pid, parent);
    assert parent != [] && parent == ParentOf(parent) + [parent[|parent| - 1]];
  }

  /** The restarted service is admissible exactly when its group can be told as a service group. */
  lemma RestartPrepares(t: Tree, pid: nat, next: nat, parent: Group, worker: Group)
    requires WellFormed(t, pid) && Admissible(t, pid, parent, worker) && IsChild(worker, parent)
    ensures Admissible(Restarted(Prepared(t, pid, parent, worker), next, parent), next, parent, worker) <==>
            next != 0 && parent != MOUNT + [LEAF]
  {
    var control := parent + [LEAF];
    var t' := Prepared(t, pid, parent, worker);
    var restarted := Restarted(t', next, parent);
    PreparedService(t, pid, parent);
    PreparedChildren(t, pid, parent, worker);
    assert control != parent && restarted.groups.Keys == t'.groups.Keys;
    assert restarted.groups[parent] == {next} && restarted.groups[control] == {};
    assert NoProcesses(restarted, worker);
  }

  /** Preparing it again leaves the first tree with the successor in the daemon's place. */
  lemma RestartReplaces(t: Tree, pid: nat, next: nat, parent: Group, worker: Group)
    requires parent in t.groups && worker != parent
    ensures var t' := Prepared(t, pid, parent, worker);
            Prepared(Restarted(t', next, parent), next, parent, worker) == Replaced(t', next, parent)
  {
    var control := parent + [LEAF];
    var t' := Prepared(t, pid, parent, worker);
    var restarted := Restarted(t', next, parent);
    var replaced := t'.groups[control := {next}];
    assert control != parent && t'.groups[parent] == {};
    assert restarted.groups[parent := {}][control := {next}] == replaced;
    assert WithGroup(replaced, worker) == replaced;
    assert t'.enabled + Wanted(t') == t'.enabled;
    assert Wanted(restarted) == Wanted(t');
  }

  ghost function Replaced(t: Tree, next: nat, parent: Group): Tree {
    t.(groups := t.groups[parent + [LEAF] := {next}])
  }

  /**
   A start, the daemon's exit, and the start of its successor.  When the first start
   succeeded the second one does exactly when the service group is not named like a
   control leaf right under the mount, and leaves the same tree with the successor in
   the daemon's place.
   */
  method StartAfterExit(io: DelegatedCgroupIo, root: Path, next: nat)
    returns (first: Result<(), Error>, second: Result<(), Error>, successor: DelegatedCgroupIo)
    requires Target(root).Some?
    modifies io
    ensures fresh(successor) && successor.pid == next
    ensures io.quiet && successor.quiet && WellFormed(old(io.tree), io.pid) && Unused(old(io.tree), io.pid, next) &&
              first.Ok? ==>
              var (parent, worker) := Target(root).value;
              var t' := Prepared(old(io.tree), io.pid, parent, worker);
              && (second.Ok? <==> next != 0 && parent != MOUNT + [LEAF])
              && (second.Ok? ==> successor.tree == Replaced(t', next, parent))
  {
    ghost var t := io.tree;
    ghost var (parent, worker) := Target(root).value;
    first := InitializeDelegatedOwnedRoot(io, root, false);
    successor := new DelegatedCgroupIo(next, Restarted(io.tree, next, parent));
    if io.quiet && WellFormed(t, io.pid) && Unused(t, io.pid, next) && first.Ok? {
      ParentPresent(t, io.pid, parent);
      RestartPrepares(t, io.pid, next, parent, worker);
      RestartReplaces(t, io.pid, next, parent, worker);
      RestartedIsWellFormed(t, io.pid, next, parent, worker);
    }
    second := InitializeDelegatedOwnedRoot(successor, root, false);
  }
}
