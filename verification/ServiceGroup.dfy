/**
 Which cgroup belongs to the daemon: the service group is read from the daemon's
 own `/proc/self/cgroup` membership, whether the daemon still runs in it or has
 already moved into its control leaf.
 */
module ServiceGroup {
  import opened Results
  import opened Paths

  /** A cgroup directory, as the path segments below the filesystem root. */
  type Group = seq<string>

  const MOUNT: Group := ["sys", "fs", "cgroup"]
  const LEAF := "sandboxd-control"

  datatype MembershipError = NotMounted | MembershipInvalid | RootNotOwned

  /** Path components: empty and `.` pieces do not count. */
  function Kept(pieces: seq<string>): (kept: seq<string>)
    ensures forall p :: p in kept <==> p in pieces && p != "" && p != "."
  {
    if pieces == [] then []
    else
      var rest := Kept(pieces[1..]);
      assert pieces == [pieces[0]] + pieces[1..];
      if pieces[0] == "" || pieces[0] == "." then rest else [pieces[0]] + rest
  }

  function Segments(text: string): Group { Kept(Split(text)) }

  predicate SafeAbsolute(text: string) {
    text != "" && text[0] == '/' && ".." !in Segments(text)
  }

  predicate SafeSegment(name: string) {
    name != "" && forall c :: c in name ==>
      'a' <= c <= 'z' || 'A' <= c <= 'Z' || '0' <= c <= '9' || c == '-' || c == '_'
  }

  /** The lines of the unified hierarchy, without their `0::` prefix. */
  function Unified(lines: seq<string>): seq<string> {
    if lines == [] then []
    else
      var rest := Unified(lines[1..]);
      if "0::" <= lines[0] then [lines[0][3..]] + rest else rest
  }

  /** The service group of a process whose own group is `current`. */
  function ServiceOf(current: Group): (r: Result<Group, MembershipError>)
    requires MOUNT <= current
    ensures r.Ok? ==> MOUNT < r.value && (current == r.value || current == r.value + [LEAF])
  {
    var last := current[|current| - 1];
    var service := if last == LEAF then current[..|current| - 1] else current;
    assert last == LEAF ==> |current| > |MOUNT| by { assert MOUNT[2] == current[2]; }
    if service == MOUNT then Err(RootNotOwned) else Ok(service)
  }

  /** Service group and current group of a membership file. */
  function DelegatedGroupPaths(lines: seq<string>): (r: Result<(Group, Group), MembershipError>)
    ensures r.Ok? ==> MOUNT < r.value.0 && ".." !in r.value.0
    ensures r.Ok? ==> r.value.1 == r.value.0 || r.value.1 == r.value.0 + [LEAF]
  {
    var unified := Unified(lines);
    if unified == [] then Err(NotMounted)
    else if |unified| > 1 || !SafeAbsolute(unified[0]) then Err(MembershipInvalid)
    else
      var current := MOUNT + Segments(unified[0]);
      match ServiceOf(current)
      case Err(e) => Err(e)
      case Ok(service) => Ok((service, current))
  }

  /** The default worker root: a safely named child of the service group. */
  function DelegatedRoot(child: string, lines: seq<string>): (r: Result<Group, MembershipError>)
    ensures r.Ok? ==> |r.value| > |MOUNT| + 1 && MOUNT < r.value && SafeSegment(r.value[|r.value| - 1])
    ensures r.Ok? ==> DelegatedGroupPaths(lines).Ok? && r.value[..|r.value| - 1] == DelegatedGroupPaths(lines).value.0
  {
    if !SafeSegment(child) then Err(RootNotOwned)
    else
      match DelegatedGroupPaths(lines)
      case Err(e) => Err(e)
      case Ok(paths) => Ok(paths.0 + [child])
  }

  /** The segments of a group as the kernel names it: no separators and no dot segments. */
  predicate Plain(below: Group) {
    forall s :: s in below ==> s != "" && s != "." && s != ".." && '/' !in s
  }

  function MembershipLine(below: Group): string { "0::/" + Join(below) }

  lemma {:induction false} PlainIsKept(below: Group)
    requires Plain(below)
    ensures Kept(below) == below
  {
    if below != [] {
      assert below[0] in below;
      assert forall s :: s in below[1..] ==> s in below;
      PlainIsKept(below[1..]);
    }
  }

  /** Reading back the kernel's membership line gives the group it names. */
  lemma SegmentsOfLine(below: Group)
    requires Plain(below)
    ensures Segments("/" + Join(below)) == below
  {
    var text := "/" + Join(below);
    assert text[1..] == Join(below);
    assert Split(text) == [""] + Split(Join(below));
    if below == [] {
      assert Split(text) == ["", ""];
      assert Kept(["", ""][1..]) == [];
    } else {
      SplitInvertsJoin(below);
      assert ([""] + below)[1..] == below;
      PlainIsKept(below);
    }
  }

  /** A one-line membership of a plain group is decided by that group alone. */
  lemma MembershipRoundTrip(below: Group)
    requires Plain(below)
    ensures var r, service := DelegatedGroupPaths([MembershipLine(below)]), ServiceOf(MOUNT + below);
            if service.Ok? then r == Ok((service.value, MOUNT + below)) else r == Err(service.error)
  {
    SegmentsOfLine(below);
    var line := MembershipLine(below);
    assert line[3..] == "/" + Join(below);
    assert Unified([line]) == [line[3..]] by { assert Unified([line][1..]) == []; assert "0::" <= line; }
    assert SafeAbsolute(line[3..]);
  }

  lemma ServiceOfBoth(service: Group)
    requires MOUNT < service
    ensures MOUNT <= service + [LEAF] && ServiceOf(service + [LEAF]) == Ok(service)
    ensures ServiceOf(service) == Ok(service) <==> service[|service| - 1] != LEAF
  {
    var moved := service + [LEAF];
    assert moved[|moved| - 1] == LEAF;
    assert moved[..|moved| - 1] == service;
  }

  /**
   A daemon resolves the same service group before and after moving into the
   control leaf, exactly when the service group's own name is not the leaf's.
   */
  lemma ServiceSurvivesMove(below: Group)
    requires Plain(below) && below != []
    ensures DelegatedGroupPaths([MembershipLine(below + [LEAF])]) == Ok((MOUNT + below, MOUNT + below + [LEAF]))
    ensures DelegatedGroupPaths([MembershipLine(below)]) == Ok((MOUNT + below, MOUNT + below)) <==>
              below[|below| - 1] != LEAF
  {
    var service := MOUNT + below;
    assert service[|service| - 1] == below[|below| - 1];
    ServiceOfBoth(service);
    MembershipRoundTrip(below);
    assert MOUNT + (below + [LEAF]) == service + [LEAF];
    MembershipRoundTrip(below + [LEAF]);
  }
}
