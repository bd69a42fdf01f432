/**
 The local runtime supervisor: starting the four components in order, rolling a
 failed start back, and taking the runtime down.  Sockets belong to a component by
 inode identity, and a record file names the processes the supervisor answers for.
 */
module LocalRuntime {
  import opened Results
  import opened OrderedStop

  datatype Endpoint = SystemSock | NvidiaSock | SandboxdSock | KernelSock | WorkerSock | ProviderSock

  const ENDPOINTS := [SystemSock, NvidiaSock, SandboxdSock, KernelSock, WorkerSock, ProviderSock]

  /** The place of an endpoint in the order of inspection. */
  function Place(e: Endpoint): (i: nat)
    ensures i < |ENDPOINTS| && ENDPOINTS[i] == e
  {
    match e
    case SystemSock => 0
    case NvidiaSock => 1
    case SandboxdSock => 2
    case KernelSock => 3
    case WorkerSock => 4
    case ProviderSock => 5
  }

  const ALL := {SystemAdapter, NvidiaAdapter, Sandboxd, Kernel}

  function Owner(e: Endpoint): Component {
    match e
    case SystemSock => SystemAdapter
    case NvidiaSock => NvidiaAdapter
    case SandboxdSock => Sandboxd
    case _ => Kernel
  }

  /** The first endpoint of a component, which its record names. */
  function Main(c: Component): Endpoint {
    match c
    case SystemAdapter => SystemSock
    case NvidiaAdapter => NvidiaSock
    case Sandboxd => SandboxdSock
    case Kernel => KernelSock
  }

  type Identity = nat

  /** A record of the process table file, without the process identity itself. */
  datatype Record = Record(socket: Endpoint, owned: map<Endpoint, Identity>)

  type Records = map<Component, Record>

  datatype Error =
    | AlreadyRunning | OwnershipUnknown | StateInvalid | CleanupFailed
    | StartFailed | IdentityLost | StopFailed | WriteFailed

  predicate WellFormed(c: Component, record: Record) {
    record.socket == Main(c) && forall e :: e in record.owned ==> Owner(e) == c
  }

  predicate AllWellFormed(records: Records) { forall c :: c in records ==> WellFormed(c, records[c]) }

  function LookedUp(sockets: map<Endpoint, Identity>, e: Endpoint): Option<Identity> {
    if e in sockets then Some(sockets[e]) else None
  }

  /** The identity that the records give an endpoint. */
  function Expected(records: Records, e: Endpoint): Option<Identity> {
    if Owner(e) in records && e in records[Owner(e)].owned then Some(records[Owner(e)].owned[e]) else None
  }

  /** Sockets were removed only where their identity is the recorded one; the rest are as before. */
  ghost predicate OnlyOwnedRemoved(records: Records, before: map<Endpoint, Identity>, after: map<Endpoint, Identity>) {
    && (forall e :: e in after ==> e in before && after[e] == before[e])
    && (forall e :: e in before && e !in after ==> Expected(records, e) == Some(before[e]))
  }

  /** Records completed by captured identities: nothing recorded changes, and only live owners gain sockets. */
  ghost predicate Captured(records: Records, sockets: map<Endpoint, Identity>, alive: set<Component>, captured: Records)
  {
    && captured.Keys == records.Keys && AllWellFormed(captured)
    && Keeps(records, captured)
    && (forall e :: Expected(records, e).None? && Expected(captured, e).Some? ==>
          Owner(e) in alive && e in sockets && Expected(captured, e) == Some(sockets[e]))
  }

  /** Every socket of the component has its recorded identity. */
  ghost predicate Confirmed(records: Records, sockets: map<Endpoint, Identity>, c: Component) {
    forall e :: Owner(e) == c && e in sockets ==> Expected(records, e) == Some(sockets[e])
  }

  /** Further looks were at endpoints of the component only. */
  ghost predicate LookedFurther(before: map<Endpoint, Identity>, after: map<Endpoint, Identity>, c: Component) {
    && (forall e :: e in before ==> e in after && after[e] == before[e])
    && (forall e :: e in after && e !in before ==> Owner(e) == c)
  }

  /** Further looks showed what is there. */
  ghost predicate LooksTrue(before: map<Endpoint, Identity>, after: map<Endpoint, Identity>,
                            sockets: map<Endpoint, Identity>)
  {
    forall e :: e in after && e !in before ==> e in sockets && after[e] == sockets[e]
  }

  lemma LookKeepsCaptured(records: Records, looked: map<Endpoint, Identity>, alive: set<Component>, captured: Records,
                          e: Endpoint, identity: Identity)
    requires Captured(records, looked, alive, captured) && e !in looked
    ensures Captured(records, looked[e := identity], alive, captured)
  {
  }

  lemma ConfirmedStays(before: Records, after: Records, looked: map<Endpoint, Identity>,
                       looked': map<Endpoint, Identity>, c: Component, d: Component)
    requires Keeps(before, after) && LookedFurther(looked, looked', c) && c != d && Confirmed(before, looked, d)
    ensures Confirmed(after, looked', d)
  {
  }

  lemma PlaceOf(i: nat)
    requires i < |ENDPOINTS|
    ensures Place(ENDPOINTS[i]) == i
  {
  }

  lemma KeepsFurther(before: Records, middle: Records, after: Records)
    requires Keeps(before, middle) && Keeps(middle, after)
    ensures Keeps(before, after)
  {
  }

  /** The component's sockets at the first `n` places are looked at, and those present are confirmed. */
  ghost predicate Capturing(before: Records, after: Records, looked: map<Endpoint, Identity>,
                            looked': map<Endpoint, Identity>, c: Component, n: nat)
  {
    && Keeps(before, after) && LookedFurther(looked, looked', c) && Confirmed(after, looked', c)
    && forall e :: e in looked' && Owner(e) == c ==> Place(e) < n
  }

  ghost predicate LookedAll(looked: map<Endpoint, Identity>, looked': map<Endpoint, Identity>,
                            sockets: map<Endpoint, Identity>, c: Component, n: nat)
  {
    LooksTrue(looked, looked', sockets) && forall e :: Place(e) < n && Owner(e) == c && e in sockets ==> e in looked'
  }

  lemma SamePlace(e: Endpoint, f: Endpoint)
    requires Place(e) == Place(f)
    ensures e == f
  {
    assert ENDPOINTS[Place(e)] == e && ENDPOINTS[Place(f)] == f;
  }

  lemma OneMoreCaptured(captured: Records, before: Records, after: Records, looked: map<Endpoint, Identity>,
                        looked': map<Endpoint, Identity>, c: Component, e: Endpoint, identity: Identity)
    requires Capturing(captured, before, looked, looked', c, Place(e)) && Owner(e) == c && e !in looked
    requires Keeps(before, after) && Expected(after, e) == Some(identity)
    ensures Capturing(captured, after, looked, looked'[e := identity], c, Place(e) + 1)
  {
    KeepsFurther(captured, before, after);
  }

  lemma LookFurther(looked: map<Endpoint, Identity>, looked': map<Endpoint, Identity>, sockets: map<Endpoint, Identity>,
                    c: Component, e: Endpoint, identity: Identity)
    requires LookedFurther(looked, looked', c) && Owner(e) == c && e !in looked
    ensures LookedFurther(looked, looked'[e := identity], c)
    ensures LookedAll(looked, looked', sockets, c, Place(e)) && LookedUp(sockets, e) == Some(identity) ==>
              LookedAll(looked, looked'[e := identity], sockets, c, Place(e) + 1)
  {
    forall f | Place(f) < Place(e) + 1 && f != e ensures Place(f) < Place(e) {
      if Place(f) == Place(e) {
        SamePlace(e, f);
      }
    }
  }

  lemma NoneToCapture(captured: Records, result: Records, looked: map<Endpoint, Identity>,
                      looked': map<Endpoint, Identity>, sockets: map<Endpoint, Identity>, c: Component, e: Endpoint)
    requires Capturing(captured, result, looked, looked', c, Place(e)) && !(Owner(e) == c && e in sockets)
    ensures Capturing(captured, result, looked, looked', c, Place(e) + 1)
    ensures LookedAll(looked, looked', sockets, c, Place(e)) ==> LookedAll(looked, looked', sockets, c, Place(e) + 1)
  {
    forall f | Place(f) < Place(e) + 1 && f != e ensures Place(f) < Place(e) {
      if Place(f) == Place(e) {
        SamePlace(e, f);
      }
    }
  }

  ghost predicate Keeps(before: Records, after: Records) {
    forall e :: Expected(before, e).Some? ==> Expected(after, e) == Expected(before, e)
  }

  function Own(records: Records, e: Endpoint, identity: Identity): Records
    requires Owner(e) in records
  {
    var record := records[Owner(e)];
    records[Owner(e) := record.(owned := record.owned[e := identity])]
  }

  lemma ExpectedAfterOwn(records: Records, e: Endpoint, identity: Identity)
    requires Owner(e) in records
    ensures Own(records, e, identity).Keys == records.Keys
    ensures forall f :: Expected(Own(records, e, identity), f) ==
              if f == e then Some(identity) else Expected(records, f)
  {
    forall f ensures Expected(Own(records, e, identity), f) == if f == e then Some(identity) else Expected(records, f) {
      if Owner(f) != Owner(e) {
        assert f != e;
      }
    }
  }

  lemma OwnKeepsCaptured(records: Records, sockets: map<Endpoint, Identity>, alive: set<Component>, captured: Records,
                         e: Endpoint)
    requires Captured(records, sockets, alive, captured) && Owner(e) in captured && Owner(e) in alive
    requires e in sockets && Expected(captured, e).None?
    ensures Captured(records, sockets, alive, Own(captured, e, sockets[e]))
    ensures Keeps(captured, Own(captured, e, sockets[e])) &&
              Expected(Own(captured, e, sockets[e]), e) == Some(sockets[e])
  {
    ExpectedAfterOwn(captured, e, sockets[e]);
    assert Expected(records, e).None?;
    var owned := Own(captured, e, sockets[e]);
    forall c | c in owned ensures WellFormed(c, owned[c]) {
      assert WellFormed(c, captured[c]);
    }
  }

  /**
   How a failed start ended: refused because the runtime is running, refused because
   the last runtime's remains could not be cleared, cleaned up, with the records kept,
   or unable to write the records.
   */
  datatype Ending = Running | Uncleared | Clean | Kept | Lost

  /** The observed identities belong to the component's endpoints and are all that was seen there. */
  ghost predicate Observes(c: Component, observed: map<Endpoint, Identity>, seen: seq<(Endpoint, Identity)>) {
    && (forall e :: e in observed ==> Owner(e) == c && (e, observed[e]) in seen)
    && (forall x :: x in seen ==> x.0 in observed && observed[x.0] == x.1)
  }

  /** The component that was started last. */
  ghost predicate StartedLast(c: Component, started: set<Component>) {
    c in started && forall d :: d in started ==> Rank(d) <= Rank(c)
  }

  /** Endpoints were unlinked only after a look that showed the recorded identity. */
  ghost predicate LooksFirst(records: Records, seen: map<Endpoint, Option<Identity>>,
                             removed: map<Endpoint, Identity>)
  {
    forall e :: e in removed ==> e in seen && seen[e].Some? && seen[e] == Expected(records, e)
  }

  /** The endpoints at the first `n` places were found absent, or with their recorded identity. */
  ghost predicate Inspected(records: Records, names: set<Component>, seen: map<Endpoint, Option<Identity>>, n: nat) {
    && (forall e :: e in seen ==> Owner(e) in names && Place(e) < n)
    && (forall e :: Place(e) < n && Owner(e) in names ==>
          e in seen && (seen[e].None? || seen[e] == Expected(records, e)))
  }

  /** With nobody else at work: what was seen was there, and nothing is left at the first `n` places. */
  ghost predicate RemovedUpTo(records: Records, names: set<Component>, first: map<Endpoint, Identity>,
                              sockets: map<Endpoint, Identity>, seen: map<Endpoint, Option<Identity>>, n: nat)
  {
    && OnlyOwnedRemoved(records, first, sockets)
    && (forall e :: e in seen ==> seen[e] == LookedUp(first, e))
    && (forall e :: Place(e) < n && Owner(e) in names ==> e !in sockets)
    && (forall e :: Place(e) >= n ==> LookedUp(sockets, e) == LookedUp(first, e))
  }

  lemma InspectedOne(records: Records, names: set<Component>, seen: map<Endpoint, Option<Identity>>, e: Endpoint,
                     look: Option<Identity>)
    requires Inspected(records, names, seen, Place(e)) && Owner(e) in names
    requires look.None? || look == Expected(records, e)
    ensures Inspected(records, names, seen[e := look], Place(e) + 1)
  {
    forall f | Place(f) == Place(e) ensures f == e {
      SamePlace(e, f);
    }
  }

  lemma InspectedSkip(records: Records, names: set<Component>, seen: map<Endpoint, Option<Identity>>, e: Endpoint)
    requires Inspected(records, names, seen, Place(e)) && Owner(e) !in names
    ensures Inspected(records, names, seen, Place(e) + 1)
  {
    forall f | Place(f) == Place(e) ensures f == e {
      SamePlace(e, f);
    }
  }

  lemma RemovedOne(records: Records, names: set<Component>, first: map<Endpoint, Identity>,
                   sockets: map<Endpoint, Identity>, seen: map<Endpoint, Option<Identity>>, e: Endpoint)
    requires RemovedUpTo(records, names, first, sockets, seen, Place(e))
    ensures LookedUp(sockets, e) == LookedUp(first, e)
    ensures RemovedUpTo(records, names, first, sockets, seen[e := LookedUp(sockets, e)], Place(e))
  {
  }

  lemma RemovedGone(records: Records, names: set<Component>, first: map<Endpoint, Identity>,
                    before: map<Endpoint, Identity>, after: map<Endpoint, Identity>,
                    seen: map<Endpoint, Option<Identity>>, e: Endpoint)
    requires RemovedUpTo(records, names, first, before, seen, Place(e)) && e !in after
    requires after == before || (after == before - {e} && LookedUp(before, e) == Expected(records, e))
    ensures RemovedUpTo(records, names, first, after, seen, Place(e) + 1)
  {
    assert LookedUp(before, e) == LookedUp(first, e);
    forall f | Place(f) == Place(e) ensures f == e {
      SamePlace(e, f);
    }
    forall f | f != e ensures LookedUp(after, f) == LookedUp(before, f) {
    }
  }

  lemma RemovedSkip(records: Records, names: set<Component>, first: map<Endpoint, Identity>,
                    sockets: map<Endpoint, Identity>, seen: map<Endpoint, Option<Identity>>, e: Endpoint)
    requires RemovedUpTo(records, names, first, sockets, seen, Place(e)) && Owner(e) !in names
    ensures RemovedUpTo(records, names, first, sockets, seen, Place(e) + 1)
  {
    forall f | Place(f) == Place(e) ensures f == e {
      SamePlace(e, f);
    }
  }

  /** A look showed a socket that is not the recorded one. */
  ghost predicate SawForeign(records: Records, seen: map<Endpoint, Option<Identity>>) {
    exists e :: e in seen && seen[e].Some? && seen[e] != Expected(records, e)
  }

  /**
   `still` says that nobody binds or removes a socket while the supervisor removes
   sockets or captures their identities.
   */
  class Supervisor {
    const host: Host
    const still: bool
    var sockets: map<Endpoint, Identity>
    var file: Records
    ghost var started: set<Component>

    constructor (host: Host, still: bool, sockets: map<Endpoint, Identity>, file: Records)
      ensures this.host == host && this.still == still
      ensures this.sockets == sockets && this.file == file && started == {}
    {
      this.host := host;
      this.still := still;
      this.sockets := sockets;
      this.file := file;
      started := {};
    }

    /** Components bind and remove their sockets as they like. */
    method Activity()
      modifies this`sockets
    {
      sockets := *;
    }

    /** The same between two looks of the supervisor. */
    method Meanwhile()
      modifies this`sockets
      ensures still ==> sockets == old(sockets)
    {
      if !still {
        Activity();
      }
    }

    /** Replaces the record file; a failure may come before or after the replacement. */
    method Write(records: Records) returns (ok: bool)
      modifies this`file
      ensures ok ==> file == records
      ensures !ok ==> file == records || file == old(file)
    {
      ok := *;
      var replaced: bool := *;
      if ok || replaced {
        file := records;
      }
    }

    /** Removes one socket whose identity is the recorded one: `seen` was read, and `gone` was unlinked. */
    method RemoveSocket(records: Records, e: Endpoint)
      returns (r: Result<(), Error>, seen: Option<Identity>, gone: Option<Identity>)
      modifies this`sockets
      ensures gone.Some? ==> r.Ok? && seen.Some? && seen == Expected(records, e)
      ensures r.Ok? ==> seen.None? || seen == Expected(records, e)
      ensures r == Err(OwnershipUnknown) ==> seen.Some? && seen != Expected(records, e)
      ensures still ==> seen == LookedUp(old(sockets), e) && (gone.Some? ==> gone == seen)
      ensures still ==> sockets == (if gone.Some? then old(sockets) - {e} else old(sockets))
      ensures still && r.Ok? ==> e !in sockets
    {
      seen, gone := LookedUp(sockets, e), None;
      if seen.None? {
        return Ok(()), seen, gone;
      }
      Meanwhile();
      seen := LookedUp(sockets, e);
      if seen.None? {
        return Ok(()), seen, gone;
      }
      if Expected(records, e) != seen {
        return Err(OwnershipUnknown), seen, gone;
      }
      Meanwhile();
      var unlinked: bool := *;
      if !unlinked {
        return Err(CleanupFailed), seen, gone;
      }
      gone := LookedUp(sockets, e);
      sockets := sockets - {e};
      return Ok(()), seen, gone;
    }

    /** The same as one step of a removal that began with the sockets `first`. */
    method RemoveNext(records: Records, ghost names: set<Component>, e: Endpoint, ghost first: map<Endpoint, Identity>,
                      ghost seen: map<Endpoint, Option<Identity>>, ghost removed: map<Endpoint, Identity>)
      returns (r: Result<(), Error>, ghost seen': map<Endpoint, Option<Identity>>,
               ghost removed': map<Endpoint, Identity>)
      requires LooksFirst(records, seen, removed) && Inspected(records, names, seen, Place(e)) && Owner(e) in names
      requires still ==> RemovedUpTo(records, names, first, sockets, seen, Place(e))
      modifies this`sockets
      ensures LooksFirst(records, seen', removed') && (forall f :: f in seen' ==> Owner(f) in names)
      ensures r.Ok? ==> Inspected(records, names, seen', Place(e) + 1)
      ensures r == Err(OwnershipUnknown) ==> SawForeign(records, seen')
      ensures still ==> RemovedUpTo(records, names, first, sockets, seen', if r.Ok? then Place(e) + 1 else Place(e))
    {
      ghost var before := sockets;
      var look, gone;
      r, look, gone := RemoveSocket(records, e);
      seen', removed' := seen[e := look], if gone.Some? then removed[e := gone.value] else removed;
      if r.Ok? {
        InspectedOne(records, names, seen, e, look);
      }
      if still {
        RemovedOne(records, names, first, before, seen, e);
        if r.Ok? {
          RemovedGone(records, names, first, before, sockets, seen', e);
        }
      }
    }

    /**
     Removes the sockets of these components whose identity is the recorded one.  `seen`
     is what the last look at each endpoint showed, and `removed` what was unlinked.
     */
    method RemoveOwnedSockets(records: Records, names: set<Component>)
      returns (r: Result<(), Error>, ghost seen: map<Endpoint, Option<Identity>>,
               ghost removed: map<Endpoint, Identity>)
      modifies this`sockets
      ensures LooksFirst(records, seen, removed)
      ensures r.Ok? ==> records.Keys <= names && AllWellFormed(records)
      ensures r.Ok? ==> Inspected(records, names, seen, |ENDPOINTS|)
      ensures r == Err(OwnershipUnknown) ==>
                || !(records.Keys <= names) || (exists c :: c in records && records[c].socket != Main(c))
                || SawForeign(records, seen)
      ensures still ==> OnlyOwnedRemoved(records, old(sockets), sockets)
      ensures forall e :: e in seen ==> Owner(e) in names && (still ==> seen[e] == LookedUp(old(sockets), e))
      ensures still && r.Ok? ==> forall e :: Owner(e) in names ==> e !in sockets
    {
      seen, removed := map[], map[];
      if !(records.Keys <= names) || exists c :: c in records && records[c].socket != Main(c) {
        r := Err(OwnershipUnknown);
        return;
      }
      if !AllWellFormed(records) {
        r := Err(StateInvalid);
        return;
      }
      for i := 0 to |ENDPOINTS|
        invariant LooksFirst(records, seen, removed) && Inspected(records, names, seen, i)
        invariant still ==> RemovedUpTo(records, names, old(sockets), sockets, seen, i)
      {
        var e := ENDPOINTS[i];
        PlaceOf(i);
        if Owner(e) in names {
          r, seen, removed := RemoveNext(records, names, e, old(sockets), seen, removed);
          if r.Err? {
            return;
          }
        } else {
          InspectedSkip(records, names, seen, e);
          if still {
            RemovedSkip(records, names, old(sockets), sockets, seen, e);
          }
        }
      }
      r := Ok(());
    }

    /** Stops a process through its handle: it is reaped, or it could not be signalled or outlived its kill. */
    method StopProcess(c: Component) returns (stopped: bool)
      modifies this`sockets, host
      ensures stopped ==> host.alive == old(host.alive) - {c}
      ensures !stopped ==> host.alive == old(host.alive) && c in host.alive
    {
      stopped := host.Poll(c);
      if stopped {
        return;
      }
      for forced := 0 to 2
        invariant host.alive == old(host.alive) && c in host.alive
      {
        var signalled: bool := *;
        if !signalled {
          return false;
        }
        Activity();
        stopped := host.Poll(c);
        if stopped {
          return;
        }
      }
    }

    /** One look at every endpoint of the component; sockets may change before and after each probe. */
    method LookAtSockets(c: Component, observed: map<Endpoint, Identity>, ghost seen: seq<(Endpoint, Identity)>)
      returns (ok: bool, now: map<Endpoint, Identity>, ghost seen': seq<(Endpoint, Identity)>)
      requires Observes(c, observed, seen)
      modifies this`sockets
      ensures Observes(c, now, seen') && observed.Keys <= now.Keys && seen <= seen'
    {
      now, seen' := observed, seen;
      for i := 0 to |ENDPOINTS|
        invariant Observes(c, now, seen') && observed.Keys <= now.Keys && seen <= seen'
      {
        var e := ENDPOINTS[i];
        Activity();
        if Owner(e) == c && e in sockets {
          var identity := sockets[e];
          if e in now {
            if now[e] != identity {
              return false, now, seen';
            }
            seen' := seen' + [(e, identity)];
          } else {
            var served: bool, foreign: bool := *, *;
            Activity();
            if served && (foreign || e !in sockets || sockets[e] != identity) {
              return false, now, seen';
            }
            if served {
              now, seen' := now[e := identity], seen' + [(e, identity)];
            }
          }
        }
      }
      return true, now, seen';
    }

    /**
     Waits for a started component to serve all its endpoints.  `observed` are the
     identities of those it was seen to serve, and `seen` what was read at an endpoint
     from its first answered probe on: never anything but the observed identity.
     */
    method WaitForSockets(c: Component)
      returns (ready: bool, observed: map<Endpoint, Identity>, ghost seen: seq<(Endpoint, Identity)>)
      modifies this`sockets, host
      ensures host.alive == old(host.alive) || host.alive == old(host.alive) - {c}
      ensures Observes(c, observed, seen)
      ensures ready ==> host.alive == old(host.alive) && forall e :: Owner(e) == c ==> e in observed
    {
      observed, seen := map[], [];
      var polls: int := *;
      while polls > 0
        invariant host.alive == old(host.alive) && Observes(c, observed, seen)
      {
        polls := polls - 1;
        var exited := host.Poll(c);
        if exited {
          return false, observed, seen;
        }
        var ok;
        ok, observed, seen := LookAtSockets(c, observed, seen);
        if !ok {
          return false, observed, seen;
        }
        if forall e :: Owner(e) == c ==> e in observed {
          exited := host.Poll(c);
          return !exited, observed, seen;
        }
      }
      return false, observed, seen;
    }

    /**
     Starts one component.  A failure that leaves something behind carries its record,
     unless its start time could not be read.
     */
    method StartComponent(c: Component) returns (r: Result<Record, Error>, leftover: Option<Record>, handle: bool)
      requires c !in started && c !in host.alive
      modifies this`sockets, this`started, host
      ensures started == old(started) || started == old(started) + {c}
      ensures host.alive <= old(host.alive) + {c}
      ensures r.Ok? ==> c in started && c in host.alive && WellFormed(c, r.value)
      ensures r.Ok? ==> forall e :: Owner(e) == c ==> e in r.value.owned
      ensures r.Err? && !handle ==> c !in host.alive
      ensures r.Err? && !handle && c in started && still ==> forall e :: Owner(e) == c ==> e !in sockets
      ensures r.Err? && handle ==> c in started && (leftover.Some? <==> r.error != IdentityLost)
      ensures leftover.Some? ==> r.Err? && handle && WellFormed(c, leftover.value)
    {
      leftover, handle := None, false;
      var busy: bool := *;
      if busy || exists e :: Owner(e) == c && e in sockets {
        r := Err(OwnershipUnknown);
        return;
      }
      var launched: bool := *;
      if !launched {
        r := Err(StartFailed);
        return;
      }
      host.Spawn(c);
      started := started + {c};
      var readable: bool := *;
      var ready, observed := false, map[];
      if readable {
        ghost var seen;
        ready, observed, seen := WaitForSockets(c);
        if ready {
          r := Ok(Record(Main(c), observed));
          return;
        }
      }
      var record := Record(Main(c), observed);
      var stopped := StopProcess(c);
      if stopped {
        var removed, _, _ := RemoveOwnedSockets(map[c := record], {c});
        if removed.Ok? {
          r := Err(StartFailed);
          return;
        }
      }
      handle := true;
      if readable {
        leftover := Some(record);
      }
      r := Err(if readable then StopFailed else IdentityLost);
    }

    /** Undoes a failed start.  `failed` is the record of a component that could not be cleaned up at once. */
    method Rollback(processes: Records, failed: Option<(Component, Record)>, handle: Option<Component>)
      returns (end: Ending)
      requires AllWellFormed(processes) && (failed.Some? ==> WellFormed(failed.value.0, failed.value.1))
      modifies this`sockets, this`file, host
      ensures end.Clean? || end.Kept? || end.Lost?
      ensures host.alive <= old(host.alive)
      ensures var all := Recorded(processes, failed);
              && (end.Clean? ==> file == map[] && NoneLeft(all, handle, host.alive) && (still ==> sockets == map[]))
              && (end.Kept? && all != map[] ==> file == all)
              && (end.Kept? && all == map[] ==> file == old(file) || file == map[])
              && (end.Lost? ==>
                    file == old(file) || file == all || (file == map[] && NoneLeft(all, handle, host.alive)))
              && (end.Clean? && !host.reaps ==> forall c :: c in all && Some(c) != handle ==> c !in old(host.alive))
    {
      var all := Recorded(processes, failed);
      var stopped := true;
      if handle.Some? {
        stopped := StopProcess(handle.value);
      }
      if stopped {
        var ended, _ := StopRecords(host, all.Keys);
        Activity();
        if ended.Ok? {
          var removed, _, _ := RemoveOwnedSockets(all, ALL);
          if removed.Ok? {
            assert forall e :: Owner(e) in ALL;
            var cleared := Write(map[]);
            if cleared {
              return Clean;
            }
          }
        }
      }
      if all != map[] {
        var kept := Write(all);
        return if kept then Kept else Lost;
      }
      return Kept;
    }

    /** Whether a recorded component of the last runtime is still alive. */
    method AnyAlive() returns (running: bool)
      modifies host
      ensures host.Aged()
      ensures running ==> exists c :: c in file && c in host.alive
      ensures !running ==> file.Keys !! host.alive
    {
      for i := 0 to |ORDER|
        invariant host.Aged()
        invariant forall c :: c in file && Rank(c) < i ==> c !in host.alive
      {
        var c := ORDER[i];
        assert forall d :: Rank(d) == i ==> d == c;
        if c in file {
          var live := host.IsAlive(c);
          if live {
            return true;
          }
        }
      }
      return false;
    }

    /** The record file names every live component, except possibly the last started one in two cases. */
    ghost predicate Accounted(end: Ending, lost: bool)
      reads this, host
    {
      && host.alive <= started
      && (end == Clean ==> host.alive == {} && file == map[] && (still ==> sockets == map[]))
      && (end == Kept && !lost ==> host.alive <= file.Keys)
      && (forall c :: c in host.alive && c !in file ==> StartedLast(c, started) && (lost || end == Lost))
    }

    /** Starts the components in order on a cleared host, and undoes a start that fails. */
    method StartAll() returns (r: Result<(), Ending>, lost: bool)
      requires started == {} && host.alive == {} && file == map[]
      modifies this`sockets, this`file, this`started, host
      ensures r.Ok? ==>
                && started == ALL && file.Keys == ALL && host.alive <= started
                && AllWellFormed(file) && forall e :: e in file[Owner(e)].owned
      ensures r.Err? ==> (r.error == Clean || r.error == Kept || r.error == Lost) && Accounted(r.error, lost)
    {
      lost := false;
      var processes: Records := map[];
      for i := 0 to |ORDER|
        invariant started == processes.Keys && AllWellFormed(processes) && file == processes
        invariant forall c :: c in processes <==> Rank(c) < i
        invariant forall c :: c in processes ==> forall e :: Owner(e) == c ==> e in processes[c].owned
        invariant host.alive <= started
      {
        var c := ORDER[i];
        assert Rank(c) == i && forall d :: Rank(d) == i ==> d == c;
        var record, leftover, handle := StartComponent(c);
        if record.Err? {
          lost := record.error == IdentityLost;
          var failed := if leftover.Some? then Some((c, leftover.value)) else None;
          var end := Rollback(processes, failed, if handle then Some(c) else None);
          return Err(end), lost;
        }
        processes := processes[c := record.value];
        var written := Write(processes);
        if !written {
          var end := Rollback(processes, None, None);
          return Err(end), lost;
        }
      }
      host.ReapDropped();
      var ready: bool := *;
      if !ready {
        var end := Rollback(processes, None, None);
        return Err(end), lost;
      }
      assert processes.Keys == ALL;
      return Ok(()), lost;
    }

    /**
     Starts the runtime, whatever ran before.  `lost` says that the start time of a
     process could not be read.

     A running runtime is left untouched.  Otherwise a start that fails leaves nothing
     behind, or leaves a record file that names every component that may still be
     alive, except possibly the one that was started last: only when its start time
     could not be read, or when the records could not be written in the end.
     */
    method Up() returns (r: Result<(), Ending>, lost: bool)
      requires started == {} && host.alive <= file.Keys
      modifies this`sockets, this`file, this`started, host
      ensures r == Err(Running) ==>
                && file == old(file) && sockets == old(sockets) && started == {}
                && host.Aged() && exists c :: c in file && c in host.alive
      ensures !host.reaps ==> (r == Err(Running) <==> exists c :: c in old(file) && c in old(host.alive))
      ensures r == Err(Uncleared) ==>
                && started == {} && host.alive == {}
                && (still ==> OnlyOwnedRemoved(old(file), old(sockets), sockets))
      ensures r.Ok? ==>
                && started == ALL && file.Keys == ALL && host.alive <= started
                && AllWellFormed(file) && forall e :: e in file[Owner(e)].owned
      ensures r == Err(Clean) || r == Err(Kept) || r == Err(Lost) ==> Accounted(r.error, lost)
    {
      var running := AnyAlive();
      if running {
        return Err(Running), false;
      }
      assert host.alive == {};
      var removed, _, _ := RemoveOwnedSockets(file, ALL);
      if removed.Err? {
        return Err(Uncleared), false;
      }
      if file != map[] {
        var cleared := Write(map[]);
        if !cleared {
          return Err(Uncleared), false;
        }
      }
      r, lost := StartAll();
    }

    /** One socket of a recorded component that was read with this identity; its process is `live` or not. */
    method CaptureSocket(records: Records, captured: Records, ghost looked: map<Endpoint, Identity>, e: Endpoint,
                         identity: Identity, live: bool, ghost alive: set<Component>)
      returns (r: Result<Records, Error>)
      requires Captured(records, looked, alive, captured) && LookedUp(looked, e) == Some(identity)
      requires Owner(e) in records && (live ==> Owner(e) in alive)
      modifies this`sockets
      ensures still ==> sockets == old(sockets)
      ensures r.Ok? ==> Captured(records, looked, alive, r.value) && Keeps(captured, r.value)
      ensures r.Ok? ==> Expected(r.value, e) == Some(identity)
    {
      Meanwhile();
      var served: bool := *;
      if live && !served {
        return Err(OwnershipUnknown);
      }
      if Expected(captured, e).Some? {
        return if Expected(captured, e).value == identity then Ok(captured) else Err(OwnershipUnknown);
      }
      if !live {
        return Err(OwnershipUnknown);
      }
      OwnKeepsCaptured(records, looked, alive, captured, e);
      return Ok(Own(captured, e, identity));
    }

    /** The sockets of one recorded component; `looked'` adds the identities read on the way. */
    method CaptureOne(records: Records, captured: Records, ghost looked: map<Endpoint, Identity>, c: Component,
                      live: bool, ghost alive: set<Component>)
      returns (r: Result<Records, Error>, ghost looked': map<Endpoint, Identity>)
      requires Captured(records, looked, alive, captured) && c in records && (live ==> c in alive)
      requires forall e :: e in looked ==> Owner(e) != c
      modifies this`sockets
      ensures still ==> sockets == old(sockets)
      ensures LookedFurther(looked, looked', c) && (still ==> LooksTrue(looked, looked', sockets))
      ensures r.Ok? ==> Captured(records, looked', alive, r.value)
      ensures r.Ok? ==> Capturing(captured, r.value, looked, looked', c, |ENDPOINTS|)
      ensures r.Ok? && still ==> LookedAll(looked, looked', sockets, c, |ENDPOINTS|)
    {
      var result := captured;
      looked' := looked;
      for i := 0 to |ENDPOINTS|
        invariant Captured(records, looked', alive, result)
        invariant Capturing(captured, result, looked, looked', c, i)
        invariant still ==> sockets == old(sockets) && LookedAll(looked, looked', sockets, c, i)
      {
        var e := ENDPOINTS[i];
        PlaceOf(i);
        Meanwhile();
        if Owner(e) == c && e in sockets {
          var identity := sockets[e];
          LookKeepsCaptured(records, looked', alive, result, e, identity);
          var one := CaptureSocket(records, result, looked'[e := identity], e, identity, live, alive);
          LookFurther(looked, looked', sockets, c, e, identity);
          if one.Err? {
            looked' := looked'[e := identity];
            r := Err(one.error);
            return;
          }
          OneMoreCaptured(captured, result, one.value, looked, looked', c, e, identity);
          result, looked' := one.value, looked'[e := identity];
        } else {
          NoneToCapture(captured, result, looked, looked', sockets, c, e);
        }
      }
      r := Ok(result);
    }

    /**
     Completes the records with the identities of the sockets their live processes
     serve.  A socket that nobody provably serves, or that changed, is refused.
     `looked` are the identities that were read.
     */
    method CaptureOwnedSockets(records: Records)
      returns (r: Result<Records, Error>, ghost looked: map<Endpoint, Identity>)
      modifies this`sockets, host
      ensures host.Aged() && (still ==> sockets == old(sockets))
      ensures r.Ok? ==> Captured(records, looked, old(host.alive), r.value)
      ensures r.Ok? ==> forall c :: c in records ==> Confirmed(r.value, looked, c)
      ensures still ==> LooksTrue(map[], looked, sockets)
      ensures r.Ok? && still ==> forall e :: Owner(e) in records && e in sockets ==> e in looked
    {
      looked := map[];
      if exists c :: c in records && records[c].socket != Main(c) {
        r := Err(OwnershipUnknown);
        return;
      }
      if !AllWellFormed(records) {
        r := Err(StateInvalid);
        return;
      }
      var captured := records;
      for i := 0 to |ORDER|
        invariant host.Aged() && (still ==> sockets == old(sockets))
        invariant Captured(records, looked, old(host.alive), captured)
        invariant forall e :: e in looked ==> Rank(Owner(e)) < i
        invariant forall c :: c in records && Rank(c) < i ==> Confirmed(captured, looked, c)
        invariant still ==> LooksTrue(map[], looked, sockets)
        invariant still ==> forall e :: Owner(e) in records && Rank(Owner(e)) < i && e in sockets ==> e in looked
      {
        var c := ORDER[i];
        assert Rank(c) == i && forall d :: Rank(d) == i ==> d == c;
        if c in records {
          var live := host.IsAlive(c);
          ghost var before, kept := looked, captured;
          var one;
          one, looked := CaptureOne(records, captured, looked, c, live, old(host.alive));
          if one.Err? {
            r := Err(one.error);
            return;
          }
          captured := one.value;
          forall d | d in records && Rank(d) < i ensures Confirmed(captured, looked, d) {
            ConfirmedStays(kept, captured, before, looked, c, d);
          }
        }
      }
      r := Ok(captured);
    }

    /** Takes the runtime down; a failure keeps a record of every component that was recorded. */
    method Down() returns (r: Result<bool, Error>)
      modifies this`sockets, this`file, host
      ensures host.alive <= old(host.alive)
      ensures DependentsFirst(old(host.log), host.log, old(file).Keys)
      ensures r.Ok? ==> file == map[] && old(file).Keys !! host.alive && (still ==> sockets == map[])
      ensures r.Err? ==>
                || file.Keys == old(file).Keys
                || (file == map[] && old(file).Keys !! host.alive && (still ==> sockets == map[]))
    {
      var captured, _ := CaptureOwnedSockets(file);
      if captured.Err? {
        return Err(captured.error);
      }
      var processes := captured.value;
      if processes != map[] {
        var kept := Write(processes);
        if !kept {
          return Err(WriteFailed);
        }
      }
      var ended, _ := StopRecords(host, processes.Keys);
      Activity();
      if ended.Err? {
        return Err(StopFailed);
      }
      var removed, _, _ := RemoveOwnedSockets(processes, ALL);
      if removed.Err? {
        return Err(removed.error);
      }
      assert forall e :: Owner(e) in ALL;
      var cleared := Write(map[]);
      if !cleared {
        return Err(WriteFailed);
      }
      return Ok(ended.value);
    }
  }

  /** No component of the records and not the one of the handle is alive. */
  ghost predicate NoneLeft(records: Records, handle: Option<Component>, alive: set<Component>) {
    records.Keys !! alive && (handle.Some? ==> handle.value !in alive)
  }

  function Recorded(processes: Records, failed: Option<(Component, Record)>): Records {
    if failed.Some? then processes[failed.value.0 := failed.value.1] else processes
  }
}
