/**
 Stopping the recorded components in reverse dependency order under one shared
 time budget.  Time passes only in sleeps, which take exactly as long as asked;
 a component may disappear at any moment and never comes back under its identity.
 */
module OrderedStop {
  import opened Results

  datatype Component = SystemAdapter | NvidiaAdapter | Sandboxd | Kernel

  const ORDER := [SystemAdapter, NvidiaAdapter, Sandboxd, Kernel]
  const STOP_GRACE := 3.0
  const FORCED_WAIT := 1.0
  const POLL := 0.1

  /** Position in the dependency order: a component depends on those of smaller rank. */
  function Rank(c: Component): (r: nat)
    ensures r < |ORDER| && ORDER[r] == c
  {
    match c
    case SystemAdapter => 0
    case NvidiaAdapter => 1
    case Sandboxd => 2
    case Kernel => 3
  }

  function Min(a: real, b: real): real { if a <= b then a else b }

  function Max(a: real, b: real): real { if a <= b then b else a }

  datatype StopError = SignalFailed(component: Component) | RemainedAlive(component: Component)

  /** A signal sent to a component, when, and which components were alive then. */
  datatype Signal = Signal(component: Component, kill: bool, at: real, alive: set<Component>)

  /**
   `alive` holds the components whose process entry carries the recorded start time.
   A dead child keeps its entry until it is reaped; `reaps` says whether somebody
   other than the stopping process reaps the components.
   */
  class Host {
    const reaps: bool
    var now: real
    var alive: set<Component>
    ghost var log: seq<Signal>

    constructor (reaps: bool, now: real, alive: set<Component>)
      ensures this.reaps == reaps && this.now == now && this.alive == alive && log == []
    {
      this.reaps := reaps;
      this.now := now;
      this.alive := alive;
      log := [];
    }

    /** Entries may have vanished, and nothing else happened. */
    twostate predicate Aged()
      reads this
    {
      alive <= old(alive) && (!reaps ==> alive == old(alive)) && log == old(log)
    }

    method IsAlive(c: Component) returns (b: bool)
      modifies this
      ensures Aged() && now == old(now) && b == (c in alive)
    {
      var gone: set<Component> := *;
      if reaps {
        alive := alive - gone;
      }
      return c in alive;
    }

    method Sleep(seconds: real)
      requires seconds >= 0.0
      modifies this
      ensures Aged() && now == old(now) + seconds
    {
      var gone: set<Component> := *;
      if reaps {
        alive := alive - gone;
      }
      now := now + seconds;
    }

    method SignalGroup(c: Component, kill: bool) returns (ok: bool)
      modifies this
      ensures now == old(now) && alive == old(alive) && log == old(log) + [Signal(c, kill, now, alive)]
    {
      ok := *;
      log := log + [Signal(c, kill, now, alive)];
    }

    /** Starts a process; doing so also reaps some dead children whose handles were dropped. */
    method Spawn(c: Component)
      modifies this
      ensures c in alive && alive <= old(alive) + {c}
    {
      var gone: set<Component> := *;
      alive := alive - gone + {c};
    }

    /** Running another program reaps some dead children whose handles were dropped. */
    method ReapDropped()
      modifies this
      ensures alive <= old(alive)
    {
      var gone: set<Component> := *;
      alive := alive - gone;
    }

    /** Asks for a child's exit status through its handle, which reaps it when it is dead. */
    method Poll(c: Component) returns (exited: bool)
      modifies this
      ensures alive == if exited then old(alive) - {c} else old(alive)
      ensures c !in old(alive) ==> exited
    {
      exited := *;
      exited := exited || c !in alive;
      if exited {
        alive := alive - {c};
      }
    }

    /** Polls until the component is gone or the deadline is reached, and never past it. */
    method AwaitGone(c: Component, until: real)
      modifies this
      ensures Aged()
      ensures old(now) <= now && (now <= until || now == old(now))
      ensures c in alive ==> now == Max(old(now), until)
    {
      var present := IsAlive(c);
      while present && now < until
        invariant Aged() && present == (c in alive)
        invariant old(now) <= now && (now <= until || now == old(now))
        decreases if now < until then 1 + ((until - now) * 10.0).Floor else 0
      {
        PollsLeft(until - now);
        Sleep(Min(POLL, until - now));
        present := IsAlive(c);
      }
    }
  }

  lemma PollsLeft(left: real)
    requires left > 0.0
    ensures left > POLL ==> 0 <= ((left - POLL) * 10.0).Floor < (left * 10.0).Floor
    ensures 0 <= (left * 10.0).Floor
  {
    if left > POLL {
      assert (left - POLL) * 10.0 == left * 10.0 - 1.0;
    }
  }

  // ------------------------------------------------------------------- one component

  function Grace(slot: real): real { Min(STOP_GRACE, slot * 0.8) }

  function Forced(slot: real): real { Min(FORCED_WAIT, slot * 0.2) }

  /** The time of `k` slots. */
  function Slots(slot: real, k: nat): real { if k == 0 then 0.0 else Slots(slot, k - 1) + slot }

  lemma {:induction false} SlotsMultiply(slot: real, k: nat)
    ensures Slots(slot, k) == slot * k as real
  {
    if k > 0 {
      SlotsMultiply(slot, k - 1);
      var before := (k - 1) as real;
      assert k as real == before + 1.0;
      assert slot * (before + 1.0) == slot * before + slot;
    }
  }

  lemma {:induction false} SlotsAddUp(slot: real, i: nat, k: nat)
    requires slot >= 0.0
    ensures Slots(slot, i + k) == Slots(slot, i) + Slots(slot, k)
    ensures Slots(slot, k) >= 0.0
  {
    if k > 0 {
      SlotsAddUp(slot, i, k - 1);
      assert i + k - 1 == i + (k - 1);
    }
  }

  lemma ShareIsLarge(left: real, k: real, slot: real)
    requires k > 0.0 && left >= slot * k
    ensures left / k >= slot
  {
    var each := left / k;
    assert each * k == left;
    assert (slot - each) * k == slot * k - left;
    if slot > each {
      assert (slot - each) * k > 0.0;
    }
  }

  /** What is left of the time budget, shared by the components still to stop, is a full slot each. */
  lemma BudgetIsSlot(left: real, remaining: nat, slot: real)
    requires remaining > 0 && slot >= 0.0 && left >= Slots(slot, remaining)
    ensures Min(slot, left / remaining as real) == slot
    ensures left >= slot
  {
    SlotsMultiply(slot, remaining);
    SlotsAddUp(slot, 1, remaining - 1);
    assert Slots(slot, 1) == Slots(slot, 0) + slot;
    ShareIsLarge(left, remaining as real, slot);
  }

  /** The signals one component gets: none, a request, or a request and a kill after the full grace time. */
  ghost predicate SignalsOf(before: seq<Signal>, after: seq<Signal>, c: Component, slot: real, alive: set<Component>) {
    && before <= after && |after| <= |before| + 2
    && (|after| > |before| ==>
          var asked := after[|before|];
          asked.component == c && !asked.kill && asked.alive <= alive)
    && (|after| == |before| + 2 ==>
          var asked, killed := after[|before|], after[|before| + 1];
          killed.component == c && killed.kill && killed.alive <= asked.alive && killed.at == asked.at + Grace(slot))
  }

  /** Stops one component within its slot. */
  method StopOne(host: Host, c: Component, remaining: nat, slot: real, deadline: real)
    returns (r: Result<bool, StopError>)
    requires remaining > 0 && slot >= 0.0 && deadline - host.now >= Slots(slot, remaining)
    modifies host
    ensures host.alive <= old(host.alive) && (!host.reaps ==> host.alive == old(host.alive))
    ensures old(host.now) <= host.now <= old(host.now) + slot
    ensures SignalsOf(old(host.log), host.log, c, slot, old(host.alive))
    ensures r.Ok? ==> c !in host.alive && (r.value <==> |host.log| == |old(host.log)| + 2)
    ensures r.Err? && r.error.RemainedAlive? ==>
              c in host.alive && host.now == old(host.now) + Grace(slot) + Forced(slot)
    ensures r.Err? ==> r.error.component == c && c in old(host.alive)
  {
    BudgetIsSlot(deadline - host.now, remaining, slot);
    var present := host.IsAlive(c);
    if !present {
      return Ok(false);
    }
    var asked := host.SignalGroup(c, false);
    if !asked {
      return Err(SignalFailed(c));
    }
    var budget := Min(slot, Max(0.0, deadline - host.now) / remaining as real);
    assert budget == slot;
    host.AwaitGone(c, Min(deadline, host.now + Min(STOP_GRACE, budget * 0.8)));
    present := host.IsAlive(c);
    if !present {
      return Ok(false);
    }
    assert host.now == old(host.now) + Grace(slot);
    var killed := host.SignalGroup(c, true);
    if !killed {
      return Err(SignalFailed(c));
    }
    host.AwaitGone(c, Min(deadline, host.now + Min(FORCED_WAIT, budget * 0.2)));
    present := host.IsAlive(c);
    return if present then Err(RemainedAlive(c)) else Ok(true);
  }

  // ------------------------------------------------------------------- all components

  /** Every new signal goes to a recorded component after all recorded components that depend on it are gone. */
  ghost predicate DependentsFirst(before: seq<Signal>, after: seq<Signal>, records: set<Component>) {
    before <= after && forall i :: |before| <= i < |after| ==>
      && after[i].component in records
      && forall d :: d in records && Rank(d) > Rank(after[i].component) ==> d !in after[i].alive
  }

  /** A kill comes right after the same component's request, when its full grace time has passed. */
  ghost predicate KillsAfterGrace(before: seq<Signal>, after: seq<Signal>, slot: real) {
    before <= after && forall i :: |before| <= i < |after| && after[i].kill ==>
      && i > |before| && !after[i - 1].kill && after[i - 1].component == after[i].component
      && after[i].at == after[i - 1].at + Grace(slot)
  }

  ghost predicate Kills(before: seq<Signal>, after: seq<Signal>) {
    exists i :: |before| <= i < |after| && after[i].kill
  }

  /** Distinct recorded components, dependents first. */
  ghost predicate Descending(selected: seq<Component>, records: set<Component>) {
    && (forall i :: 0 <= i < |selected| ==> selected[i] in records)
    && (forall i, j :: 0 <= i < j < |selected| ==> Rank(selected[i]) > Rank(selected[j]))
  }

  /** The recorded components that are alive, dependents first. */
  method Select(host: Host, records: set<Component>) returns (selected: seq<Component>)
    modifies host
    ensures host.Aged() && host.now == old(host.now)
    ensures Descending(selected, records)
    ensures forall c :: c in records && c in host.alive ==> c in selected
    ensures forall c :: c in selected ==> c in old(host.alive)
  {
    selected := [];
    for i := |ORDER| downto 0
      invariant host.Aged() && host.now == old(host.now)
      invariant Descending(selected, records)
      invariant forall k :: 0 <= k < |selected| ==> Rank(selected[k]) >= i && selected[k] in old(host.alive)
      invariant forall c :: c in records && c in host.alive && Rank(c) >= i ==> c in selected
    {
      var c := ORDER[i];
      assert forall d :: Rank(d) == i ==> d == c;
      if c in records {
        var present := host.IsAlive(c);
        if present {
          selected := selected + [c];
        }
      }
    }
  }

  lemma StillDependentsFirst(before: seq<Signal>, middle: seq<Signal>, after: seq<Signal>, records: set<Component>,
                             c: Component, slot: real, alive: set<Component>)
    requires DependentsFirst(before, middle, records) && SignalsOf(middle, after, c, slot, alive) && c in records
    requires forall d :: d in records && d in alive ==> Rank(d) <= Rank(c)
    ensures DependentsFirst(before, after, records)
  {
    forall i | |middle| <= i < |after| ensures after[i].component == c && after[i].alive <= alive {
    }
    assert forall i :: |before| <= i < |middle| ==> after[i] == middle[i];
  }

  lemma StillKillsAfterGrace(before: seq<Signal>, middle: seq<Signal>, after: seq<Signal>, c: Component, slot: real,
                             alive: set<Component>)
    requires KillsAfterGrace(before, middle, slot) && SignalsOf(middle, after, c, slot, alive)
    ensures KillsAfterGrace(before, after, slot)
    ensures Kills(before, after) <==> Kills(before, middle) || |after| == |middle| + 2
  {
    assert forall i :: |before| <= i < |middle| ==> after[i] == middle[i];
    if |after| == |middle| + 2 {
      assert after[|middle| + 1].kill;
    }
    if Kills(before, middle) {
      var i :| |before| <= i < |middle| && middle[i].kill;
      assert after[i].kill;
    }
  }

  /** The components recorded and alive are among those still to stop. */
  ghost predicate LeftToStop(records: set<Component>, alive: set<Component>, selected: seq<Component>, i: nat)
    requires i <= |selected|
  {
    && (forall c :: c in records && c in alive ==> c in selected[i..])
    && (forall k :: 0 <= k < i ==> selected[k] !in alive)
  }

  lemma DependentsGone(records: set<Component>, alive: set<Component>, selected: seq<Component>, i: nat)
    requires Descending(selected, records) && i < |selected| && LeftToStop(records, alive, selected, i)
    ensures forall d :: d in records && d in alive ==> Rank(d) <= Rank(selected[i])
  {
    forall d | d in records && d in alive ensures Rank(d) <= Rank(selected[i]) {
      assert d in selected[i..];
      var k :| 0 <= k < |selected[i..]| && selected[i..][k] == d;
      assert selected[i + k] == d;
    }
  }

  lemma OneLessToStop(records: set<Component>, before: set<Component>, alive: set<Component>, selected: seq<Component>,
                      i: nat)
    requires i < |selected| && LeftToStop(records, before, selected, i) && alive <= before && selected[i] !in alive
    ensures LeftToStop(records, alive, selected, i + 1)
  {
    assert selected[i..] == [selected[i]] + selected[i + 1..];
  }

  /** The equal share of the timeout for each of `live` components. */
  function Share(timeout: real, live: nat): real { Max(0.0, timeout) / if live == 0 then 1.0 else live as real }

  /** How far a stop has come: what it signalled, and that it is within its time. */
  ghost predicate Stopping(before: seq<Signal>, after: seq<Signal>, records: set<Component>, slot: real, forced: bool) {
    DependentsFirst(before, after, records) && KillsAfterGrace(before, after, slot) &&
      (forced <==> Kills(before, after))
  }

  /** Stops the next selected component; nothing is signalled before its dependents are gone. */
  method StopNext(host: Host, records: set<Component>, selected: seq<Component>, i: nat, slot: real, deadline: real,
                  ghost before: seq<Signal>, ghost forced: bool) returns (r: Result<bool, StopError>)
    requires i < |selected| && Descending(selected, records) && LeftToStop(records, host.alive, selected, i)
    requires slot >= 0.0 && deadline - host.now >= Slots(slot, |selected| - i)
    requires Stopping(before, host.log, records, slot, forced)
    modifies host
    ensures host.alive <= old(host.alive) && (!host.reaps ==> host.alive == old(host.alive))
    ensures old(host.now) <= host.now <= old(host.now) + slot
    ensures r.Ok? ==>
              LeftToStop(records, host.alive, selected, i + 1) &&
                Stopping(before, host.log, records, slot, forced || r.value)
    ensures r.Err? ==> r.error.component == selected[i] && selected[i] in old(host.alive)
    ensures r.Err? ==> DependentsFirst(before, host.log, records) && KillsAfterGrace(before, host.log, slot)
  {
    ghost var log, alive := host.log, host.alive;
    DependentsGone(records, alive, selected, i);
    r := StopOne(host, selected[i], |selected| - i, slot, deadline);
    StillDependentsFirst(before, log, host.log, records, selected[i], slot, alive);
    StillKillsAfterGrace(before, log, host.log, selected[i], slot, alive);
    if r.Ok? {
      OneLessToStop(records, alive, host.alive, selected, i);
    }
  }

  /** Stops the selected components in turn, each within its slot. */
  method StopSelected(host: Host, records: set<Component>, selected: seq<Component>, slot: real, deadline: real)
    returns (r: Result<bool, StopError>)
    requires Descending(selected, records) && LeftToStop(records, host.alive, selected, 0)
    requires slot >= 0.0 && deadline - host.now == Slots(slot, |selected|)
    modifies host
    ensures host.alive <= old(host.alive) && (!host.reaps ==> host.alive == old(host.alive))
    ensures old(host.now) <= host.now <= deadline
    ensures DependentsFirst(old(host.log), host.log, records) && KillsAfterGrace(old(host.log), host.log, slot)
    ensures r.Ok? ==>
              LeftToStop(records, host.alive, selected, |selected|) && (r.value <==> Kills(old(host.log), host.log))
    ensures r.Err? ==> r.error.component in selected && r.error.component in old(host.alive)
  {
    var forced := false;
    for i := 0 to |selected|
      invariant host.alive <= old(host.alive) && (!host.reaps ==> host.alive == old(host.alive))
      invariant LeftToStop(records, host.alive, selected, i)
      invariant old(host.now) <= host.now <= old(host.now) + Slots(slot, i)
      invariant Stopping(old(host.log), host.log, records, slot, forced)
    {
      SlotsAddUp(slot, i, |selected| - i);
      SlotsAddUp(slot, i + 1, |selected| - i - 1);
      var stopped := StopNext(host, records, selected, i, slot, deadline, old(host.log), forced);
      if stopped.Err? {
        return Err(stopped.error);
      }
      forced := forced || stopped.value;
    }
    return Ok(forced);
  }

  /** Stops the recorded components; `live` is how many of them were found alive. */
  method StopRecords(host: Host, records: set<Component>, timeout: real := 15.0)
    returns (r: Result<bool, StopError>, ghost live: nat)
    modifies host
    ensures host.alive <= old(host.alive) && (!host.reaps ==> host.alive == old(host.alive))
    ensures live <= |records * old(host.alive)|
    ensures DependentsFirst(old(host.log), host.log, records)
    ensures KillsAfterGrace(old(host.log), host.log, Share(timeout, live))
    ensures old(host.now) <= host.now <= old(host.now) + Max(0.0, timeout)
    ensures r.Ok? ==> records !! host.alive && (r.value <==> Kills(old(host.log), host.log))
    ensures r.Err? ==> r.error.component in records && r.error.component in old(host.alive)
    ensures !host.reaps ==> (r.Ok? <==> records !! old(host.alive))
  {
    var selected := Select(host, records);
    live := |selected|;
    SelectedAreDistinct(selected, records, old(host.alive));
    if selected == [] {
      return Ok(false), live;
    }
    var slot := Max(0.0, timeout) / |selected| as real;
    SlotsMultiply(slot, |selected|);
    r := StopSelected(host, records, selected, slot, host.now + Max(0.0, timeout));
    assert selected[0] in selected;
  }

  lemma {:induction false} SelectedAreDistinct(selected: seq<Component>, records: set<Component>, alive: set<Component>)
    requires Descending(selected, records) && forall c :: c in selected ==> c in alive
    ensures |selected| <= |records * alive|
  {
    if selected != [] {
      var last, shorter := selected[|selected| - 1], selected[..|selected| - 1];
      assert last in selected && last in records * alive;
      assert forall c :: c in shorter ==> c in selected;
      assert last !in shorter;
      SelectedAreDistinct(shorter, records - {last}, alive);
      assert (records - {last}) * alive == records * alive - {last};
    }
  }
}
