/**
 The child table of the sandbox runtime, which exists to reap children within
 bounded waits.  A process identifier names a new incarnation each time it is
 reused; the kernel reuses it only after the previous child was reaped.
 */
module ChildTable {
  import opened Results

  /** A row of the table: whether a pidfd was opened, and which incarnation it is for. */
  datatype TrackedChild = TrackedChild(pidfd: bool, incarnation: nat)

  /** A child the kernel still knows: running, or exited and waiting to be reaped. */
  datatype Proc = Proc(incarnation: nat, zombie: bool)

  /** Processes that exit before one more poll. */
  type Exits = set<nat>

  function AfterExits(kernel: map<nat, Proc>, exits: Exits): map<nat, Proc> {
    map pid | pid in kernel :: if pid in exits then kernel[pid].(zombie := true) else kernel[pid]
  }

  /** Reading `cgroup.procs`; an unreadable file counts as empty. */
  datatype CgroupReading = Unreadable | Members(none: bool)

  predicate ReadsEmpty(reading: CgroupReading) { reading.Unreadable? || reading.none }

  datatype WaitResult = Code(code: nat) | NoCode

  datatype StopReport = StopReport(complete: bool, exitCode: WaitResult)

  /** What happens during one wait: the exits before each further poll, and the polls whose `waitpid` fails. */
  datatype Waiting = Waiting(exits: seq<Exits>, failing: set<nat>)

  /** The answers of the host during one stop. */
  datatype StopWorld = StopWorld(
    firstWait: Waiting,
    secondWait: Waiting,
    beforeKill: CgroupReading,
    killFails: bool,
    afterKill: CgroupReading,
    exitCode: WaitResult)

  /** Every row is for the process that now has its identifier. */
  ghost predicate TableFits(children: map<nat, TrackedChild>, kernel: map<nat, Proc>) {
    forall pid :: pid in children ==> pid in kernel && kernel[pid].incarnation == children[pid].incarnation
  }

  /** Every incarnation is used once, and none that was reaped is in the kernel's table. */
  ghost predicate IncarnationsFit(kernel: map<nat, Proc>, reaped: seq<nat>, next: nat) {
    && (forall pid :: pid in kernel ==> kernel[pid].incarnation < next && kernel[pid].incarnation !in reaped)
    && (forall p, q :: p in kernel && q in kernel && kernel[p].incarnation == kernel[q].incarnation ==> p == q)
    && (forall i :: 0 <= i < |reaped| ==> reaped[i] < next)
    && (forall i, j :: 0 <= i < j < |reaped| ==> reaped[i] != reaped[j])
  }

  lemma ReapingFits(kernel: map<nat, Proc>, reaped: seq<nat>, next: nat, pid: nat)
    requires IncarnationsFit(kernel, reaped, next) && pid in kernel
    ensures IncarnationsFit(kernel - {pid}, reaped + [kernel[pid].incarnation], next)
  {
  }

  class CgroupV2Runtime {
    const devMode: bool
    var children: map<nat, TrackedChild>
    var kernel: map<nat, Proc>
    var reaped: seq<nat>
    var nextIncarnation: nat

    /** Tracked children are unreaped, and no incarnation is reaped twice. */
    ghost predicate Valid()
      reads this
    {
      TableFits(children, kernel) && IncarnationsFit(kernel, reaped, nextIncarnation)
    }

    constructor (devMode: bool)
      ensures Valid() && this.devMode == devMode && children == map[] && kernel == map[] && reaped == []
    {
      this.devMode := devMode;
      children, kernel, reaped, nextIncarnation := map[], map[], [], 0;
    }

    /** A released launch: the kernel picks a free identifier. */
    method Track(pid: nat, pidfd: bool)
      requires Valid() && pid !in kernel
      modifies this
      ensures Valid()
      ensures children == old(children)[pid := TrackedChild(pidfd, old(nextIncarnation))]
      ensures kernel == old(kernel)[pid := Proc(old(nextIncarnation), false)] && reaped == old(reaped)
      ensures pid !in old(children)
    {
      kernel := kernel[pid := Proc(nextIncarnation, false)];
      children := children[pid := TrackedChild(pidfd, nextIncarnation)];
      nextIncarnation := nextIncarnation + 1;
    }

    /**
     What a wait on one child may have done to the runtime: nothing, reaped and
     untracked the child, or, when a `waitpid` failed, untracked it unreaped.
     */
    twostate predicate WaitEffect(pid: nat, failing: set<nat>)
      reads this
    {
      && nextIncarnation == old(nextIncarnation)
      && kernel.Keys <= old(kernel.Keys)
      && (forall p :: p in kernel ==> kernel[p].incarnation == old(kernel)[p].incarnation)
      && if children == old(children) then kernel.Keys == old(kernel.Keys) && reaped == old(reaped)
         else
           && pid in old(children) && children == old(children) - {pid}
           && ( || (kernel.Keys == old(kernel.Keys) - {pid} && reaped == old(reaped) + [old(children)[pid].incarnation])
                || (failing != {} && kernel.Keys == old(kernel.Keys) && reaped == old(reaped)))
    }

    method Elapse(exits: Exits)
      requires Valid()
      modifies this`kernel
      ensures Valid() && kernel == AfterExits(old(kernel), exits)
    {
      kernel := AfterExits(kernel, exits);
    }

    /** A successful `waitpid`: the zombie is gone. */
    method Reap(pid: nat)
      requires Valid() && pid in kernel && pid !in children
      modifies this`kernel, this`reaped
      ensures Valid() && kernel == old(kernel) - {pid} && reaped == old(reaped) + [old(kernel)[pid].incarnation]
    {
      ReapingFits(kernel, reaped, nextIncarnation, pid);
      reaped := reaped + [kernel[pid].incarnation];
      kernel := kernel - {pid};
    }

    /** Polls the pidfd of a child that nobody else tracks right now. */
    method PollExit(pid: nat, timeline: seq<Exits>) returns (ready: bool)
      requires Valid() && pid in kernel
      modifies this`kernel
      ensures Valid() && kernel.Keys == old(kernel.Keys)
      ensures forall p :: p in kernel ==> kernel[p].incarnation == old(kernel)[p].incarnation
      ensures ready <==> kernel[pid].zombie
    {
      for k := 0 to |timeline|
        invariant Valid() && kernel.Keys == old(kernel.Keys)
        invariant forall p :: p in kernel ==> kernel[p].incarnation == old(kernel)[p].incarnation
      {
        if kernel[pid].zombie {
          return true;
        }
        Elapse(timeline[k]);
      }
      ready := kernel[pid].zombie;
    }

    /** `None` when there is no pidfd to wait on; a timeout puts the child back into the table. */
    method WaitChildWithPidfd(pid: nat, w: Waiting, code: WaitResult) returns (r: Option<WaitResult>)
      requires Valid()
      modifies this`children, this`kernel, this`reaped
      ensures Valid() && WaitEffect(pid, w.failing)
      ensures r.None? <==> pid !in old(children) || !old(children)[pid].pidfd
      ensures r.None? ==> children == old(children) && kernel == old(kernel)
      ensures r.Some? && pid in children ==> !kernel[pid].zombie && r == Some(NoCode)
      ensures 0 in w.failing ==> reaped == old(reaped)
    {
      if pid !in children {
        return None;
      }
      var tracked := children[pid];
      children := children - {pid};
      if !tracked.pidfd {
        children := children[pid := tracked];
        assert children == old(children);
        return None;
      }
      var ready := PollExit(pid, w.exits);
      if ready {
        if 0 in w.failing {
          return Some(NoCode);
        }
        Reap(pid);
        return Some(code);
      }
      children := children[pid := tracked];
      assert children == old(children);
      return Some(NoCode);
    }

    /** Waits on one child, by pidfd or by polling, and untracks it exactly when it was reaped or `waitpid` failed. */
    method WaitChild(pid: nat, w: Waiting, code: WaitResult) returns (r: WaitResult)
      requires Valid()
      modifies this`children, this`kernel, this`reaped
      ensures Valid() && WaitEffect(pid, w.failing)
      ensures pid in children ==> !kernel[pid].zombie && r == NoCode
      ensures 0 in w.failing ==> reaped == old(reaped)
      ensures 0 in w.failing && pid in old(children) && !old(children)[pid].pidfd ==> pid !in children
    {
      var first := WaitChildWithPidfd(pid, w, code);
      if first.Some? {
        return first.value;
      }
      var k := 0;
      while true
        invariant Valid() && WaitEffect(pid, w.failing) && children == old(children) && k <= |w.exits|
        invariant 0 in w.failing && pid in children ==> k == 0
        decreases |w.exits| - k
      {
        if pid in children && k in w.failing {
          children := children - {pid};
          return NoCode;
        }
        if pid in children && kernel[pid].zombie {
          ReapingFits(kernel, reaped, nextIncarnation, pid);
          reaped := reaped + [kernel[pid].incarnation];
          kernel := kernel - {pid};
          children := children - {pid};
          return code;
        }
        if k == |w.exits| {
          return NoCode;
        }
        Elapse(w.exits[k]);
        k := k + 1;
      }
    }

    /**
     Stops one child.  Success says whether the cleanup is complete: the child is
     no longer tracked and, outside development mode, its cgroup reads empty.
     */
    method Stop(pid: nat, immediate: bool, w: StopWorld) returns (r: Result<StopReport, string>)
      requires Valid()
      modifies this`children, this`kernel, this`reaped
      ensures Valid() && WaitEffect(pid, w.firstWait.failing + w.secondWait.failing)
      ensures r.Ok? ==> (r.value.complete <==> pid !in children && (devMode || ReadsEmpty(w.afterKill)))
      ensures r.Ok? && r.value.complete && pid in old(children) && w.firstWait.failing + w.secondWait.failing == {} ==>
                reaped == old(reaped) + [old(children)[pid].incarnation]
      ensures r.Ok? && pid in children ==> !kernel[pid].zombie && reaped == old(reaped)
      ensures r.Err? ==> !devMode && w.killFails && !ReadsEmpty(w.beforeKill)
      ensures immediate ==> (r.Err? <==> !devMode && w.killFails && !ReadsEmpty(w.beforeKill))
    {
      var exitCode;
      if immediate {
        if !devMode && !ReadsEmpty(w.beforeKill) && w.killFails {
          return Err("CGROUP_KILL_FAILED");
        }
        exitCode := WaitChild(pid, w.firstWait, w.exitCode);
      } else {
        exitCode := WaitChild(pid, w.firstWait, w.exitCode);
        if exitCode == NoCode {
          if devMode {
            exitCode := WaitChild(pid, w.secondWait, w.exitCode);
          } else if !ReadsEmpty(w.beforeKill) {
            if w.killFails {
              return Err("CGROUP_KILL_FAILED");
            }
            exitCode := WaitChild(pid, w.secondWait, w.exitCode);
          }
        }
      }
      var complete := (devMode || ReadsEmpty(w.afterKill)) && pid !in children;
      return Ok(StopReport(complete, exitCode));
    }
  }
}
