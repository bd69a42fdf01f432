/**
 The child table under concurrent launches, stops and recoveries.  Each lock
 section, each fork and each `waitpid` is one step.  A launch forks its child
 first and enters the row much later, or never; any number of threads may wait
 on any children meanwhile.  A thread may take the steps of a wait in any order,
 which covers every program of stops, recoveries and launches.
 */
module ConcurrentReaping {
  import opened Results
  import opened ChildTable

  /**
   Where a call of a wait is: between two polls, with the row it took out of the
   table, or with an answer of `waitpid` and the row still to be removed.
   */
  datatype Stage = Polling | Holding(row: TrackedChild) | Answered

  /** A call of a wait, and the launch it is meant for; a handle of an earlier daemon is for none. */
  datatype Waiter = Waiter(pid: nat, launch: Option<nat>, stage: Stage)

  /**
   Launches are numbered: `pids` lists the identifiers that the kernel gave them,
   `forked` the launches that have not entered their row yet, and `leaked` those
   that somebody gave up without reaping.
   */
  datatype State = State(
    table: map<nat, TrackedChild>,
    kernel: map<nat, Proc>,
    waiters: map<nat, Waiter>,
    forked: set<nat>,
    pids: seq<nat>,
    reaped: set<nat>,
    leaked: set<nat>)

  const START := State(map[], map[], map[], {}, [], {}, {})

  /**
   `AbortWait` is the `waitpid` of a launch that failed after its fork, and `Abandon`
   stands for a launch that fails without it or whose `waitpid` fails.
   */
  datatype Step =
    | Fork(pid: nat)
    | Insert(launch: nat, pidfd: bool)
    | AbortWait(launch: nat)
    | Abandon(launch: nat)
    | Exit(pid: nat)
    | Call(thread: nat, pid: nat, meant: Option<nat>)
    | Take(thread: nat)
    | PutBack(thread: nat)
    | Wait(thread: nat)
    | WaitFails(thread: nat)
    | TryWait(thread: nat)
    | TryWaitFails(thread: nat)
    | Remove(thread: nat)
    | Return(thread: nat)

  /** A launch that gives up its child, and a `waitpid` that fails on a child of this process. */
  predicate IsFault(step: Step) { step.Abandon? || step.WaitFails? || step.TryWaitFails? }

  /** Whether some thread has the row of this identifier in its hands, or an answer for it. */
  ghost predicate BeingWaited(s: State, pid: nat) {
    exists t :: t in s.waiters && s.waiters[t].pid == pid && s.waiters[t].stage != Polling
  }

  ghost predicate Exited(s: State, pid: nat) { pid in s.kernel ==> s.kernel[pid].zombie }

  predicate InStage(s: State, thread: nat, stage: Stage) {
    thread in s.waiters && s.waiters[thread].stage == stage
  }

  predicate Holds(s: State, thread: nat) { thread in s.waiters && s.waiters[thread].stage.Holding? }

  /** The thread polls and finds a row. */
  predicate Finds(s: State, thread: nat) { InStage(s, thread, Polling) && s.waiters[thread].pid in s.table }

  predicate IsLaunching(s: State, launch: nat) { launch in s.forked && launch < |s.pids| }

  ghost predicate Enabled(s: State, step: Step) {
    match step
    case Fork(pid) => pid !in s.kernel
    case Insert(l, _) => IsLaunching(s, l)
    case AbortWait(l) => IsLaunching(s, l) && Exited(s, s.pids[l])
    case Abandon(l) => IsLaunching(s, l)
    case Exit(pid) => pid in s.kernel
    case Call(t, pid, l) => t !in s.waiters && (l.Some? ==> l.value < |s.pids| && s.pids[l.value] == pid)
    case Take(t) => Finds(s, t)
    case PutBack(t) => Holds(s, t)
    case Wait(t) => Holds(s, t) && s.waiters[t].stage.row.pidfd && Exited(s, s.waiters[t].pid)
    case WaitFails(t) => Holds(s, t) && s.waiters[t].stage.row.pidfd
    case TryWait(t) => Finds(s, t) && Exited(s, s.waiters[t].pid)
    case TryWaitFails(t) => Finds(s, t)
    case Remove(t) => InStage(s, t, Answered)
    case Return(t) => InStage(s, t, Polling)
  }

  /** `waitpid` reaps the zombie with this identifier, if there is one. */
  function Waited(s: State, pid: nat): State {
    if pid in s.kernel then s.(kernel := s.kernel - {pid}, reaped := s.reaped + {s.kernel[pid].incarnation}) else s
  }

  function To(s: State, thread: nat, stage: Stage): State
    requires thread in s.waiters
  {
    s.(waiters := s.waiters[thread := s.waiters[thread].(stage := stage)])
  }

  ghost function Apply(s: State, step: Step): State
    requires Enabled(s, step)
  {
    match step
    case Fork(pid) =>
      var launch := |s.pids|;
      s.(kernel := s.kernel[pid := Proc(launch, false)], forked := s.forked + {launch}, pids := s.pids + [pid])
    case Insert(l, pidfd) => s.(table := s.table[s.pids[l] := TrackedChild(pidfd, l)], forked := s.forked - {l})
    case AbortWait(l) => Waited(s, s.pids[l]).(forked := s.forked - {l})
    case Abandon(l) => s.(forked := s.forked - {l}, leaked := s.leaked + {l})
    case Exit(pid) => s.(kernel := s.kernel[pid := s.kernel[pid].(zombie := true)])
    case Call(t, pid, l) => s.(waiters := s.waiters[t := Waiter(pid, l, Polling)])
    case Take(t) =>
      var pid := s.waiters[t].pid;
      To(s, t, Holding(s.table[pid])).(table := s.table - {pid})
    case PutBack(t) => To(s, t, Polling).(table := s.table[s.waiters[t].pid := s.waiters[t].stage.row])
    case Wait(t) => To(Waited(s, s.waiters[t].pid), t, Polling)
    case WaitFails(t) => To(s, t, Polling).(leaked := s.leaked + {s.waiters[t].stage.row.incarnation})
    case TryWait(t) => To(Waited(s, s.waiters[t].pid), t, Answered)
    case TryWaitFails(t) => To(s, t, Answered).(leaked := s.leaked + {s.table[s.waiters[t].pid].incarnation})
    case Remove(t) => To(s, t, Polling).(table := s.table - {s.waiters[t].pid})
    case Return(t) => s.(waiters := s.waiters - {t})
  }

  // ------------------------------------------------------------------ the census

  /** The kernel knows exactly the launches that were not reaped, each under its identifier. */
  ghost predicate Census(s: State) {
    && (forall pid :: pid in s.kernel ==>
          InKernel(s, s.kernel[pid].incarnation) && s.pids[s.kernel[pid].incarnation] == pid)
    && (forall l :: 0 <= l < |s.pids| && l !in s.reaped ==> InKernel(s, l))
    && (forall l :: l in s.reaped ==> l < |s.pids|)
  }

  ghost predicate InKernel(s: State, launch: nat) {
    && launch < |s.pids| && launch !in s.reaped
    && s.pids[launch] in s.kernel && s.kernel[s.pids[launch]].incarnation == launch
  }

  lemma CensusAfterWait(s: State, pid: nat)
    requires Census(s)
    ensures Census(Waited(s, pid))
  {
    var s' := Waited(s, pid);
    forall l | 0 <= l < |s'.pids| && l !in s'.reaped ensures InKernel(s', l) {
      assert InKernel(s, l);
    }
    forall p | p in s'.kernel ensures InKernel(s', s'.kernel[p].incarnation) && s'.pids[s'.kernel[p].incarnation] == p {
      assert InKernel(s, s.kernel[p].incarnation);
    }
  }

  lemma CensusAfterFork(s: State, pid: nat)
    requires Census(s) && Enabled(s, Fork(pid))
    ensures Census(Apply(s, Fork(pid)))
  {
    var s' := Apply(s, Fork(pid));
    assert InKernel(s', |s.pids|);
    forall l | 0 <= l < |s.pids| && l !in s.reaped ensures InKernel(s', l) {
      assert InKernel(s, l);
    }
    forall p | p in s'.kernel && p != pid
      ensures InKernel(s', s'.kernel[p].incarnation) && s'.pids[s'.kernel[p].incarnation] == p
    {
      assert InKernel(s, s.kernel[p].incarnation);
    }
  }

  lemma SameKernelKeepsCensus(s: State, s': State)
    requires Census(s) && s'.pids == s.pids && s'.reaped == s.reaped && s'.kernel.Keys == s.kernel.Keys
    requires forall pid :: pid in s.kernel ==> s'.kernel[pid].incarnation == s.kernel[pid].incarnation
    ensures Census(s')
  {
    forall l | 0 <= l < |s.pids| && l !in s.reaped ensures InKernel(s', l) {
      assert InKernel(s, l);
    }
    forall p | p in s'.kernel ensures InKernel(s', s'.kernel[p].incarnation) {
      assert InKernel(s, s.kernel[p].incarnation);
    }
  }

  lemma CensusStays(s: State, step: Step)
    requires Census(s) && Enabled(s, step)
    ensures Census(Apply(s, step))
  {
    match step
    case Fork(pid) => CensusAfterFork(s, pid);
    case AbortWait(l) =>
      CensusAfterWait(s, s.pids[l]);
      SameKernelKeepsCensus(Waited(s, s.pids[l]), Apply(s, step));
    case Wait(t) =>
      CensusAfterWait(s, s.waiters[t].pid);
      SameKernelKeepsCensus(Waited(s, s.waiters[t].pid), Apply(s, step));
    case TryWait(t) =>
      CensusAfterWait(s, s.waiters[t].pid);
      SameKernelKeepsCensus(Waited(s, s.waiters[t].pid), Apply(s, step));
    case _ => SameKernelKeepsCensus(s, Apply(s, step));
  }

  // ------------------------------------------------------------ where a child is

  ghost predicate RowsKnown(s: State) {
    && (forall pid :: pid in s.table ==> s.table[pid].incarnation < |s.pids|)
    && (forall t :: Holds(s, t) ==> s.waiters[t].stage.row.incarnation < |s.pids|)
  }

  ghost predicate CallsKnown(s: State) {
    forall t :: t in s.waiters && s.waiters[t].launch.Some? ==> IsHandle(s, s.waiters[t])
  }

  ghost predicate LaunchesKnown(s: State) {
    && (forall l :: l in s.forked ==> l < |s.pids|)
    && (forall l :: l in s.leaked ==> l < |s.pids|)
  }

  /** Rows, calls and launches in progress refer to launches that took place. */
  ghost predicate Known(s: State) { RowsKnown(s) && CallsKnown(s) && LaunchesKnown(s) }

  ghost predicate IsHandle(s: State, w: Waiter)
    requires w.launch.Some?
  {
    w.launch.value < |s.pids| && s.pids[w.launch.value] == w.pid
  }

  ghost predicate HoldsRowOf(s: State, thread: nat, pid: nat) { Holds(s, thread) && s.waiters[thread].pid == pid }

  /** The child is in the table, in the hands of a waiting thread, or in those of its launch. */
  ghost predicate Tracked(s: State, pid: nat)
    requires pid in s.kernel
  {
    var launch := s.kernel[pid].incarnation;
    || (pid in s.table && s.table[pid].incarnation == launch)
    || (exists t :: HoldsRowOf(s, t, pid) && s.waiters[t].stage.row.incarnation == launch)
    || launch in s.forked
  }

  /** Every row for a live child is its own, and nobody has an answer for it unless it was given up. */
  ghost predicate OwnRows(s: State, pid: nat)
    requires pid in s.kernel
  {
    var launch := s.kernel[pid].incarnation;
    && (pid in s.table ==> s.table[pid].incarnation == launch)
    && (forall t :: HoldsRowOf(s, t, pid) ==> s.waiters[t].stage.row.incarnation == launch)
    && (forall t :: InStage(s, t, Answered) && s.waiters[t].pid == pid ==> launch in s.leaked)
  }

  /** It is in one of the three places only. */
  ghost predicate OnePlace(s: State, pid: nat)
    requires pid in s.kernel
  {
    && (pid in s.table ==> s.kernel[pid].incarnation !in s.forked && forall t :: !HoldsRowOf(s, t, pid))
    && (forall t :: HoldsRowOf(s, t, pid) ==> s.kernel[pid].incarnation !in s.forked)
    && (forall t, u :: HoldsRowOf(s, t, pid) && HoldsRowOf(s, u, pid) ==> t == u)
  }

  ghost predicate Fits(s: State, pid: nat)
    requires pid in s.kernel
  {
    OwnRows(s, pid) && OnePlace(s, pid) && (Tracked(s, pid) || s.kernel[pid].incarnation in s.leaked)
  }

  ghost predicate Inv(s: State) {
    && Census(s) && Known(s)
    && (forall pid :: pid in s.kernel ==> Fits(s, pid))
    && (forall l :: l in s.forked ==> InKernel(s, l))
  }

  /** The kernel reuses an identifier only while no thread is inside a wait on it and no row is left for it. */
  ghost predicate Quiet(s: State, step: Step) {
    step.Fork? ==> !BeingWaited(s, step.pid) && step.pid !in s.table
  }

  lemma RowsStayKnown(s: State, step: Step)
    requires RowsKnown(s) && Enabled(s, step)
    ensures RowsKnown(Apply(s, step))
  {
  }

  lemma CallsStayKnown(s: State, step: Step)
    requires CallsKnown(s) && Enabled(s, step)
    ensures CallsKnown(Apply(s, step))
  {
    var s' := Apply(s, step);
    forall t | t in s'.waiters && s'.waiters[t].launch.Some? ensures IsHandle(s', s'.waiters[t]) {
      if t in s.waiters {
        assert IsHandle(s, s.waiters[t]);
      }
    }
  }

  lemma LaunchesStayKnown(s: State, step: Step)
    requires RowsKnown(s) && LaunchesKnown(s) && Enabled(s, step)
    ensures LaunchesKnown(Apply(s, step))
  {
  }

  /** Nothing that concerns one identifier changed, except that its child may have been given up. */
  ghost predicate SameFor(s: State, s': State, pid: nat)
    requires pid in s.kernel
  {
    && pid in s'.kernel && s'.kernel[pid].incarnation == s.kernel[pid].incarnation
    && (pid in s.table <==> pid in s'.table) && (pid in s.table ==> s'.table[pid] == s.table[pid])
    && (forall t :: t in s.waiters && s.waiters[t].pid == pid && s.waiters[t].stage != Polling ==>
          t in s'.waiters && s'.waiters[t] == s.waiters[t])
    && (forall t :: t in s'.waiters && s'.waiters[t].pid == pid && s'.waiters[t].stage != Polling ==>
          t in s.waiters && s'.waiters[t] == s.waiters[t])
    && (s.kernel[pid].incarnation in s.forked <==> s.kernel[pid].incarnation in s'.forked)
    && s.leaked <= s'.leaked
  }

  lemma SameForFits(s: State, s': State, pid: nat)
    requires pid in s.kernel && SameFor(s, s', pid) && Fits(s, pid)
    ensures Fits(s', pid)
  {
    forall t ensures HoldsRowOf(s, t, pid) <==> HoldsRowOf(s', t, pid) {
    }
  }

  /** The identifier a step is about. */
  ghost function Subject(s: State, step: Step): nat
    requires Enabled(s, step)
  {
    match step
    case Fork(pid) => pid
    case Insert(l, _) => s.pids[l]
    case AbortWait(l) => s.pids[l]
    case Abandon(l) => s.pids[l]
    case Exit(pid) => pid
    case Call(_, pid, _) => pid
    case _ => s.waiters[step.thread].pid
  }

  predicate IsThreadStep(step: Step) {
    !step.Fork? && !step.Insert? && !step.AbortWait? && !step.Abandon? && !step.Exit?
  }

  lemma LaunchLeavesOthers(s: State, step: Step, pid: nat)
    requires Census(s) && Enabled(s, step) && !IsThreadStep(step) && pid in s.kernel && pid != Subject(s, step)
    ensures SameFor(s, Apply(s, step), pid)
  {
    assert InKernel(s, s.kernel[pid].incarnation);
    match step
    case Fork(_) =>
    case Insert(_, _) =>
    case AbortWait(_) =>
    case Abandon(_) =>
    case Exit(_) =>
  }

  lemma ThreadLeavesOthers(s: State, step: Step, pid: nat)
    requires Enabled(s, step) && IsThreadStep(step) && pid in s.kernel && pid != Subject(s, step)
    ensures SameFor(s, Apply(s, step), pid)
  {
    match step
    case Call(_, _, _) =>
    case Take(_) =>
    case PutBack(_) =>
    case Wait(_) =>
    case WaitFails(_) =>
    case TryWait(_) =>
    case TryWaitFails(_) =>
    case Remove(_) =>
    case Return(_) =>
  }

  /** A step leaves every other child where it is. */
  lemma OthersFit(s: State, step: Step, pid: nat)
    requires Inv(s) && Enabled(s, step) && pid in Apply(s, step).kernel && pid != Subject(s, step)
    ensures Fits(Apply(s, step), pid)
  {
    if IsThreadStep(step) {
      ThreadLeavesOthers(s, step, pid);
    } else {
      LaunchLeavesOthers(s, step, pid);
    }
    SameForFits(s, Apply(s, step), pid);
  }

  lemma ForkFits(s: State, pid: nat)
    requires Inv(s) && Enabled(s, Fork(pid)) && Quiet(s, Fork(pid))
    ensures Fits(Apply(s, Fork(pid)), pid)
  {
    var s' := Apply(s, Fork(pid));
    forall t ensures !HoldsRowOf(s', t, pid) && !(InStage(s', t, Answered) && s'.waiters[t].pid == pid) {
      assert s'.waiters == s.waiters;
    }
  }

  lemma InsertFits(s: State, l: nat, pidfd: bool)
    requires Inv(s) && Enabled(s, Insert(l, pidfd))
    ensures s.pids[l] in s.kernel && Fits(Apply(s, Insert(l, pidfd)), s.pids[l])
  {
    assert InKernel(s, l) && Fits(s, s.pids[l]);
    var s' := Apply(s, Insert(l, pidfd));
    forall t ensures HoldsRowOf(s', t, s.pids[l]) <==> HoldsRowOf(s, t, s.pids[l]) {
    }
  }

  lemma AbandonFits(s: State, l: nat)
    requires Inv(s) && Enabled(s, Abandon(l))
    ensures s.pids[l] in s.kernel && Fits(Apply(s, Abandon(l)), s.pids[l])
  {
    assert InKernel(s, l) && Fits(s, s.pids[l]);
    var s' := Apply(s, Abandon(l));
    forall t ensures HoldsRowOf(s', t, s.pids[l]) <==> HoldsRowOf(s, t, s.pids[l]) {
    }
  }

  lemma TakeFits(s: State, t: nat)
    requires Inv(s) && Enabled(s, Take(t)) && s.waiters[t].pid in s.kernel
    ensures Fits(Apply(s, Take(t)), s.waiters[t].pid)
  {
    var pid, s' := s.waiters[t].pid, Apply(s, Take(t));
    assert Fits(s, pid);
    assert HoldsRowOf(s', t, pid);
    forall u | u != t ensures HoldsRowOf(s', u, pid) <==> HoldsRowOf(s, u, pid) {
    }
  }

  lemma PutBackFits(s: State, t: nat)
    requires Inv(s) && Enabled(s, PutBack(t)) && s.waiters[t].pid in s.kernel
    ensures Fits(Apply(s, PutBack(t)), s.waiters[t].pid)
  {
    var pid, s' := s.waiters[t].pid, Apply(s, PutBack(t));
    assert Fits(s, pid);
    assert HoldsRowOf(s, t, pid);
    forall u ensures !HoldsRowOf(s', u, pid) {
      assert HoldsRowOf(s', u, pid) ==> HoldsRowOf(s, u, pid);
    }
  }

  lemma WaitFailsFits(s: State, t: nat)
    requires Inv(s) && Enabled(s, WaitFails(t)) && s.waiters[t].pid in s.kernel
    ensures Fits(Apply(s, WaitFails(t)), s.waiters[t].pid)
  {
    var pid, s' := s.waiters[t].pid, Apply(s, WaitFails(t));
    assert Fits(s, pid);
    assert HoldsRowOf(s, t, pid);
    forall u | HoldsRowOf(s', u, pid) ensures HoldsRowOf(s, u, pid) {
    }
  }

  lemma TryWaitFailsFits(s: State, t: nat)
    requires Inv(s) && Enabled(s, TryWaitFails(t)) && s.waiters[t].pid in s.kernel
    ensures Fits(Apply(s, TryWaitFails(t)), s.waiters[t].pid)
  {
    var pid, s' := s.waiters[t].pid, Apply(s, TryWaitFails(t));
    assert Fits(s, pid);
    forall u | HoldsRowOf(s', u, pid) ensures HoldsRowOf(s, u, pid) {
    }
  }

  lemma RemoveFits(s: State, t: nat)
    requires Inv(s) && Enabled(s, Remove(t)) && s.waiters[t].pid in s.kernel
    ensures Fits(Apply(s, Remove(t)), s.waiters[t].pid)
  {
    var pid, s' := s.waiters[t].pid, Apply(s, Remove(t));
    assert Fits(s, pid);
    forall u ensures HoldsRowOf(s', u, pid) <==> HoldsRowOf(s, u, pid) {
    }
  }

  /** Exits, new calls and returns leave every child where it is. */
  lemma NothingMoves(s: State, step: Step, pid: nat)
    requires Inv(s) && Enabled(s, step) && (step.Exit? || step.Call? || step.Return?) && pid in s.kernel
    ensures Fits(Apply(s, step), pid)
  {
    assert SameFor(s, Apply(s, step), pid);
    SameForFits(s, Apply(s, step), pid);
  }

  lemma SubjectFits(s: State, step: Step)
    requires Inv(s) && Enabled(s, step) && Quiet(s, step) && Subject(s, step) in Apply(s, step).kernel
    ensures Fits(Apply(s, step), Subject(s, step))
  {
    match step
    case Fork(pid) => ForkFits(s, pid);
    case Insert(l, pidfd) => InsertFits(s, l, pidfd);
    case AbortWait(_) =>
    case Abandon(l) => AbandonFits(s, l);
    case Exit(pid) => NothingMoves(s, step, pid);
    case Call(_, pid, _) => NothingMoves(s, step, pid);
    case Take(t) => TakeFits(s, t);
    case PutBack(t) => PutBackFits(s, t);
    case Wait(t) =>
    case WaitFails(t) => WaitFailsFits(s, t);
    case TryWait(t) =>
    case TryWaitFails(t) => TryWaitFailsFits(s, t);
    case Remove(t) => RemoveFits(s, t);
    case Return(t) => NothingMoves(s, step, s.waiters[t].pid);
  }

  /** A wait on an identifier does not reap the child of a launch in progress. */
  lemma LaunchKeepsChild(s: State, step: Step, l: nat)
    requires Inv(s) && Enabled(s, step) && l in Apply(s, step).forked && l in s.forked
    ensures InKernel(Apply(s, step), l)
  {
    assert InKernel(s, l) && Fits(s, s.pids[l]);
    match step
    case AbortWait(k) => assert InKernel(s, k);
    case Wait(t) => assert HoldsRowOf(s, t, s.waiters[t].pid);
    case _ =>
  }

  /** Every step keeps each unreaped child in one place, or given up. */
  lemma StepKeepsInv(s: State, step: Step)
    requires Inv(s) && Enabled(s, step) && Quiet(s, step)
    ensures Inv(Apply(s, step))
  {
    var s' := Apply(s, step);
    CensusStays(s, step);
    RowsStayKnown(s, step);
    CallsStayKnown(s, step);
    LaunchesStayKnown(s, step);
    forall pid | pid in s'.kernel ensures Fits(s', pid) {
      if pid == Subject(s, step) {
        SubjectFits(s, step);
      } else {
        OthersFit(s, step, pid);
      }
    }
    forall l | l in s'.forked ensures InKernel(s', l) {
      if l in s.forked {
        LaunchKeepsChild(s, step, l);
      }
    }
  }

  // ------------------------------------------------------------------------ runs

  /** The states along some steps: each step is enabled where it is taken. */
  ghost predicate IsPath(states: seq<State>, steps: seq<Step>) {
    && |states| == |steps| + 1
    && forall i :: 0 <= i < |steps| ==> Enabled(states[i], steps[i]) && states[i + 1] == Apply(states[i], steps[i])
  }

  ghost predicate IsRun(states: seq<State>, steps: seq<Step>) { IsPath(states, steps) && states[0] == START }

  ghost predicate AllQuiet(states: seq<State>, steps: seq<Step>)
    requires |states| == |steps| + 1
  {
    forall i :: 0 <= i < |steps| ==> Quiet(states[i], steps[i])
  }

  lemma {:induction false} PathKeepsInv(states: seq<State>, steps: seq<Step>, i: nat)
    requires IsPath(states, steps) && AllQuiet(states, steps) && Inv(states[0]) && i < |states|
    ensures Inv(states[i])
  {
    if i > 0 {
      PathKeepsInv(states, steps, i - 1);
      StepKeepsInv(states[i - 1], steps[i - 1]);
    }
  }

  /**
   In every run without such reuse, every unreaped child is in the table, in one
   waiting thread's hands or in those of its launch, and in one of these places
   only, unless somebody gave it up.
   */
  lemma NoChildIsLost(states: seq<State>, steps: seq<Step>, i: nat)
    requires IsRun(states, steps) && AllQuiet(states, steps) && i < |states|
    ensures Inv(states[i])
  {
    PathKeepsInv(states, steps, i);
  }

  /** Nothing is given up without a fault. */
  lemma {:induction false} NothingLeaks(states: seq<State>, steps: seq<Step>, i: nat)
    requires IsRun(states, steps) && i < |states| && forall k :: 0 <= k < i ==> !IsFault(steps[k])
    ensures states[i].leaked == {}
  {
    if i > 0 {
      NothingLeaks(states, steps, i - 1);
      assert !IsFault(steps[i - 1]);
    }
  }

  /**
   An absent row, as a stop reports it, means that the child is reaped, unless another
   thread holds the row, the launch has not entered it yet, or the child was given up.
   */
  lemma AbsentRowMeansReaped(states: seq<State>, steps: seq<Step>, i: nat, pid: nat)
    requires IsRun(states, steps) && AllQuiet(states, steps) && i < |states| && pid !in states[i].table
    ensures var s := states[i];
            || pid !in s.kernel
            || (exists t :: HoldsRowOf(s, t, pid))
            || s.kernel[pid].incarnation in s.forked
            || s.kernel[pid].incarnation in s.leaked
  {
    NoChildIsLost(states, steps, i);
    if pid in states[i].kernel {
      assert Fits(states[i], pid);
    }
  }

  // ------------------------------------------------------------ whom a wait reaps

  /** A `waitpid` that reaps a child. */
  ghost predicate Reaps(s: State, step: Step) {
    Enabled(s, step) && (step.Wait? || step.TryWait? || step.AbortWait?) && Subject(s, step) in s.kernel
  }

  ghost function Reaped(s: State, step: Step): nat
    requires Reaps(s, step)
  {
    s.kernel[Subject(s, step)].incarnation
  }

  /** The launch that the row of the wait was made for, or the launch that aborts. */
  ghost function RowLaunch(s: State, step: Step): nat
    requires Reaps(s, step)
  {
    match step
    case Wait(t) => s.waiters[t].stage.row.incarnation
    case TryWait(t) => s.table[s.waiters[t].pid].incarnation
    case AbortWait(l) => l
  }

  lemma ReapsByRow(s: State, step: Step)
    requires Inv(s) && Reaps(s, step)
    ensures Reaped(s, step) == RowLaunch(s, step) && Reaped(s, step) !in s.reaped
  {
    assert InKernel(s, Reaped(s, step)) && Fits(s, Subject(s, step));
    match step
    case Wait(t) => assert HoldsRowOf(s, t, s.waiters[t].pid);
    case TryWait(t) =>
    case AbortWait(l) => assert InKernel(s, l);
  }

  /** In every run without such reuse, a wait that reaps takes the child its own row was made for. */
  lemma WaitReapsItsOwnChild(states: seq<State>, steps: seq<Step>, i: nat)
    requires IsRun(states, steps) && AllQuiet(states, steps) && i < |steps| && Reaps(states[i], steps[i])
    ensures Reaped(states[i], steps[i]) == RowLaunch(states[i], steps[i])
    ensures RowLaunch(states[i], steps[i]) !in states[i].reaped
    ensures states[i + 1].reaped == states[i].reaped + {RowLaunch(states[i], steps[i])}
  {
    NoChildIsLost(states, steps, i);
    ReapsByRow(states[i], steps[i]);
  }

  lemma {:induction false} ReapedGrows(states: seq<State>, steps: seq<Step>, i: nat, j: nat)
    requires IsRun(states, steps) && i <= j < |states|
    ensures states[i].reaped <= states[j].reaped
  {
    if i < j {
      ReapedGrows(states, steps, i, j - 1);
      assert states[j] == Apply(states[j - 1], steps[j - 1]);
    }
  }

  /** In such a run no two waits reap for the same launch. */
  lemma ReapedAtMostOnce(states: seq<State>, steps: seq<Step>, i: nat, j: nat)
    requires IsRun(states, steps) && AllQuiet(states, steps) && i < j < |steps|
    requires Reaps(states[i], steps[i]) && Reaps(states[j], steps[j])
    ensures RowLaunch(states[i], steps[i]) != RowLaunch(states[j], steps[j])
  {
    WaitReapsItsOwnChild(states, steps, i);
    WaitReapsItsOwnChild(states, steps, j);
    ReapedGrows(states, steps, i + 1, j);
  }

  lemma {:induction false} CensusAlongRun(states: seq<State>, steps: seq<Step>, i: nat)
    requires IsRun(states, steps) && i < |states|
    ensures Census(states[i]) && CallsKnown(states[i])
  {
    if i > 0 {
      CensusAlongRun(states, steps, i - 1);
      CensusStays(states[i - 1], steps[i - 1]);
      CallsStayKnown(states[i - 1], steps[i - 1]);
    }
  }

  /**
   In every run, reuse or not, a wait that reaps takes the child of the launch it was
   called for exactly when that launch was not reaped before.  A handle of an earlier
   daemon is for no launch, so a wait on it only ever reaps strangers.
   */
  lemma WaitReapsForItsCaller(states: seq<State>, steps: seq<Step>, i: nat)
    requires IsRun(states, steps) && i < |steps| && Reaps(states[i], steps[i]) && IsThreadStep(steps[i])
    ensures var meant := states[i].waiters[steps[i].thread].launch;
            meant == Some(Reaped(states[i], steps[i])) <==> meant.Some? && meant.value !in states[i].reaped
  {
    CensusAlongRun(states, steps, i);
    var s, w := states[i], states[i].waiters[steps[i].thread];
    assert InKernel(s, Reaped(s, steps[i]));
    if w.launch.Some? && w.launch.value !in s.reaped {
      assert IsHandle(s, w) && InKernel(s, w.launch.value);
    }
  }

  // --------------------------------------------------------------- reuse is the risk

  /** A step that reaps the child with this identifier by a foreign row, or leaves it with nobody. */
  ghost predicate Harms(s: State, step: Step, pid: nat) {
    && Enabled(s, step)
    && ( || (Reaps(s, step) && Subject(s, step) == pid && Reaped(s, step) != RowLaunch(s, step))
         || (pid in Apply(s, step).kernel && IsLost(Apply(s, step), pid)))
  }

  ghost predicate IsLost(s: State, pid: nat)
    requires pid in s.kernel
  {
    !Tracked(s, pid) && s.kernel[pid].incarnation !in s.leaked
  }

  /** Quiet steps without faults that start in `s` and end in harm. */
  ghost predicate LeadsToHarm(s: State, states: seq<State>, steps: seq<Step>, pid: nat) {
    && IsPath(states, steps) && AllQuiet(states, steps) && states[0] == s && steps != []
    && (forall i :: 0 <= i < |steps| ==> !IsFault(steps[i]))
    && Harms(states[|steps| - 1], steps[|steps| - 1], pid)
  }

  lemma {:induction false} FreshThread(threads: set<nat>) returns (t: nat)
    ensures forall u :: u in threads ==> u < t
  {
    if threads == {} {
      t := 0;
    } else {
      var u :| u in threads;
      var others := FreshThread(threads - {u});
      t := if u < others then others else u + 1;
      assert forall v :: v in threads && v != u ==> v in threads - {u};
    }
  }

  ghost predicate AtRisk(s: State, pid: nat) { exists states, steps :: LeadsToHarm(s, states, steps, pid) }

  lemma HarmLater(s: State, step: Step, pid: nat)
    requires Enabled(s, step) && Quiet(s, step) && !IsFault(step) && AtRisk(Apply(s, step), pid)
    ensures AtRisk(s, pid)
  {
    var states, steps :| LeadsToHarm(Apply(s, step), states, steps, pid);
    assert LeadsToHarm(s, [s] + states, [step] + steps, pid);
  }

  lemma HarmNow(s: State, step: Step, pid: nat)
    requires Harms(s, step, pid) && Quiet(s, step) && !IsFault(step)
    ensures AtRisk(s, pid)
  {
    assert LeadsToHarm(s, [s, Apply(s, step)], [step], pid);
  }

  /** A foreign row for the identifier lets the next wait on it reap the child. */
  lemma ForeignRowHarms(s: State, pid: nat, t: nat)
    requires pid in s.kernel && pid in s.table && s.table[pid].incarnation != s.kernel[pid].incarnation
    requires InStage(s, t, Polling) && s.waiters[t].pid == pid
    ensures AtRisk(s, pid)
  {
    HarmNow(Apply(s, Exit(pid)), TryWait(t), pid);
    HarmLater(s, Exit(pid), pid);
  }

  lemma StaleRowHarms(s: State, pid: nat)
    requires Inv(s) && Enabled(s, Fork(pid)) && pid in s.table
    ensures AtRisk(Apply(s, Fork(pid)), pid)
  {
    var t := FreshThread(s.waiters.Keys);
    var forked := Apply(s, Fork(pid));
    ForeignRowHarms(Apply(forked, Call(t, pid, None)), pid, t);
    HarmLater(forked, Call(t, pid, None), pid);
  }

  lemma HeldRowHarms(s: State, pid: nat, t: nat)
    requires Inv(s) && Enabled(s, Fork(pid)) && HoldsRowOf(s, t, pid)
    ensures AtRisk(Apply(s, Fork(pid)), pid)
  {
    var forked := Apply(s, Fork(pid));
    ForeignRowHarms(Apply(forked, PutBack(t)), pid, t);
    HarmLater(forked, PutBack(t), pid);
  }

  /** A thread with an old answer removes the new row. */
  lemma AnswerHarms(s: State, pid: nat, t: nat)
    requires Inv(s) && Enabled(s, Fork(pid)) && InStage(s, t, Answered) && s.waiters[t].pid == pid
    ensures AtRisk(Apply(s, Fork(pid)), pid)
  {
    var launch := |s.pids|;
    var forked := Apply(s, Fork(pid));
    var inserted := Apply(forked, Insert(launch, false));
    var removed := Apply(inserted, Remove(t));
    forall u ensures !(HoldsRowOf(removed, u, pid) && removed.waiters[u].stage.row.incarnation == launch) {
      assert Holds(removed, u) ==> Holds(s, u);
    }
    HarmNow(inserted, Remove(t), pid);
    HarmLater(forked, Insert(launch, false), pid);
  }

  /**
   A fork that reuses an identifier puts the new child at risk exactly when some thread
   is inside a wait on the identifier, or a row is left for it.
   */
  lemma ReuseIsTheRisk(s: State, pid: nat)
    requires Inv(s) && Enabled(s, Fork(pid))
    ensures BeingWaited(s, pid) || pid in s.table <==> AtRisk(Apply(s, Fork(pid)), pid)
  {
    if pid in s.table {
      StaleRowHarms(s, pid);
    } else if BeingWaited(s, pid) {
      var t :| t in s.waiters && s.waiters[t].pid == pid && s.waiters[t].stage != Polling;
      if s.waiters[t].stage == Answered {
        AnswerHarms(s, pid, t);
      } else {
        HeldRowHarms(s, pid, t);
      }
    } else {
      StepKeepsInv(s, Fork(pid));
      forall states, steps | LeadsToHarm(Apply(s, Fork(pid)), states, steps, pid) ensures false {
        PathIsHarmless(states, steps, pid);
      }
    }
  }

  lemma PathIsHarmless(states: seq<State>, steps: seq<Step>, pid: nat)
    requires IsPath(states, steps) && AllQuiet(states, steps) && Inv(states[0]) && steps != []
    ensures !Harms(states[|steps| - 1], steps[|steps| - 1], pid)
  {
    var s, step := states[|steps| - 1], steps[|steps| - 1];
    PathKeepsInv(states, steps, |steps| - 1);
    StepKeepsInv(s, step);
    if Reaps(s, step) {
      ReapsByRow(s, step);
    }
    if pid in Apply(s, step).kernel {
      assert Fits(Apply(s, step), pid);
    }
  }

  // -------------------------------------------------------- the exceptions are real

  /** How forks reuse identifiers: anyhow, not during a wait, or quietly. */
  datatype Manner = Anyhow | Calm | Quietly

  ghost predicate Allowed(m: Manner, s: State, step: Step) {
    match m
    case Anyhow => true
    case Calm => step.Fork? ==> !BeingWaited(s, step.pid)
    case Quietly => Quiet(s, step)
  }

  ghost predicate RunsTo(m: Manner, states: seq<State>, steps: seq<Step>, s: State) {
    && IsRun(states, steps) && states[|steps|] == s
    && forall i :: 0 <= i < |steps| ==> Allowed(m, states[i], steps[i])
  }

  /** Some run in this manner ends in the state. */
  ghost predicate Reachable(m: Manner, s: State) { exists states, steps :: RunsTo(m, states, steps, s) }

  lemma StartIsReachable(m: Manner)
    ensures Reachable(m, START)
  {
    assert RunsTo(m, [START], [], START);
  }

  lemma StepIsReachable(m: Manner, s: State, step: Step)
    requires Reachable(m, s) && Enabled(s, step) && Allowed(m, s, step)
    ensures Reachable(m, Apply(s, step))
  {
    var states, steps :| RunsTo(m, states, steps, s);
    assert RunsTo(m, states + [Apply(s, step)], steps + [step], Apply(s, step));
  }

  /** The first launch before it enters its row: alive, and nobody waits on it. */
  lemma LaunchHasNoRow() returns (s: State)
    ensures Reachable(Quietly, s) && 7 in s.kernel && !s.kernel[7].zombie && 7 !in s.table && s.waiters == map[]
  {
    StartIsReachable(Quietly);
    StepIsReachable(Quietly, START, Fork(7));
    s := Apply(START, Fork(7));
  }

  /** Alive, without a row, and in nobody's hands. */
  ghost predicate Forgotten(s: State, pid: nat) {
    pid in s.kernel && pid !in s.table && !BeingWaited(s, pid) && s.kernel[pid].incarnation !in s.forked
  }

  /** A launch that gives up after its fork, such as on a poisoned lock, leaves a running child that nobody tracks. */
  lemma AbandonedChildLives() returns (s: State)
    ensures Reachable(Quietly, s) && Forgotten(s, 7) && !s.kernel[7].zombie
  {
    StartIsReachable(Quietly);
    StepIsReachable(Quietly, START, Fork(7));
    var s1 := Apply(START, Fork(7));
    StepIsReachable(Quietly, s1, Abandon(0));
    s := Apply(s1, Abandon(0));
  }

  const ROW := TrackedChild(false, 0)

  const FIRST := Waiter(7, Some(0), Polling)

  /** Two calls for the only launch, whose child has exited. */
  const CALLED := State(map[7 := ROW], map[7 := Proc(0, true)], map[0 := FIRST, 1 := FIRST], {}, [7], {}, {})

  /** The first of them has reaped it and has not removed the row yet. */
  const ANSWERED := State(
    map[7 := ROW], map[], map[0 := FIRST.(stage := Answered), 1 := FIRST], {}, [7], {0}, {})

  lemma CalledIsReachable(m: Manner)
    ensures Reachable(m, CALLED)
  {
    StartIsReachable(m);
    StepIsReachable(m, START, Fork(7));
    var s1 := State(map[], map[7 := Proc(0, false)], map[], {0}, [7], {}, {});
    assert Apply(START, Fork(7)) == s1;
    StepIsReachable(m, s1, Insert(0, false));
    var s2 := State(map[7 := ROW], map[7 := Proc(0, false)], map[], {}, [7], {}, {});
    assert Apply(s1, Insert(0, false)) == s2;
    StepIsReachable(m, s2, Exit(7));
    var s3 := s2.(kernel := map[7 := Proc(0, true)]);
    assert Apply(s2, Exit(7)) == s3;
    StepIsReachable(m, s3, Call(0, 7, Some(0)));
    var s4 := s3.(waiters := map[0 := FIRST]);
    assert Apply(s3, Call(0, 7, Some(0))) == s4;
    StepIsReachable(m, s4, Call(1, 7, Some(0)));
    assert Apply(s4, Call(1, 7, Some(0))) == CALLED;
  }

  lemma AnsweredIsReachable(m: Manner)
    ensures Reachable(m, ANSWERED)
  {
    CalledIsReachable(m);
    StepIsReachable(m, CALLED, TryWait(0));
    assert Apply(CALLED, TryWait(0)) == ANSWERED;
  }

  /** A `waitpid` that fails on an exited child drops its row all the same. */
  lemma FailedWaitForgetsChild() returns (s: State)
    ensures Reachable(Quietly, s) && Forgotten(s, 7) && s.kernel[7].zombie && 0 !in s.reaped
  {
    CalledIsReachable(Quietly);
    StepIsReachable(Quietly, CALLED, TryWaitFails(0));
    var s1 := Apply(CALLED, TryWaitFails(0));
    StepIsReachable(Quietly, s1, Remove(0));
    s := Apply(s1, Remove(0));
  }

  /** A launch between another thread's `waitpid` and its removal loses the new child. */
  lemma ReuseLosesChild() returns (s: State)
    ensures Reachable(Anyhow, s) && 7 in s.kernel && !s.kernel[7].zombie && IsLost(s, 7)
    ensures 7 !in s.table && !BeingWaited(s, 7)
  {
    AnsweredIsReachable(Anyhow);
    StepIsReachable(Anyhow, ANSWERED, Fork(7));
    var s1 := Apply(ANSWERED, Fork(7));
    StepIsReachable(Anyhow, s1, Insert(1, false));
    var s2 := Apply(s1, Insert(1, false));
    StepIsReachable(Anyhow, s2, Remove(0));
    s := Apply(s2, Remove(0));
  }

  /** The wait reaps by a row whose launch was reaped before. */
  ghost predicate ReapsStranger(s: State, step: Step) {
    Reaps(s, step) && Reaped(s, step) != RowLaunch(s, step) && RowLaunch(s, step) in s.reaped
  }

  /** A stale row put back over the row of a new child lets a wait by that row reap the new child. */
  lemma ReuseReapsStranger() returns (s: State, step: Step)
    ensures Reachable(Anyhow, s) && ReapsStranger(s, step)
  {
    AnsweredIsReachable(Anyhow);
    StepIsReachable(Anyhow, ANSWERED, Take(1));
    var s1 := Apply(ANSWERED, Take(1));
    StepIsReachable(Anyhow, s1, Fork(7));
    var s2 := Apply(s1, Fork(7));
    StepIsReachable(Anyhow, s2, Insert(1, false));
    var s3 := Apply(s2, Insert(1, false));
    StepIsReachable(Anyhow, s3, PutBack(1));
    var s4 := Apply(s3, PutBack(1));
    StepIsReachable(Anyhow, s4, Exit(7));
    s, step := Apply(s4, Exit(7)), TryWait(1);
  }

  /**
   Even if no identifier is reused during a wait: a stale row that was put back after
   the removal lets a wait reap the child of a launch that has not entered its row.
   */
  lemma StaleRowReapsStranger() returns (s: State, step: Step)
    ensures Reachable(Calm, s) && ReapsStranger(s, step) && Reaped(s, step) in s.forked
  {
    AnsweredIsReachable(Calm);
    StepIsReachable(Calm, ANSWERED, Take(1));
    var s1 := Apply(ANSWERED, Take(1));
    StepIsReachable(Calm, s1, Remove(0));
    var s2 := Apply(s1, Remove(0));
    StepIsReachable(Calm, s2, PutBack(1));
    var s3 := State(map[7 := ROW], map[], map[0 := FIRST, 1 := FIRST], {}, [7], {0}, {});
    assert Apply(s2, PutBack(1)) == s3;
    StepIsReachable(Calm, s3, Fork(7));
    var s4 := Apply(s3, Fork(7));
    StepIsReachable(Calm, s4, Exit(7));
    s, step := Apply(s4, Exit(7)), TryWait(1);
  }

  /**
   Even in a quiet run: a call for a launch that another call has reaped goes on polling
   and reaps the next launch with the same identifier, by that launch's own row.
   */
  lemma CallerReapsStranger() returns (s: State, step: Step)
    ensures Reachable(Quietly, s) && Reaps(s, step) && step.TryWait?
    ensures s.waiters[step.thread].launch == Some(0) && Reaped(s, step) == RowLaunch(s, step) == 1
  {
    AnsweredIsReachable(Quietly);
    StepIsReachable(Quietly, ANSWERED, Remove(0));
    var s1 := State(map[], map[], map[0 := FIRST, 1 := FIRST], {}, [7], {0}, {});
    assert Apply(ANSWERED, Remove(0)) == s1;
    StepIsReachable(Quietly, s1, Fork(7));
    var s2 := Apply(s1, Fork(7));
    StepIsReachable(Quietly, s2, Insert(1, false));
    var s3 := Apply(s2, Insert(1, false));
    StepIsReachable(Quietly, s3, Exit(7));
    s, step := Apply(s3, Exit(7)), TryWait(1);
  }
}
