/**
 The gated launch of a sandboxed process: the parent prepares a cgroup, forks a
 child that blocks on a one-byte gate pipe, attaches it, and only then releases
 the gate; the child reports a failed setup or exec through a close-on-exec
 error pipe.

 Parent and child are two step machines over shared pipes.  The two machines
 interleave arbitrarily, every system call but `close` and the parent's `kill` of
 its own child may fail, and the child may be killed from outside at any moment.
 A call that has no reason to fail and fails nevertheless is a fault.
 */
module GatedLaunch {

  datatype Failure =
    | LimitsRejected
    | BindingRejected
    | PreparationFailed
    | SpawnFailed
    | AttachFailed
    | GateReleaseFailed
    | ResultReadFailed
    | ExecFailed

  /** What the parent does next. */
  datatype ParentPc =
    | ApplyLimits
    | EnforceBinding
    | PrepareTransport
    | Fork
    | DropGateRead
    | DropErrorWrite
    | Attach
    | AbortKill
    | AbortWait
    | WriteGate
    | DropGateWrite
    | ReadErrors
    | ReapFailed
    | CleanUp(reason: Failure)
    | Launched
    | Rejected(reason: Failure)

  /** What the child does next. */
  datatype ChildPc =
    | NotForked
    | CloseGateWrite
    | CloseErrorRead
    | SetUp
    | ReadGate
    | CloseGateRead
    | ChangeDirectory
    | Exec
    | ReportErrno
    | ExitFailed
    | UserCode
    | Zombie
    | Reaped

  /** `procsFile` says whether the instance cgroup has a `cgroup.procs` file, which only development mode may lack. */
  datatype Config = Config(devMode: bool, bpfEnabled: bool, hard: bool, procsFile: bool)

  /** Which ends of the two pipes a process still holds. */
  datatype Ends = Ends(gateRead: bool, gateWrite: bool, errorRead: bool, errorWrite: bool)

  const NO_ENDS := Ends(false, false, false, false)
  const ALL_ENDS := Ends(true, true, true, true)

  /**
   `unreported` says that a failing child could not write its error, `waitFailed` that the parent's
   `waitpid` failed, and `cgroupKilled` that the final kill of the instance cgroup reached the child.
   */
  datatype State = State(
    config: Config,
    parent: ParentPc,
    child: ChildPc,
    parentEnds: Ends,
    childEnds: Ends,
    gateBytes: nat,
    errorBytes: nat,
    gateTaken: bool,
    limitsApplied: bool,
    filterAttached: bool,
    inCgroup: bool,
    executed: bool,
    killPending: bool,
    outsideKill: bool,
    unreported: bool,
    waitFailed: bool,
    cgroupKilled: bool)

  function Start(c: Config): State {
    State(c, ApplyLimits, NotForked, NO_ENDS, NO_ENDS, 0, 0,
          false, false, false, false, false, false, false, false, false, false)
  }

  predicate Init(s: State) { s == Start(s.config) && (s.config.procsFile || s.config.devMode) }

  // ----------------------------------------------------------------------- steps

  /** What the parent does up to the fork. */
  datatype PrepareStep =
    | LimitsHold | LimitsFail | NothingToBind | BindingHolds | BindingFails | TransportReady | TransportFails
    | ForkFails | Forks

  /** From the fork to the open gate.  The last two are faults: calls that fail without a reason in the protocol. */
  datatype ReleaseStep =
    | DropsGateRead | DropsErrorWrite | Attaches | AttachFails | AbortKills | AbortReaps | OpensGate
    | GateRefused | DropsGateWrite
    | GateWriteFails | AbortWaitFails

  /** Learning the result and cleaning up.  The last two are faults. */
  datatype CollectStep =
    | ReadsNothing | ReadsError | ReapsFailed | CgroupKept | CgroupKilled
    | ErrorReadFails | ReapWaitFails

  /** The last two are faults. */
  datatype ChildStep =
    | ClosesGateWrite | ClosesErrorRead | SetsUp | TakesGate | SeesGateEnd | ClosesGateRead
    | ChangesDirectory | Executes | CallFails | ReportsError | ReportRefused | Exits
    | GateReadFails | ReportFails

  datatype Step =
    | Prepare(p: PrepareStep) | Release(r: ReleaseStep) | Collect(k: CollectStep) | Child(c: ChildStep) | OutsideKill

  /** A fault, or a signal from anywhere but this launch. */
  predicate IsFault(step: Step) {
    match step
    case Release(GateWriteFails) => true
    case Release(AbortWaitFails) => true
    case Collect(ErrorReadFails) => true
    case Collect(ReapWaitFails) => true
    case Child(GateReadFails) => true
    case Child(ReportFails) => true
    case OutsideKill => true
    case _ => false
  }

  /** Development mode without a cgroup file skips limits and attachment. */
  predicate SkipsCgroup(c: Config) { c.devMode && !c.procsFile }

  predicate GateHasReader(s: State) { s.parentEnds.gateRead || s.childEnds.gateRead }

  predicate GateHasWriter(s: State) { s.parentEnds.gateWrite || s.childEnds.gateWrite }

  predicate ErrorHasReader(s: State) { s.parentEnds.errorRead || s.childEnds.errorRead }

  predicate ErrorHasWriter(s: State) { s.parentEnds.errorWrite || s.childEnds.errorWrite }

  predicate IsAlive(child: ChildPc) { child != NotForked && child != Zombie && child != Reaped }

  predicate PrepareMay(s: State, p: PrepareStep) {
    match p
    case LimitsHold => s.parent == ApplyLimits
    case LimitsFail => s.parent == ApplyLimits && !SkipsCgroup(s.config)
    case NothingToBind => s.parent == EnforceBinding && !s.config.hard
    case BindingHolds => s.parent == EnforceBinding && s.config.hard && !s.config.devMode && s.config.bpfEnabled
    case BindingFails => s.parent == EnforceBinding && s.config.hard
    case TransportReady => s.parent == PrepareTransport
    case TransportFails => s.parent == PrepareTransport
    case ForkFails => s.parent == Fork
    case Forks => s.parent == Fork
  }

  function PrepareDoes(s: State, p: PrepareStep): State
    requires PrepareMay(s, p)
  {
    match p
    case LimitsHold => s.(parent := EnforceBinding, limitsApplied := !SkipsCgroup(s.config))
    case LimitsFail => s.(parent := Rejected(LimitsRejected))
    case NothingToBind => s.(parent := PrepareTransport)
    case BindingHolds => s.(parent := PrepareTransport, filterAttached := true)
    case BindingFails => s.(parent := Rejected(BindingRejected))
    case TransportReady => s.(parent := Fork)
    case TransportFails => s.(parent := Rejected(PreparationFailed))
    case ForkFails => s.(parent := Rejected(SpawnFailed))
    case Forks => s.(parent := DropGateRead, child := CloseGateWrite, parentEnds := ALL_ENDS, childEnds := ALL_ENDS)
  }

  /** A pipe write has to fail when nobody can read, and the end of a pipe is seen when nobody can write. */
  predicate ReleaseMay(s: State, r: ReleaseStep) {
    match r
    case DropsGateRead => s.parent == DropGateRead
    case DropsErrorWrite => s.parent == DropErrorWrite
    case Attaches => s.parent == Attach
    case AttachFails => s.parent == Attach && !SkipsCgroup(s.config)
    case AbortKills => s.parent == AbortKill
    case AbortReaps => s.parent == AbortWait && s.child == Zombie
    case OpensGate => s.parent == WriteGate && GateHasReader(s)
    case GateRefused => s.parent == WriteGate && !GateHasReader(s)
    case DropsGateWrite => s.parent == DropGateWrite
    case GateWriteFails => s.parent == WriteGate
    case AbortWaitFails => s.parent == AbortWait
  }

  function ReleaseDoes(s: State, r: ReleaseStep): State
    requires ReleaseMay(s, r)
  {
    match r
    case DropsGateRead => s.(parent := DropErrorWrite, parentEnds := s.parentEnds.(gateRead := false))
    case DropsErrorWrite => s.(parent := Attach, parentEnds := s.parentEnds.(errorWrite := false))
    case Attaches => s.(parent := WriteGate, inCgroup := !SkipsCgroup(s.config))
    case AttachFails => s.(parent := AbortKill)
    case AbortKills => s.(parent := AbortWait, killPending := true)
    case AbortReaps => s.(parent := CleanUp(AttachFailed), child := Reaped, parentEnds := NO_ENDS)
    case OpensGate => s.(parent := DropGateWrite, gateBytes := s.gateBytes + 1)
    case GateRefused => s.(parent := CleanUp(GateReleaseFailed), parentEnds := NO_ENDS)
    case DropsGateWrite => s.(parent := ReadErrors, parentEnds := s.parentEnds.(gateWrite := false))
    case GateWriteFails => s.(parent := CleanUp(GateReleaseFailed), parentEnds := NO_ENDS)
    case AbortWaitFails => s.(parent := CleanUp(AttachFailed), waitFailed := true, parentEnds := NO_ENDS)
  }

  predicate CollectMay(s: State, k: CollectStep) {
    match k
    case ReadsNothing => s.parent == ReadErrors && !ErrorHasWriter(s) && s.errorBytes == 0
    case ReadsError => s.parent == ReadErrors && !ErrorHasWriter(s) && s.errorBytes > 0
    case ReapsFailed => s.parent == ReapFailed && s.child == Zombie
    case CgroupKept => s.parent.CleanUp?
    case CgroupKilled => s.parent.CleanUp? && s.inCgroup
    case ErrorReadFails => s.parent == ReadErrors
    case ReapWaitFails => s.parent == ReapFailed
  }

  function CollectDoes(s: State, k: CollectStep): State
    requires CollectMay(s, k)
  {
    match k
    case ReadsNothing => s.(parent := Launched, parentEnds := NO_ENDS)
    case ReadsError => s.(parent := ReapFailed)
    case ReapsFailed => s.(parent := CleanUp(ExecFailed), child := Reaped, parentEnds := NO_ENDS)
    case CgroupKept => s.(parent := Rejected(s.parent.reason))
    case CgroupKilled =>
      s.(parent := Rejected(s.parent.reason), cgroupKilled := true,
         killPending := s.killPending || IsAlive(s.child))
    case ErrorReadFails => s.(parent := CleanUp(ResultReadFailed), parentEnds := NO_ENDS)
    case ReapWaitFails => s.(parent := CleanUp(ExecFailed), waitFailed := true, parentEnds := NO_ENDS)
  }

  predicate ChildMay(s: State, c: ChildStep) {
    match c
    case ClosesGateWrite => s.child == CloseGateWrite
    case ClosesErrorRead => s.child == CloseErrorRead
    case SetsUp => s.child == SetUp
    case TakesGate => s.child == ReadGate && s.gateBytes > 0
    case SeesGateEnd => s.child == ReadGate && s.gateBytes == 0 && !GateHasWriter(s)
    case ClosesGateRead => s.child == CloseGateRead
    case ChangesDirectory => s.child == ChangeDirectory
    case Executes => s.child == Exec
    case CallFails => s.child == SetUp || s.child == ChangeDirectory || s.child == Exec
    case ReportsError => s.child == ReportErrno && ErrorHasReader(s)
    case ReportRefused => s.child == ReportErrno && !ErrorHasReader(s)
    case Exits => s.child == ExitFailed || s.child == UserCode || (IsAlive(s.child) && s.killPending)
    case GateReadFails => s.child == ReadGate
    case ReportFails => s.child == ReportErrno
  }

  function ChildDoes(s: State, c: ChildStep): State
    requires ChildMay(s, c)
  {
    match c
    case ClosesGateWrite => s.(child := CloseErrorRead, childEnds := s.childEnds.(gateWrite := false))
    case ClosesErrorRead => s.(child := SetUp, childEnds := s.childEnds.(errorRead := false))
    case SetsUp => s.(child := ReadGate)
    case TakesGate => s.(child := CloseGateRead, gateBytes := s.gateBytes - 1, gateTaken := true)
    case SeesGateEnd => s.(child := ReportErrno)
    case ClosesGateRead => s.(child := ChangeDirectory, childEnds := s.childEnds.(gateRead := false))
    case ChangesDirectory => s.(child := Exec)
    case Executes => s.(child := UserCode, executed := true, childEnds := s.childEnds.(errorWrite := false))
    case CallFails => s.(child := ReportErrno)
    case ReportsError => s.(child := ExitFailed, errorBytes := s.errorBytes + 4)
    case ReportRefused => s.(child := ExitFailed, unreported := true)
    case Exits => s.(child := Zombie, childEnds := NO_ENDS)
    case GateReadFails => s.(child := ReportErrno)
    case ReportFails => s.(child := ExitFailed, unreported := true)
  }

  predicate Enabled(s: State, step: Step) {
    match step
    case Prepare(p) => PrepareMay(s, p)
    case Release(r) => ReleaseMay(s, r)
    case Collect(k) => CollectMay(s, k)
    case Child(c) => ChildMay(s, c)
    case OutsideKill => IsAlive(s.child) && !s.outsideKill
  }

  function Apply(s: State, step: Step): State
    requires Enabled(s, step)
  {
    match step
    case Prepare(p) => PrepareDoes(s, p)
    case Release(r) => ReleaseDoes(s, r)
    case Collect(k) => CollectDoes(s, k)
    case Child(c) => ChildDoes(s, c)
    case OutsideKill => s.(killPending := true, outsideKill := true)
  }

  // ------------------------------------------------------------------ invariant

  datatype Phase = BeforeFork | GateShut | GateOpen

  function PhaseOf(pc: ParentPc): Phase {
    match pc
    case ApplyLimits => BeforeFork
    case EnforceBinding => BeforeFork
    case PrepareTransport => BeforeFork
    case Fork => BeforeFork
    case DropGateRead => GateShut
    case DropErrorWrite => GateShut
    case Attach => GateShut
    case AbortKill => GateShut
    case AbortWait => GateShut
    case WriteGate => GateShut
    case DropGateWrite => GateOpen
    case ReadErrors => GateOpen
    case ReapFailed => GateOpen
    case Launched => GateOpen
    case CleanUp(reason) => FailurePhase(reason)
    case Rejected(reason) => FailurePhase(reason)
  }

  function FailurePhase(reason: Failure): Phase {
    match reason
    case AttachFailed => GateShut
    case GateReleaseFailed => GateShut
    case ResultReadFailed => GateOpen
    case ExecFailed => GateOpen
    case _ => BeforeFork
  }

  function ParentHolds(pc: ParentPc): Ends {
    match pc
    case DropGateRead => Ends(true, true, true, true)
    case DropErrorWrite => Ends(false, true, true, true)
    case Attach => Ends(false, true, true, false)
    case AbortKill => Ends(false, true, true, false)
    case AbortWait => Ends(false, true, true, false)
    case WriteGate => Ends(false, true, true, false)
    case DropGateWrite => Ends(false, true, true, false)
    case ReadErrors => Ends(false, false, true, false)
    case ReapFailed => Ends(false, false, true, false)
    case _ => NO_ENDS
  }

  function ChildHolds(pc: ChildPc, gateTaken: bool): Ends {
    match pc
    case NotForked => NO_ENDS
    case CloseGateWrite => Ends(true, true, true, true)
    case CloseErrorRead => Ends(true, false, true, true)
    case CloseGateRead => Ends(true, false, false, true)
    case UserCode => NO_ENDS
    case Zombie => NO_ENDS
    case Reaped => NO_ENDS
    case _ => Ends(!gateTaken, false, false, true)
  }

  /** What holds at each control point of the child. */
  predicate ChildFacts(s: State) {
    match s.child
    case NotForked => Untold(s) && !s.gateTaken
    case CloseGateWrite => Untold(s) && !s.gateTaken
    case CloseErrorRead => Untold(s) && !s.gateTaken
    case SetUp => Untold(s) && !s.gateTaken
    case ReadGate => Untold(s) && !s.gateTaken
    case CloseGateRead => Untold(s) && s.gateTaken
    case ChangeDirectory => Untold(s) && s.gateTaken
    case Exec => Untold(s) && s.gateTaken
    case ReportErrno => Untold(s)
    case ExitFailed => !s.executed && (s.errorBytes == 0 <==> s.unreported)
    case UserCode => s.gateTaken && s.executed && s.errorBytes == 0 && !s.unreported
    case _ =>
      && (s.executed ==> s.gateTaken && s.errorBytes == 0 && !s.unreported)
      && (s.unreported ==> s.errorBytes == 0)
      && (s.executed || s.errorBytes > 0 || s.unreported || s.killPending)
  }

  /** Nothing was executed and no failure was reported or lost. */
  predicate Untold(s: State) { !s.executed && s.errorBytes == 0 && !s.unreported }

  /** What is known of the child once the parent gives up for this reason. */
  predicate FailureFacts(s: State, reason: Failure) {
    match reason
    case AttachFailed => s.killPending && (s.child == Reaped <==> !s.waitFailed)
    case GateReleaseFailed => s.child != Reaped && !s.waitFailed
    case ResultReadFailed => s.child != Reaped && !s.waitFailed
    case ExecFailed =>
      s.errorBytes > 0 && (s.child == Zombie || s.child == Reaped) && (s.child == Reaped <==> !s.waitFailed)
    case _ => !s.waitFailed
  }

  /** What holds at each control point of the parent. */
  predicate ParentFacts(s: State) {
    && (PhaseOf(s.parent) == BeforeFork <==> s.child == NotForked)
    && s.gateBytes == (if PhaseOf(s.parent) == GateOpen && !s.gateTaken then 1 else 0)
    && (s.gateTaken ==> PhaseOf(s.parent) == GateOpen)
    && match s.parent
       case AbortWait => s.killPending && s.child != Reaped && !s.waitFailed
       case ReapFailed => s.errorBytes > 0 && s.child == Zombie && !s.waitFailed
       case Launched => s.errorBytes == 0 && (s.child == Zombie || s.child == UserCode) && !s.waitFailed
       case CleanUp(reason) => FailureFacts(s, reason)
       case Rejected(reason) => FailureFacts(s, reason)
       case _ => s.child != Reaped && !s.waitFailed
  }

  /** The isolation in place once the parent may fork, and once it may open the gate. */
  predicate IsolationFacts(s: State) {
    && (s.config.procsFile || s.config.devMode)
    && (s.filterAttached ==> !s.config.devMode && s.config.bpfEnabled)
    && (s.parent != ApplyLimits && s.parent != Rejected(LimitsRejected) ==> s.limitsApplied == !SkipsCgroup(s.config))
    && (s.config.hard && (s.child != NotForked || s.parent == PrepareTransport || s.parent == Fork) ==>
          s.filterAttached)
    && (s.parent == WriteGate || PhaseOf(s.parent) == GateOpen ==> s.inCgroup == !SkipsCgroup(s.config))
  }

  /** Only the abort, the final cgroup kill and strangers kill the child. */
  predicate KillFacts(s: State) {
    && (s.outsideKill ==> s.killPending)
    && (s.cgroupKilled ==> s.parent.Rejected? && s.inCgroup && (IsAlive(s.child) ==> s.killPending))
    && (s.killPending && !s.outsideKill && !s.cgroupKilled ==>
          s.parent == AbortWait || s.parent == CleanUp(AttachFailed) || s.parent == Rejected(AttachFailed))
  }

  predicate Inv(s: State) {
    && s.parentEnds == ParentHolds(s.parent)
    && s.childEnds == ChildHolds(s.child, s.gateTaken)
    && ChildFacts(s) && ParentFacts(s) && IsolationFacts(s) && KillFacts(s)
  }

  // A measure of how far each side is from its last control point.

  function ParentRank(pc: ParentPc): nat {
    match pc
    case ApplyLimits => 12
    case EnforceBinding => 11
    case PrepareTransport => 10
    case Fork => 9
    case DropGateRead => 8
    case DropErrorWrite => 7
    case Attach => 6
    case AbortKill => 5
    case AbortWait => 4
    case WriteGate => 5
    case DropGateWrite => 4
    case ReadErrors => 3
    case ReapFailed => 2
    case CleanUp(_) => 1
    case _ => 0
  }

  function ChildRank(pc: ChildPc): nat {
    match pc
    case NotForked => 12
    case CloseGateWrite => 11
    case CloseErrorRead => 10
    case SetUp => 9
    case ReadGate => 8
    case CloseGateRead => 7
    case ChangeDirectory => 6
    case Exec => 5
    case ReportErrno => 4
    case ExitFailed => 3
    case UserCode => 3
    case Zombie => 1
    case Reaped => 0
  }

  function Rank(s: State): nat {
    ParentRank(s.parent) + ChildRank(s.child) + if s.outsideKill then 0 else 1
  }

  lemma InitHolds(s: State)
    requires Init(s)
    ensures Inv(s)
  {
  }

  /** The invariant holds again and the end is closer. */
  predicate Progresses(s: State, s': State) { Inv(s') && Rank(s') < Rank(s) }

  predicate Returned(s: State) { s.parent == Launched || s.parent.Rejected? }

  /** The parent did nothing. */
  predicate SameParent(s: State, s': State) {
    s'.parent == s.parent && s'.waitFailed == s.waitFailed && s'.cgroupKilled == s.cgroupKilled
  }

  lemma LimitsHoldKeepsInv(s: State)
    requires Inv(s) && PrepareMay(s, LimitsHold)
    ensures Progresses(s, PrepareDoes(s, LimitsHold))
  {
  }

  lemma LimitsFailKeepsInv(s: State)
    requires Inv(s) && PrepareMay(s, LimitsFail)
    ensures Progresses(s, PrepareDoes(s, LimitsFail))
  {
  }

  lemma NothingToBindKeepsInv(s: State)
    requires Inv(s) && PrepareMay(s, NothingToBind)
    ensures Progresses(s, PrepareDoes(s, NothingToBind))
  {
  }

  lemma BindingHoldsKeepsInv(s: State)
    requires Inv(s) && PrepareMay(s, BindingHolds)
    ensures Progresses(s, PrepareDoes(s, BindingHolds))
  {
  }

  lemma BindingFailsKeepsInv(s: State)
    requires Inv(s) && PrepareMay(s, BindingFails)
    ensures Progresses(s, PrepareDoes(s, BindingFails))
  {
  }

  lemma TransportReadyKeepsInv(s: State)
    requires Inv(s) && PrepareMay(s, TransportReady)
    ensures Progresses(s, PrepareDoes(s, TransportReady))
  {
  }

  lemma TransportFailsKeepsInv(s: State)
    requires Inv(s) && PrepareMay(s, TransportFails)
    ensures Progresses(s, PrepareDoes(s, TransportFails))
  {
  }

  lemma ForkFailsKeepsInv(s: State)
    requires Inv(s) && PrepareMay(s, ForkFails)
    ensures Progresses(s, PrepareDoes(s, ForkFails))
  {
  }

  lemma ForksKeepsInv(s: State)
    requires Inv(s) && PrepareMay(s, Forks)
    ensures Progresses(s, PrepareDoes(s, Forks))
  {
  }

  lemma DropsGateReadKeepsInv(s: State)
    requires Inv(s) && ReleaseMay(s, DropsGateRead)
    ensures Progresses(s, ReleaseDoes(s, DropsGateRead))
  {
  }

  lemma DropsErrorWriteKeepsInv(s: State)
    requires Inv(s) && ReleaseMay(s, DropsErrorWrite)
    ensures Progresses(s, ReleaseDoes(s, DropsErrorWrite))
  {
  }

  lemma AttachesKeepsInv(s: State)
    requires Inv(s) && ReleaseMay(s, Attaches)
    ensures Progresses(s, ReleaseDoes(s, Attaches))
  {
  }

  lemma AttachFailsKeepsInv(s: State)
    requires Inv(s) && ReleaseMay(s, AttachFails)
    ensures Progresses(s, ReleaseDoes(s, AttachFails))
  {
  }

  lemma AbortKillsKeepsInv(s: State)
    requires Inv(s) && ReleaseMay(s, AbortKills)
    ensures Progresses(s, ReleaseDoes(s, AbortKills))
  {
  }

  lemma AbortReapsKeepsInv(s: State)
    requires Inv(s) && ReleaseMay(s, AbortReaps)
    ensures Progresses(s, ReleaseDoes(s, AbortReaps))
  {
  }

  lemma OpensGateKeepsInv(s: State)
    requires Inv(s) && ReleaseMay(s, OpensGate)
    ensures Progresses(s, ReleaseDoes(s, OpensGate))
  {
  }

  lemma GateRefusedKeepsInv(s: State)
    requires Inv(s) && ReleaseMay(s, GateRefused)
    ensures Progresses(s, ReleaseDoes(s, GateRefused))
  {
  }

  lemma DropsGateWriteKeepsInv(s: State)
    requires Inv(s) && ReleaseMay(s, DropsGateWrite)
    ensures Progresses(s, ReleaseDoes(s, DropsGateWrite))
  {
  }

  lemma ReadsNothingKeepsInv(s: State)
    requires Inv(s) && CollectMay(s, ReadsNothing)
    ensures Progresses(s, CollectDoes(s, ReadsNothing))
  {
  }

  lemma ReadsErrorKeepsInv(s: State)
    requires Inv(s) && CollectMay(s, ReadsError)
    ensures Progresses(s, CollectDoes(s, ReadsError))
  {
  }

  lemma ReapsFailedKeepsInv(s: State)
    requires Inv(s) && CollectMay(s, ReapsFailed)
    ensures Progresses(s, CollectDoes(s, ReapsFailed))
  {
  }

  lemma CgroupKeptKeepsInv(s: State)
    requires Inv(s) && CollectMay(s, CgroupKept)
    ensures Progresses(s, CollectDoes(s, CgroupKept))
  {
  }

  lemma CgroupKilledKeepsInv(s: State)
    requires Inv(s) && CollectMay(s, CgroupKilled)
    ensures Progresses(s, CollectDoes(s, CgroupKilled))
  {
  }

  lemma GateWriteFailsKeepsInv(s: State)
    requires Inv(s) && ReleaseMay(s, GateWriteFails)
    ensures Progresses(s, ReleaseDoes(s, GateWriteFails))
  {
  }

  lemma ErrorReadFailsKeepsInv(s: State)
    requires Inv(s) && CollectMay(s, ErrorReadFails)
    ensures Progresses(s, CollectDoes(s, ErrorReadFails))
  {
  }

  lemma AbortWaitFailsKeepsInv(s: State)
    requires Inv(s) && ReleaseMay(s, AbortWaitFails)
    ensures Progresses(s, ReleaseDoes(s, AbortWaitFails))
  {
  }

  lemma ReapWaitFailsKeepsInv(s: State)
    requires Inv(s) && CollectMay(s, ReapWaitFails)
    ensures Progresses(s, CollectDoes(s, ReapWaitFails))
  {
  }

  lemma ClosesGateWriteKeepsInv(s: State)
    requires Inv(s) && ChildMay(s, ClosesGateWrite)
    ensures Progresses(s, ChildDoes(s, ClosesGateWrite))
  {
  }

  lemma ClosesErrorReadKeepsInv(s: State)
    requires Inv(s) && ChildMay(s, ClosesErrorRead)
    ensures Progresses(s, ChildDoes(s, ClosesErrorRead))
  {
  }

  lemma SetsUpKeepsInv(s: State)
    requires Inv(s) && ChildMay(s, SetsUp)
    ensures Progresses(s, ChildDoes(s, SetsUp))
  {
  }

  lemma TakesGateKeepsInv(s: State)
    requires Inv(s) && ChildMay(s, TakesGate)
    ensures Progresses(s, ChildDoes(s, TakesGate))
  {
  }

  lemma SeesGateEndKeepsInv(s: State)
    requires Inv(s) && ChildMay(s, SeesGateEnd)
    ensures Progresses(s, ChildDoes(s, SeesGateEnd))
  {
  }

  lemma ClosesGateReadKeepsInv(s: State)
    requires Inv(s) && ChildMay(s, ClosesGateRead)
    ensures Progresses(s, ChildDoes(s, ClosesGateRead))
  {
  }

  lemma ChangesDirectoryKeepsInv(s: State)
    requires Inv(s) && ChildMay(s, ChangesDirectory)
    ensures Progresses(s, ChildDoes(s, ChangesDirectory))
  {
  }

  lemma ExecutesKeepsInv(s: State)
    requires Inv(s) && ChildMay(s, Executes)
    ensures Progresses(s, ChildDoes(s, Executes))
  {
  }

  lemma CallFailsKeepsInv(s: State)
    requires Inv(s) && ChildMay(s, CallFails)
    ensures Progresses(s, ChildDoes(s, CallFails))
  {
  }

  lemma ReportsErrorKeepsInv(s: State)
    requires Inv(s) && ChildMay(s, ReportsError)
    ensures Progresses(s, ChildDoes(s, ReportsError))
  {
  }

  lemma ReportRefusedKeepsInv(s: State)
    requires Inv(s) && ChildMay(s, ReportRefused)
    ensures Progresses(s, ChildDoes(s, ReportRefused))
  {
  }

  /** A child that exits, or dies of a kill, whatever it was doing. */
  lemma ExitedKeepsInv(s: State)
    requires Inv(s) && (s.child == ExitFailed || s.child == UserCode || (IsAlive(s.child) && s.killPending))
    ensures Progresses(s, s.(child := Zombie, childEnds := NO_ENDS))
  {
  }

  lemma ExitsKeepsInv(s: State)
    requires Inv(s) && ChildMay(s, Exits)
    ensures Progresses(s, ChildDoes(s, Exits))
  {
    ExitedKeepsInv(s);
  }

  lemma ChildGateReadFailsKeepsInv(s: State)
    requires Inv(s) && ChildMay(s, GateReadFails)
    ensures Progresses(s, ChildDoes(s, GateReadFails))
  {
  }

  lemma ReportFailsKeepsInv(s: State)
    requires Inv(s) && ChildMay(s, ReportFails)
    ensures Progresses(s, ChildDoes(s, ReportFails))
  {
  }

  lemma PrepareKeepsInv(s: State, p: PrepareStep)
    requires Inv(s) && PrepareMay(s, p)
    ensures Progresses(s, PrepareDoes(s, p))
  {
    match p
    case LimitsHold => LimitsHoldKeepsInv(s);
    case LimitsFail => LimitsFailKeepsInv(s);
    case NothingToBind => NothingToBindKeepsInv(s);
    case BindingHolds => BindingHoldsKeepsInv(s);
    case BindingFails => BindingFailsKeepsInv(s);
    case TransportReady => TransportReadyKeepsInv(s);
    case TransportFails => TransportFailsKeepsInv(s);
    case ForkFails => ForkFailsKeepsInv(s);
    case Forks => ForksKeepsInv(s);
  }

  lemma ReleaseKeepsInv(s: State, r: ReleaseStep)
    requires Inv(s) && ReleaseMay(s, r)
    ensures Progresses(s, ReleaseDoes(s, r))
  {
    match r
    case DropsGateRead => DropsGateReadKeepsInv(s);
    case DropsErrorWrite => DropsErrorWriteKeepsInv(s);
    case Attaches => AttachesKeepsInv(s);
    case AttachFails => AttachFailsKeepsInv(s);
    case AbortKills => AbortKillsKeepsInv(s);
    case AbortReaps => AbortReapsKeepsInv(s);
    case OpensGate => OpensGateKeepsInv(s);
    case GateRefused => GateRefusedKeepsInv(s);
    case DropsGateWrite => DropsGateWriteKeepsInv(s);
    case GateWriteFails => GateWriteFailsKeepsInv(s);
    case AbortWaitFails => AbortWaitFailsKeepsInv(s);
  }

  lemma CollectKeepsInv(s: State, k: CollectStep)
    requires Inv(s) && CollectMay(s, k)
    ensures Progresses(s, CollectDoes(s, k))
  {
    match k
    case ReadsNothing => ReadsNothingKeepsInv(s);
    case ReadsError => ReadsErrorKeepsInv(s);
    case ReapsFailed => ReapsFailedKeepsInv(s);
    case CgroupKept => CgroupKeptKeepsInv(s);
    case CgroupKilled => CgroupKilledKeepsInv(s);
    case ErrorReadFails => ErrorReadFailsKeepsInv(s);
    case ReapWaitFails => ReapWaitFailsKeepsInv(s);
  }

  lemma ChildKeepsInv(s: State, c: ChildStep)
    requires Inv(s) && ChildMay(s, c)
    ensures Progresses(s, ChildDoes(s, c))
  {
    match c
    case ClosesGateWrite => ClosesGateWriteKeepsInv(s);
    case ClosesErrorRead => ClosesErrorReadKeepsInv(s);
    case SetsUp => SetsUpKeepsInv(s);
    case TakesGate => TakesGateKeepsInv(s);
    case SeesGateEnd => SeesGateEndKeepsInv(s);
    case ClosesGateRead => ClosesGateReadKeepsInv(s);
    case ChangesDirectory => ChangesDirectoryKeepsInv(s);
    case Executes => ExecutesKeepsInv(s);
    case CallFails => CallFailsKeepsInv(s);
    case ReportsError => ReportsErrorKeepsInv(s);
    case ReportRefused => ReportRefusedKeepsInv(s);
    case Exits => ExitsKeepsInv(s);
    case GateReadFails => ChildGateReadFailsKeepsInv(s);
    case ReportFails => ReportFailsKeepsInv(s);
  }

  lemma OutsideKillKeepsInv(s: State)
    requires Inv(s) && IsAlive(s.child) && !s.outsideKill
    ensures Progresses(s, s.(killPending := true, outsideKill := true))
  {
    var s' := s.(killPending := true, outsideKill := true);
    assert ChildFacts(s') && IsolationFacts(s') && KillFacts(s');
    assert s.parent.CleanUp? || s.parent.Rejected? ==> FailureFacts(s', s.parent.reason);
  }

  /** Every step, every fault and every kill from outside keeps the invariant and brings the end closer. */
  lemma StepKeepsInv(s: State, step: Step)
    requires Inv(s) && Enabled(s, step)
    ensures Progresses(s, Apply(s, step))
  {
    match step
    case Prepare(p) => PrepareKeepsInv(s, p);
    case Release(r) => ReleaseKeepsInv(s, r);
    case Collect(k) => CollectKeepsInv(s, k);
    case Child(c) => ChildKeepsInv(s, c);
    case OutsideKill => OutsideKillKeepsInv(s);
  }

  lemma PrepareIsBeforeReturn(s: State, p: PrepareStep)
    requires PrepareMay(s, p)
    ensures !Returned(s)
  {
  }

  lemma ReleaseIsBeforeReturn(s: State, r: ReleaseStep)
    requires ReleaseMay(s, r)
    ensures !Returned(s)
  {
  }

  lemma CollectIsBeforeReturn(s: State, k: CollectStep)
    requires CollectMay(s, k)
    ensures !Returned(s)
  {
  }

  lemma ChildLeavesParent(s: State, c: ChildStep)
    requires ChildMay(s, c)
    ensures SameParent(s, ChildDoes(s, c))
  {
    match c
    case ClosesGateWrite =>
    case ClosesErrorRead =>
    case SetsUp =>
    case TakesGate =>
    case SeesGateEnd =>
    case ClosesGateRead =>
    case ChangesDirectory =>
    case Executes =>
    case CallFails =>
    case ReportsError =>
    case ReportRefused =>
    case Exits =>
    case GateReadFails =>
    case ReportFails =>
  }

  /** A returned parent does nothing more. */
  lemma ReturnIsFinal(s: State, step: Step)
    requires Returned(s) && Enabled(s, step)
    ensures SameParent(s, Apply(s, step))
  {
    match step
    case Prepare(p) => PrepareIsBeforeReturn(s, p); assert false;
    case Release(r) => ReleaseIsBeforeReturn(s, r); assert false;
    case Collect(k) => CollectIsBeforeReturn(s, k); assert false;
    case Child(c) => ChildLeavesParent(s, c);
    case OutsideKill =>
  }

  /** Before the parent gives up, a child waiting at an empty gate has somebody who can still write to it. */
  lemma WaitingChildHasWriter(s: State)
    requires Inv(s) && s.child == ReadGate && s.gateBytes == 0
    ensures PhaseOf(s.parent) == GateShut && (s.parent.CleanUp? || s.parent.Rejected? || GateHasWriter(s))
  {
  }

  // ---------------------------------------------------------------------- safety

  /** The states along some steps: each step is enabled where it is taken. */
  ghost predicate IsRun(states: seq<State>, steps: seq<Step>) {
    && |states| == |steps| + 1 && Init(states[0])
    && forall i :: 0 <= i < |steps| ==> StepsTo(states[i], steps[i], states[i + 1])
  }

  predicate StepsTo(s: State, step: Step, s': State) { Enabled(s, step) && s' == Apply(s, step) }

  lemma {:induction false} RunsKeepInv(states: seq<State>, steps: seq<Step>, i: nat)
    requires IsRun(states, steps) && i < |states|
    ensures Inv(states[i])
  {
    if i == 0 {
      InitHolds(states[0]);
    } else {
      RunsKeepInv(states, steps, i - 1);
      assert StepsTo(states[i - 1], steps[i - 1], states[i]);
      StepKeepsInv(states[i - 1], steps[i - 1]);
    }
  }

  /**
   In every interleaving: user code starts only behind an attached HARD device
   filter, and outside development mode only with limits applied and the child
   in its cgroup.
   */
  lemma ExecIsIsolated(states: seq<State>, steps: seq<Step>, i: nat)
    requires IsRun(states, steps) && i < |states| && states[i].executed
    ensures states[i].config.hard ==> states[i].filterAttached && !states[i].config.devMode
    ensures !states[i].config.devMode ==> states[i].limitsApplied && states[i].inCgroup
  {
    RunsKeepInv(states, steps, i);
    ExecutedFacts(states[i]);
  }

  lemma ExecutedFacts(s: State)
    requires Inv(s) && s.executed
    ensures PhaseOf(s.parent) == GateOpen && s.child != NotForked
  {
  }

  lemma {:induction false} ReturnStays(states: seq<State>, steps: seq<Step>, i: nat, j: nat)
    requires IsRun(states, steps) && i <= j < |states| && Returned(states[i])
    ensures SameParent(states[i], states[j])
  {
    if i < j {
      ReturnStays(states, steps, i, j - 1);
      assert StepsTo(states[j - 1], steps[j - 1], states[j]);
      ReturnIsFinal(states[j - 1], steps[j - 1]);
    }
  }

  /** The rejections after which a child that was forked may still be alive. */
  predicate MayLeaveChild(s: State) {
    || s.parent == Rejected(GateReleaseFailed)
    || s.parent == Rejected(ResultReadFailed)
    || (s.parent == Rejected(AttachFailed) && s.waitFailed)
  }

  lemma RejectedFacts(s: State)
    requires Inv(s) && s.parent.Rejected?
    ensures s.executed ==> s.parent == Rejected(ResultReadFailed)
    ensures IsAlive(s.child) ==> MayLeaveChild(s) && (s.cgroupKilled ==> s.killPending)
    ensures s.parent == Rejected(AttachFailed) && IsAlive(s.child) ==> s.killPending
    ensures s.parent == Rejected(AttachFailed) || s.parent == Rejected(ExecFailed) ==>
              (s.child == Reaped <==> !s.waitFailed)
  {
  }

  /**
   What a rejection means, at its return and ever after.  User code runs only after
   a failed reading of the error pipe.  A live child is left only then, after a
   failed gate write, or when the wait of an abort failed.  A final cgroup kill that
   reached the child dooms it, and an aborted child is doomed anyway.  After a failed
   attach or exec the child is reaped exactly when the wait succeeded.
   */
  lemma RejectionOutcome(states: seq<State>, steps: seq<Step>, i: nat, j: nat)
    requires IsRun(states, steps) && i <= j < |states| && states[i].parent.Rejected?
    ensures SameParent(states[i], states[j])
    ensures states[j].executed ==> states[i].parent == Rejected(ResultReadFailed)
    ensures IsAlive(states[j].child) ==>
              MayLeaveChild(states[i]) && (states[i].cgroupKilled ==> states[j].killPending)
    ensures states[i].parent == Rejected(AttachFailed) && IsAlive(states[j].child) ==> states[j].killPending
    ensures states[i].parent == Rejected(AttachFailed) || states[i].parent == Rejected(ExecFailed) ==>
              (states[j].child == Reaped <==> !states[i].waitFailed)
  {
    ReturnStays(states, steps, i, j);
    RunsKeepInv(states, steps, j);
    RejectedFacts(states[j]);
  }

  lemma LaunchedFacts(s: State)
    requires Inv(s) && s.parent == Launched
    ensures s.unreported ==> !s.executed
    ensures s.executed || s.outsideKill || s.unreported
  {
  }

  /**
   Success means the program was executed, unless the child was killed from outside
   or failed without being able to report it; without an outside kill, it was
   executed exactly when no report was lost.
   */
  lemma SuccessMeansExec(states: seq<State>, steps: seq<Step>, i: nat)
    requires IsRun(states, steps) && i < |states| && states[i].parent == Launched
    ensures states[i].executed || states[i].outsideKill || states[i].unreported
    ensures !states[i].outsideKill ==> (states[i].executed <==> !states[i].unreported)
  {
    RunsKeepInv(states, steps, i);
    LaunchedFacts(states[i]);
  }

  // ------------------------------------------------------- the exceptions are real

  /** A state is reached when some run ends in it. */
  ghost predicate Reachable(s: State) {
    exists states, steps :: IsRun(states, steps) && states[|states| - 1] == s
  }

  lemma StartIsReachable(c: Config)
    requires c.procsFile || c.devMode
    ensures Reachable(Start(c))
  {
    assert IsRun([Start(c)], []);
  }

  lemma StepIsReachable(s: State, step: Step)
    requires Reachable(s) && Enabled(s, step)
    ensures Reachable(Apply(s, step))
  {
    var states, steps :| IsRun(states, steps) && states[|states| - 1] == s;
    var longer, more := states + [Apply(s, step)], steps + [step];
    forall i | 0 <= i < |more| ensures StepsTo(longer[i], more[i], longer[i + 1]) {
      if i < |steps| {
        assert StepsTo(states[i], steps[i], states[i + 1]);
        assert longer[i] == states[i] && longer[i + 1] == states[i + 1] && more[i] == steps[i];
      }
    }
    assert IsRun(longer, more);
    assert longer[|longer| - 1] == Apply(s, step);
  }

  const PLAIN := Config(false, true, false, true)

  /** A plain launch up to the attachment, with the child just forked. */
  function AtAttach(): State {
    Start(PLAIN).(parent := Attach, child := CloseGateWrite, parentEnds := Ends(false, true, true, false),
                  childEnds := ALL_ENDS, limitsApplied := true)
  }

  lemma AttachIsReachable()
    ensures Reachable(AtAttach())
  {
    StartIsReachable(PLAIN);
    var s0 := Start(PLAIN);
    StepIsReachable(s0, Prepare(LimitsHold));
    var s1 := Apply(s0, Prepare(LimitsHold));
    StepIsReachable(s1, Prepare(NothingToBind));
    var s2 := Apply(s1, Prepare(NothingToBind));
    StepIsReachable(s2, Prepare(TransportReady));
    var s3 := Apply(s2, Prepare(TransportReady));
    StepIsReachable(s3, Prepare(Forks));
    var s4 := Apply(s3, Prepare(Forks));
    StepIsReachable(s4, Release(DropsGateRead));
    var s5 := Apply(s4, Release(DropsGateRead));
    StepIsReachable(s5, Release(DropsErrorWrite));
    assert Apply(s5, Release(DropsErrorWrite)) == AtAttach();
  }

  /** Then with the child attached and the gate still shut. */
  function AtGate(): State { AtAttach().(parent := WriteGate, inCgroup := true) }

  /** Then with the gate open and the parent at the error pipe. */
  function AtErrors(): State {
    AtGate().(parent := ReadErrors, parentEnds := Ends(false, false, true, false), gateBytes := 1)
  }

  lemma GateIsReachable()
    ensures Reachable(AtGate())
  {
    AttachIsReachable();
    StepIsReachable(AtAttach(), Release(Attaches));
    assert Apply(AtAttach(), Release(Attaches)) == AtGate();
  }

  lemma ErrorsAreReachable()
    ensures Reachable(AtErrors())
  {
    GateIsReachable();
    StepIsReachable(AtGate(), Release(OpensGate));
    var s := Apply(AtGate(), Release(OpensGate));
    StepIsReachable(s, Release(DropsGateWrite));
    assert Apply(s, Release(DropsGateWrite)) == AtErrors();
  }

  /** A child killed before exec closes the error pipe silently. */
  lemma KilledChildLooksLaunched() returns (s: State)
    ensures Reachable(s) && s.parent == Launched && !s.executed && !s.unreported
  {
    ErrorsAreReachable();
    StepIsReachable(AtErrors(), OutsideKill);
    var s1 := Apply(AtErrors(), OutsideKill);
    StepIsReachable(s1, Child(Exits));
    var s2 := Apply(s1, Child(Exits));
    StepIsReachable(s2, Collect(ReadsNothing));
    s := Apply(s2, Collect(ReadsNothing));
  }

  /** A child whose setup fails and whose report is lost looks launched, without anybody killing it. */
  lemma SilentFailureLooksLaunched() returns (s: State)
    ensures Reachable(s) && s.parent == Launched && !s.executed && !s.outsideKill
  {
    ErrorsAreReachable();
    StepIsReachable(AtErrors(), Child(ClosesGateWrite));
    var s1 := Apply(AtErrors(), Child(ClosesGateWrite));
    StepIsReachable(s1, Child(ClosesErrorRead));
    var s2 := Apply(s1, Child(ClosesErrorRead));
    StepIsReachable(s2, Child(CallFails));
    var s3 := Apply(s2, Child(CallFails));
    StepIsReachable(s3, Child(ReportFails));
    var s4 := Apply(s3, Child(ReportFails));
    StepIsReachable(s4, Child(Exits));
    var s5 := Apply(s4, Child(Exits));
    StepIsReachable(s5, Collect(ReadsNothing));
    s := Apply(s5, Collect(ReadsNothing));
  }

  /** After a failed reading of the error pipe the launch is rejected while its program runs. */
  lemma RejectedChildExecutes() returns (s: State)
    ensures Reachable(s) && s.parent == Rejected(ResultReadFailed) && s.child == UserCode && s.executed &&
              !s.killPending
  {
    ErrorsAreReachable();
    StepIsReachable(AtErrors(), Collect(ErrorReadFails));
    var s1 := Apply(AtErrors(), Collect(ErrorReadFails));
    StepIsReachable(s1, Collect(CgroupKept));
    var s2 := Apply(s1, Collect(CgroupKept));
    StepIsReachable(s2, Child(ClosesGateWrite));
    var s3 := Apply(s2, Child(ClosesGateWrite));
    StepIsReachable(s3, Child(ClosesErrorRead));
    var s4 := Apply(s3, Child(ClosesErrorRead));
    StepIsReachable(s4, Child(SetsUp));
    var s5 := Apply(s4, Child(SetsUp));
    StepIsReachable(s5, Child(TakesGate));
    var s6 := Apply(s5, Child(TakesGate));
    StepIsReachable(s6, Child(ClosesGateRead));
    var s7 := Apply(s6, Child(ClosesGateRead));
    StepIsReachable(s7, Child(ChangesDirectory));
    var s8 := Apply(s7, Child(ChangesDirectory));
    StepIsReachable(s8, Child(Executes));
    s := Apply(s8, Child(Executes));
  }

  /** A failed gate write leaves a live child when the cgroup is not killed either. */
  lemma FailedGateLeavesChild() returns (s: State)
    ensures Reachable(s) && s.parent == Rejected(GateReleaseFailed) && IsAlive(s.child) && !s.killPending
  {
    GateIsReachable();
    StepIsReachable(AtGate(), Release(GateWriteFails));
    var s1 := Apply(AtGate(), Release(GateWriteFails));
    StepIsReachable(s1, Collect(CgroupKept));
    s := Apply(s1, Collect(CgroupKept));
  }

  /** A failed wait lets an abort return before the killed child is dead. */
  lemma FailedWaitLeavesChild() returns (s: State)
    ensures Reachable(s) && s.parent == Rejected(AttachFailed) && IsAlive(s.child)
  {
    AttachIsReachable();
    StepIsReachable(AtAttach(), Release(AttachFails));
    var s1 := Apply(AtAttach(), Release(AttachFails));
    StepIsReachable(s1, Release(AbortKills));
    var s2 := Apply(s1, Release(AbortKills));
    StepIsReachable(s2, Release(AbortWaitFails));
    var s3 := Apply(s2, Release(AbortWaitFails));
    StepIsReachable(s3, Collect(CgroupKept));
    s := Apply(s3, Collect(CgroupKept));
  }

  // -------------------------------------------------------------------- liveness

  /** The parent has returned, and the child runs user code or is dead or was never forked. */
  predicate Final(s: State) {
    Returned(s) && (s.child == NotForked || s.child == UserCode || s.child == Zombie || s.child == Reaped)
  }

  /** The two sides never wait for each other: with the parent at the error pipe, the gate byte is there or taken. */
  lemma NoMutualWait(states: seq<State>, steps: seq<Step>, i: nat)
    requires IsRun(states, steps) && i < |states|
    ensures !(states[i].parent == ReadErrors && states[i].child == ReadGate && states[i].gateBytes == 0)
  {
    RunsKeepInv(states, steps, i);
  }

  /** A step that is always possible before the end, without a fault and without help from outside. */
  function NextStep(s: State): Step {
    match s.child
    case CloseGateWrite => Child(ClosesGateWrite)
    case CloseErrorRead => Child(ClosesErrorRead)
    case SetUp => Child(SetsUp)
    case ReadGate =>
      if s.gateBytes > 0 then Child(TakesGate) else if GateHasWriter(s) then ParentNext(s) else Child(SeesGateEnd)
    case CloseGateRead => Child(ClosesGateRead)
    case ChangeDirectory => Child(ChangesDirectory)
    case Exec => Child(Executes)
    case ReportErrno => if ErrorHasReader(s) then Child(ReportsError) else Child(ReportRefused)
    case ExitFailed => Child(Exits)
    case _ => ParentNext(s)
  }

  function ParentNext(s: State): Step {
    match s.parent
    case ApplyLimits => Prepare(LimitsHold)
    case EnforceBinding => Prepare(if s.config.hard then BindingFails else NothingToBind)
    case PrepareTransport => Prepare(TransportReady)
    case Fork => Prepare(ForkFails)
    case DropGateRead => Release(DropsGateRead)
    case DropErrorWrite => Release(DropsErrorWrite)
    case Attach => Release(Attaches)
    case AbortKill => Release(AbortKills)
    case AbortWait => if s.child == Zombie then Release(AbortReaps) else Child(Exits)
    case WriteGate => Release(if GateHasReader(s) then OpensGate else GateRefused)
    case DropGateWrite => Release(DropsGateWrite)
    case ReadErrors => Collect(if s.errorBytes == 0 then ReadsNothing else ReadsError)
    case ReapFailed => Collect(ReapsFailed)
    case _ => Collect(CgroupKept)
  }

  lemma ParentCanMove(s: State)
    requires Inv(s) && !Returned(s)
    requires || s.child == NotForked || s.child == UserCode || s.child == Zombie || s.child == Reaped
             || (s.child == ReadGate && s.gateBytes == 0 && GateHasWriter(s))
    ensures Enabled(s, ParentNext(s)) && !IsFault(ParentNext(s))
  {
    if s.child == ReadGate {
      WaitingChildHasWriter(s);
    }
  }

  /** No reachable state is stuck before the end. */
  lemma NeverStuck(s: State)
    requires Inv(s) && !Final(s)
    ensures Enabled(s, NextStep(s)) && !IsFault(NextStep(s))
  {
    match s.child
    case ReadGate => if s.gateBytes == 0 && GateHasWriter(s) { ParentCanMove(s); }
    case NotForked => ParentCanMove(s);
    case UserCode => ParentCanMove(s);
    case Zombie => ParentCanMove(s);
    case Reaped => ParentCanMove(s);
    case _ =>
  }

  /** Only faults and outside kills are possible, if anything. */
  ghost predicate Stuck(s: State) { forall step :: Enabled(s, step) ==> IsFault(step) }

  lemma {:induction false} RunsAreShort(states: seq<State>, steps: seq<Step>, i: nat)
    requires IsRun(states, steps) && i < |states|
    ensures i + Rank(states[i]) <= 25
  {
    if i > 0 {
      RunsAreShort(states, steps, i - 1);
      RunsKeepInv(states, steps, i - 1);
      assert StepsTo(states[i - 1], steps[i - 1], states[i]);
      StepKeepsInv(states[i - 1], steps[i - 1]);
    }
  }

  /** Every run has at most 25 steps, and one that only a fault could continue has reached the end. */
  lemma RunsEnd(states: seq<State>, steps: seq<Step>)
    requires IsRun(states, steps)
    ensures |steps| <= 25
    ensures Stuck(states[|steps|]) ==> Final(states[|steps|])
  {
    RunsAreShort(states, steps, |steps|);
    RunsKeepInv(states, steps, |steps|);
    if !Final(states[|steps|]) {
      NeverStuck(states[|steps|]);
    }
  }
}
