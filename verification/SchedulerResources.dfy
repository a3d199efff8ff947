/** Processes and log files are conserved: each is in one place at every moment of every run. */
module SchedulerResources {
  import opened Common
  import opened SchedulerSections
  import opened SchedulerProtocol
  import opened SchedulerSafety

  // ----- Processes -----

  /** The process a goroutine carries outside the scheduler's fields. */
  function CarriedProc(th: Thread): Option<nat> {
    match th
    case StoringCmd(_, _, p) => Some(p)
    case Killing(_, p, _) => p
    case _ => None
  }

  function SwitchProc(w: World): Option<nat> {
    if w.switchMu.Some? && w.switchMu.value in w.threads then CarriedProc(w.threads[w.switchMu.value]) else None
  }

  /** In how many places process p is: s.cmd, the switch in progress, a finished stopProcess. */
  function ProcPlaces(w: World, p: nat): nat {
    (if w.s.cmd == Some(p) then 1 else 0) + (if SwitchProc(w) == Some(p) then 1 else 0) + multiset(w.stopLog)[p]
  }

  /** The switch has taken the old process and file and not yet stored new ones. */
  predicate CmdTaken(th: Thread) {
    th.Killing? || th.ClosingOld? || th.Opening? || th.StoringLog? || th.Publishing? || th.Starting? || th.StoringCmd?
  }

  predicate LogTaken(th: Thread) {
    th.Killing? || th.ClosingOld? || th.Opening? || th.StoringLog?
  }

  /** A stored command or log file is never overwritten. */
  ghost predicate NothingOverwritten(w: World) {
    forall t | t in w.threads ::
      (CmdTaken(w.threads[t]) ==> w.s.cmd.None?) && (LogTaken(w.threads[t]) ==> w.s.logFile.None?)
  }

  ghost predicate ProcsConserved(w: World) {
    forall p: nat :: ProcPlaces(w, p) == if p < w.procs then 1 else 0
  }

  lemma {:induction false} NothingOverwrittenKept(w: World, a: Action)
    requires Exclusive(w) && NothingOverwritten(w) && Enabled(w, a)
    ensures NothingOverwritten(Step(w, a))
  {
    var w' := Step(w, a);
    forall t | t in w'.threads
      ensures (CmdTaken(w'.threads[t]) ==> w'.s.cmd.None?) && (LogTaken(w'.threads[t]) ==> w'.s.logFile.None?)
    {
      if t != a.t && t in w.threads {
        assert w'.threads[t] == w.threads[t];
        assert CmdTaken(w.threads[t]) ==> w.switchMu == Some(t);
      }
    }
  }

  /** What a step does with processes: nothing, start one, store it, take s.cmd, hand one over. */
  ghost predicate ProcMove(w: World, w': World) {
    if w'.procs != w.procs then
      w'.procs == w.procs + 1 && SwitchProc(w).None? && SwitchProc(w') == Some(w.procs)
      && w'.s.cmd == w.s.cmd && w'.stopLog == w.stopLog
    else if w'.stopLog != w.stopLog then
      SwitchProc(w).Some? && SwitchProc(w').None? && w'.stopLog == w.stopLog + [SwitchProc(w).value]
      && w'.s.cmd == w.s.cmd
    else if w'.s.cmd == w.s.cmd then
      SwitchProc(w') == SwitchProc(w)
    else
      (SwitchProc(w).None? && SwitchProc(w') == w.s.cmd && w'.s.cmd.None?)
      || (SwitchProc(w).Some? && SwitchProc(w').None? && w.s.cmd.None? && w'.s.cmd == SwitchProc(w))
  }

  lemma {:induction false} ProcMoves(w: World, a: Action)
    requires Exclusive(w) && NothingOverwritten(w) && Enabled(w, a)
    ensures ProcMove(w, Step(w, a))
  {
    var w' := Step(w, a);
    if a.Run? && InSwitch(w.threads[a.t]) {
      var th := w.threads[a.t];
      assert SwitchProc(w) == CarriedProc(th);
      if !th.Leaving? {
        assert SwitchProc(w') == CarriedProc(w'.threads[a.t]);
      }
    } else {
      assert SwitchProc(w') == SwitchProc(w);
    }
  }

  lemma {:induction false} ProcsConservedKept(w: World, a: Action)
    requires Exclusive(w) && NothingOverwritten(w) && ProcsConserved(w) && Enabled(w, a)
    ensures ProcsConserved(Step(w, a))
  {
    ProcMoves(w, a);
    var w' := Step(w, a);
    forall p: nat ensures ProcPlaces(w', p) == if p < w'.procs then 1 else 0 {
      assert ProcPlaces(w, p) == if p < w.procs then 1 else 0;
    }
  }

  // ----- Log files -----

  function CarriedFile(th: Thread): Option<nat> {
    match th
    case StoringLog(_, f) => Some(f)
    case Killing(_, _, f) => f
    case ClosingOld(_, f) => f
    case ClosingLast(f) => f
    case _ => None
  }

  /** No file is in two places, and none is closed twice. */
  ghost predicate FilesApart(w: World) {
    && NoDup(w.fileLog)
    && (forall f | f in w.fileLog :: f < w.files && w.s.logFile != Some(f))
    && (w.s.logFile.Some? ==> w.s.logFile.value < w.files)
    && (forall t | t in w.threads && CarriedFile(w.threads[t]).Some? ::
          && CarriedFile(w.threads[t]).value < w.files
          && CarriedFile(w.threads[t]).value !in w.fileLog
          && CarriedFile(w.threads[t]) != w.s.logFile)
    && (forall t, u | t in w.threads && u in w.threads && CarriedFile(w.threads[t]).Some?
                      && CarriedFile(w.threads[t]) == CarriedFile(w.threads[u]) :: t == u)
  }

  /** No file is lost: it is s.logFile, or a goroutine will store or close it, or it is closed. */
  ghost predicate FilesFound(w: World) {
    forall f: nat | f < w.files ::
      w.s.logFile == Some(f) || f in w.fileLog || exists t :: t in w.threads && CarriedFile(w.threads[t]) == Some(f)
  }

  /** What a step of goroutine t does with files: nothing, open one, take s.logFile, store its
      own there, or close it. */
  ghost predicate FileMove(w: World, w': World, t: nat, carried: Option<nat>, now: Option<nat>) {
    if w'.files != w.files then
      w'.files == w.files + 1 && carried.None? && now == Some(w.files)
      && w'.fileLog == w.fileLog && w'.s.logFile == w.s.logFile
    else if w'.fileLog != w.fileLog then
      carried.Some? && now.None? && w'.fileLog == w.fileLog + [carried.value] && w'.s.logFile == w.s.logFile
    else if w'.s.logFile == w.s.logFile then
      now == carried
    else
      (carried.None? && now == w.s.logFile && w'.s.logFile.None?)
      || (carried.Some? && now.None? && w.s.logFile.None? && w'.s.logFile == carried)
  }

  lemma {:induction false} FileMoves(w: World, a: Action)
    requires NothingOverwritten(w) && Enabled(w, a)
    ensures var w' := Step(w, a);
            FileMove(w, w', a.t, if a.t in w.threads then CarriedFile(w.threads[a.t]) else None, CarriedFile(w'.threads[a.t]))
  {
    var w' := Step(w, a);
    if a.Run? {
      var th := w.threads[a.t];
      if CarriedFile(th).None? && !th.Opening? && !th.Stopping? && !th.ShuttingDown? {
        assert w'.files == w.files && w'.fileLog == w.fileLog && w'.s.logFile == w.s.logFile;
      }
    }
  }

  /** The goroutines other than t carry what they carried. */
  ghost predicate OthersCarry(w: World, w': World, t: nat) {
    forall u | u in w'.threads && u != t && CarriedFile(w'.threads[u]).Some? ::
      u in w.threads && w'.threads[u] == w.threads[u]
  }

  lemma {:induction false} FileMoveKeepsApart(w: World, w': World, t: nat)
    requires FilesApart(w) && t in w'.threads && OthersCarry(w, w', t)
    requires FileMove(w, w', t, if t in w.threads then CarriedFile(w.threads[t]) else None, CarriedFile(w'.threads[t]))
    ensures FilesApart(w')
  {
    if w'.fileLog != w.fileLog {
      assert forall f | f in w'.fileLog :: f in w.fileLog || f == w'.fileLog[|w.fileLog|];
    }
  }

  lemma {:induction false} FilesApartKept(w: World, a: Action)
    requires NothingOverwritten(w) && FilesApart(w) && Enabled(w, a)
    ensures FilesApart(Step(w, a))
  {
    FileMoves(w, a);
    FileMoveKeepsApart(w, Step(w, a), a.t);
  }

  lemma {:induction false} FilesFoundKept(w: World, a: Action)
    requires NothingOverwritten(w) && FilesFound(w) && Enabled(w, a)
    ensures FilesFound(Step(w, a))
  {
    var w' := Step(w, a);
    forall f: nat | f < w'.files && w'.s.logFile != Some(f) && f !in w'.fileLog
      ensures exists t :: t in w'.threads && CarriedFile(w'.threads[t]) == Some(f)
    {
      if f == w.files || w.s.logFile == Some(f) {
        assert CarriedFile(w'.threads[a.t]) == Some(f);
      } else {
        assert f !in w.fileLog;
        var t :| t in w.threads && CarriedFile(w.threads[t]) == Some(f);
        assert t != a.t ==> w'.threads[t] == w.threads[t];
      }
    }
  }

  ghost predicate Resources(w: World) {
    Exclusive(w) && NothingOverwritten(w) && ProcsConserved(w) && FilesApart(w) && FilesFound(w)
  }

  /** Resource ownership at every moment of every run. */
  lemma {:induction false} ResourcesInAnyRun(lease: nat, acts: seq<Action>)
    requires After(Init(lease), acts).Some?
    ensures Resources(After(Init(lease), acts).value)
    decreases |acts|
  {
    if acts != [] {
      var w := After(Init(lease), acts[..|acts| - 1]).value;
      var a := acts[|acts| - 1];
      ResourcesInAnyRun(lease, acts[..|acts| - 1]);
      ExclusiveKept(w, a);
      NothingOverwrittenKept(w, a);
      ProcsConservedKept(w, a);
      FilesApartKept(w, a);
      FilesFoundKept(w, a);
    }
  }
}
