/** The switch protocol: any number of goroutines run the scheduler's critical sections in any
    order. One Run action is one critical section, one lock operation or one step outside the
    lock that makes or gives up a process, a log file or a channel. */
module SchedulerProtocol {
  import opened Common
  import opened SchedulerSections

  /** How a switch ended. */
  datatype Ending = There | Ready | StartFailed | WaitFailed

  /** Where a goroutine stands. */
  datatype Thread =
    // EnsureCoding and its caller
    | CallCoding
    | Waiting(on: Option<nat>)
    // ensureTarget; WantSwitch waits for switchMu, Returned has released it
    | WantSwitch(target: Mode)
    | Look(target: Mode)
    | Draining(target: Mode)
    | Stopping(target: Mode)
    | Killing(target: Mode, victim: Option<nat>, oldLog: Option<nat>)
    | ClosingOld(target: Mode, oldLog: Option<nat>)
    | Opening(target: Mode)
    | StoringLog(target: Mode, newLog: nat)
    | Publishing(target: Mode)
    | Starting(target: Mode, ch: nat)
    | StoringCmd(target: Mode, ch: nat, proc: nat)
    | SpawningReap(target: Mode, ch: nat, proc: nat)
    | AwaitingReady(target: Mode, ch: nat)
    | GivingUp(target: Mode, ch: nat)
    | SettingReady(target: Mode, ch: nat)
    | MarkingReady(target: Mode, ch: nat)
    | MarkingStartFailed(target: Mode, ch: nat)
    | Leaving(target: Mode, result: Option<nat>, how: Ending)
    | Returned(target: Mode, result: Option<nat>, how: Ending)
    // reconcileReady; Probing has read mode and channel and released the lock
    | Reconciling
    | Probing(seen: Option<nat>)
    | MarkingReconciled(seen: Option<nat>)
    // Loop's lease tick, reap, Shutdown, TouchCoding
    | LeaseTick
    | Reaping(child: nat)
    | ShuttingDown
    | ClosingLast(oldLog: Option<nat>)
    | Touching
    | Finished

  /** What the environment decides in a step: success or failure of a probe, a start or an
      open, an empty command (Plain), a clock reading, the number of a new goroutine. */
  datatype Choice = Plain | Yes | No | Clock(now: nat) | Child(id: nat)

  datatype Action = Spawn(t: nat, what: Thread) | Run(t: nat, choice: Choice)

  /** channels, procs and files count what was made so far; the logs list, in order, the
      channels closed, the processes handed to stopProcess and the log files closed. */
  datatype World = World(
    s: Shared,
    switchMu: Option<nat>,
    threads: map<nat, Thread>,
    lease: nat,
    channels: nat,
    closeLog: seq<nat>,
    procs: nat,
    stopLog: seq<nat>,
    files: nat,
    fileLog: seq<nat>)

  function Init(lease: nat): World {
    World(INITIAL, None, map[], lease, 0, [], 0, [], 0, [])
  }

  /** The goroutines the program starts: requests, Start, Loop's ticks, Shutdown. */
  predicate IsEntry(th: Thread) {
    th.CallCoding? || th == WantSwitch(Background) || th.LeaseTick? || th.Reconciling?
    || th.ShuttingDown? || th.Touching?
  }

  predicate Runnable(w: World, th: Thread, c: Choice) {
    match th
    case Finished => false
    case Waiting(on) => c.No? || (on.Some? && on.value in w.closeLog)
    case WantSwitch(_) => w.switchMu.None?
    case SpawningReap(_, _, _) => c.Child? && c.id !in w.threads
    case SettingReady(_, _) => c.Clock?
    case LeaseTick => c.Clock?
    case Touching => c.Clock?
    case Returned(target, _, how) => target == Coding && (how == There || how == Ready)
    case _ => true
  }

  predicate Enabled(w: World, a: Action) {
    match a
    case Spawn(t, what) => t !in w.threads && IsEntry(what)
    case Run(t, c) => t in w.threads && Runnable(w, w.threads[t], c)
  }

  function Goto(w: World, t: nat, th: Thread): World {
    w.(threads := w.threads[t := th])
  }

  /** markReadyClosed(ch), with close(ch) logged. */
  function Mark(w: World, ch: Option<nat>): World {
    w.(s := MarkClosed(w.s, ch),
       closeLog := if WillClose(w.s, ch) then w.closeLog + [ch.value] else w.closeLog)
  }

  function Step(w: World, a: Action): World
    requires Enabled(w, a)
  {
    match a
    case Spawn(t, what) => Goto(w, t, what)
    case Run(t, c) => RunStep(w, t, c)
  }

  function RunStep(w: World, t: nat, c: Choice): World
    requires t in w.threads && Runnable(w, w.threads[t], c)
  {
    match w.threads[t]
    case CallCoding =>
      Goto(w, t, if CodingKnown(w.s) then Waiting(w.s.readyCh) else WantSwitch(Coding))
    case Waiting(_) => Goto(w, t, Finished)
    case WantSwitch(m) => Goto(w.(switchMu := Some(t)), t, Look(m))
    case Look(m) =>
      Goto(w, t, if AlreadyThere(w.s, m) then Leaving(m, w.s.readyCh, There) else Draining(m))
    case Draining(m) => Goto(w, t, Stopping(m))
    case Stopping(m) =>
      Goto(w.(s := TakeForStop(w.s)), t, Killing(m, w.s.cmd, w.s.logFile))
    case Killing(m, p, f) =>
      Goto(w.(stopLog := if p.Some? then w.stopLog + [p.value] else w.stopLog), t, ClosingOld(m, f))
    case ClosingOld(m, f) =>
      Goto(w.(fileLog := if f.Some? then w.fileLog + [f.value] else w.fileLog), t, Opening(m))
    case Opening(m) =>
      if c.Yes? then Goto(w.(files := w.files + 1), t, StoringLog(m, w.files))
      else Goto(w, t, Publishing(m))
    case StoringLog(m, f) => Goto(w.(s := StoreLogFile(w.s, f)), t, Publishing(m))
    case Publishing(m) =>
      Goto(w.(s := PublishTarget(w.s, m, w.channels), channels := w.channels + 1),
           t, Starting(m, w.channels))
    case Starting(m, ch) =>
      if c.Plain? then Goto(w, t, AwaitingReady(m, ch))
      else if c.Yes? then Goto(w.(procs := w.procs + 1), t, StoringCmd(m, ch, w.procs))
      else Goto(w, t, MarkingStartFailed(m, ch))
    case StoringCmd(m, ch, p) => Goto(w.(s := StoreCommand(w.s, p)), t, SpawningReap(m, ch, p))
    case SpawningReap(m, ch, p) => Goto(Goto(w, c.id, Reaping(p)), t, AwaitingReady(m, ch))
    case AwaitingReady(m, ch) => Goto(w, t, if c.Yes? then SettingReady(m, ch) else GivingUp(m, ch))
    case GivingUp(m, ch) =>
      Goto(w.(s := GiveUpWaiting(w.s)), t, Leaving(m, Some(ch), WaitFailed))
    case SettingReady(m, ch) => Goto(w.(s := BecomeReady(w.s, m, c.now)), t, MarkingReady(m, ch))
    case MarkingReady(m, ch) => Goto(Mark(w, Some(ch)), t, Leaving(m, Some(ch), Ready))
    case MarkingStartFailed(m, ch) => Goto(Mark(w, Some(ch)), t, Leaving(m, Some(ch), StartFailed))
    case Leaving(m, ch, how) => Goto(w.(switchMu := None), t, Returned(m, ch, how))
    case Returned(_, ch, _) => Goto(w, t, Waiting(ch))
    case Reconciling => Goto(w, t, if WorthProbing(w.s) then Probing(w.s.readyCh) else Finished)
    case Probing(ch) =>
      if c.Yes? && !w.s.readyOK then Goto(w.(s := CommitProbe(w.s)), t, MarkingReconciled(ch))
      else Goto(w, t, Finished)
    case MarkingReconciled(ch) => Goto(Mark(w, ch), t, Finished)
    case LeaseTick =>
      Goto(w, t, if IdleTooLong(w.s, c.now, w.lease) then WantSwitch(Background) else Finished)
    case Reaping(p) => Goto(w.(s := ProcessExited(w.s, p)), t, Finished)
    case ShuttingDown => Goto(w.(s := TakeForShutdown(w.s)), t, ClosingLast(w.s.logFile))
    case ClosingLast(f) =>
      Goto(w.(fileLog := if f.Some? then w.fileLog + [f.value] else w.fileLog), t, Finished)
    case Touching => Goto(w.(s := CodingSeen(w.s, c.now)), t, Finished)
  }

  /** The state a run reaches; None when an action is not enabled where it stands. */
  function After(w0: World, acts: seq<Action>): Option<World>
    decreases |acts|
  {
    if acts == [] then Some(w0)
    else
      var before := After(w0, acts[..|acts| - 1]);
      var a := acts[|acts| - 1];
      if before.Some? && Enabled(before.value, a) then Some(Step(before.value, a)) else None
  }
}
