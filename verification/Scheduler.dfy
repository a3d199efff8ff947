/** The process scheduler's shared fields and the critical sections of its mutex
    (internal/scheduler/scheduler.go). Every section is a function on the shared state; the
    class below is the scheduler as the program writes it, one method for a section. */
module SchedulerSections {
  import opened Common

  datatype Mode = Unset | Coding | Background

  /** The fields guarded by `mu`. Channels, processes and log files are known by number:
      channel c is the one made by the c-th publication (from 0). */
  datatype Shared = Shared(
    mode: Mode,
    readyOK: bool,
    readyCh: Option<nat>,
    readyChClosed: bool,
    cmd: Option<nat>,
    logFile: Option<nat>,
    lastCodingAt: Option<nat>)

  const INITIAL := Shared(Unset, false, None, false, None, None, None)

  /** EnsureCoding answers from the current channel, without a switch. */
  predicate CodingKnown(s: Shared) {
    s.mode == Coding && (s.readyOK || s.readyCh.Some?)
  }

  /** The second look inside ensureTarget finds nothing to do. */
  predicate AlreadyThere(s: Shared, target: Mode) {
    s.mode == target && s.readyOK
  }

  /** Loop's lease check. */
  predicate IdleTooLong(s: Shared, now: nat, lease: nat) {
    s.mode == Coding && s.lastCodingAt.Some? && now >= s.lastCodingAt.value + lease
  }

  function TakeForStop(s: Shared): Shared {
    s.(cmd := None, logFile := None)
  }

  function TakeForShutdown(s: Shared): Shared {
    s.(logFile := None)
  }

  function StoreLogFile(s: Shared, f: nat): Shared {
    s.(logFile := Some(f))
  }

  function PublishTarget(s: Shared, target: Mode, ch: nat): Shared {
    s.(mode := target, readyOK := false, readyCh := Some(ch), readyChClosed := false)
  }

  function StoreCommand(s: Shared, p: nat): Shared {
    s.(cmd := Some(p))
  }

  function GiveUpWaiting(s: Shared): Shared {
    s.(readyOK := false)
  }

  function BecomeReady(s: Shared, target: Mode, now: nat): Shared {
    s.(readyOK := true, lastCodingAt := if target == Coding then Some(now) else s.lastCodingAt)
  }

  /** markReadyClosed closes ch exactly when ch is the current channel and not yet closed. */
  predicate WillClose(s: Shared, ch: Option<nat>) {
    ch.Some? && s.readyCh == ch && !s.readyChClosed
  }

  function MarkClosed(s: Shared, ch: Option<nat>): Shared {
    if WillClose(s, ch) then s.(readyChClosed := true) else s
  }

  predicate WorthProbing(s: Shared) {
    !s.readyOK && s.cmd.Some?
  }

  function CommitProbe(s: Shared): Shared {
    s.(readyOK := true)
  }

  function ProcessExited(s: Shared, p: nat): Shared {
    if s.cmd == Some(p) then s.(readyOK := false) else s
  }

  function CodingSeen(s: Shared, now: nat): Shared {
    s.(lastCodingAt := Some(now))
  }

  predicate BackgroundIsReady(s: Shared) {
    s.mode == Background && s.readyOK
  }

  /** The scheduler object. A method is one critical section of `mu`. */
  class Scheduler {
    var mode: Mode
    var readyOK: bool
    var readyCh: Option<nat>
    var readyChClosed: bool
    var cmd: Option<nat>
    var logFile: Option<nat>
    var lastCodingAt: Option<nat>

    ghost function View(): Shared
      reads this
    {
      Shared(mode, readyOK, readyCh, readyChClosed, cmd, logFile, lastCodingAt)
    }

    constructor ()
      ensures View() == INITIAL
      ensures mode == Unset && !readyOK && readyCh == None && !readyChClosed && cmd == None && logFile == None && lastCodingAt == None
    {
      mode, readyOK, readyCh, readyChClosed := Unset, false, None, false;
      cmd, logFile, lastCodingAt := None, None, None;
    }

    /** EnsureCoding's fast path: both branches hand out the current channel. */
    method EnsureCodingLook() returns (known: bool, ch: Option<nat>)
      ensures known == CodingKnown(View()) == (mode == Coding && (readyOK || readyCh != None))
      ensures ch == if known then readyCh else None
    {
      if mode == Coding && readyOK { return true, readyCh; }
      if mode == Coding && !readyOK && readyCh.Some? { return true, readyCh; }
      return false, None;
    }

    method TargetLook(target: Mode) returns (there: bool, ch: Option<nat>)
      ensures there == AlreadyThere(View(), target) == (mode == target && readyOK)
      ensures ch == if there then readyCh else None
    {
      if mode == target && readyOK { return true, readyCh; }
      return false, None;
    }

    method StopTake() returns (p: Option<nat>, f: Option<nat>)
      modifies `cmd, `logFile
      ensures cmd == None && logFile == None
      ensures p == old(cmd) && f == old(logFile) && View() == TakeForStop(old(View()))
    {
      p := cmd;
      cmd := None;
      f := logFile;
      logFile := None;
    }

    method ShutdownTake() returns (p: Option<nat>, f: Option<nat>)
      modifies `logFile
      ensures logFile == None
      ensures p == old(cmd) && f == old(logFile) && View() == TakeForShutdown(old(View()))
    {
      p := cmd;
      f := logFile;
      logFile := None;
    }

    method SetLogFile(f: nat)
      modifies `logFile
      ensures logFile == Some(f)
      ensures View() == StoreLogFile(old(View()), f)
    {
      logFile := Some(f);
    }

    method Publish(target: Mode, newReady: nat)
      modifies `mode, `readyOK, `readyCh, `readyChClosed
      ensures mode == target && !readyOK && readyCh == Some(newReady) && !readyChClosed
      ensures View() == PublishTarget(old(View()), target, newReady)
    {
      mode := target;
      readyOK := false;
      readyCh := Some(newReady);
      readyChClosed := false;
    }

    method SetCmd(p: nat)
      modifies `cmd
      ensures cmd == Some(p)
      ensures View() == StoreCommand(old(View()), p)
    {
      cmd := Some(p);
    }

    method WaitFailed()
      modifies `readyOK
      ensures !readyOK
      ensures View() == GiveUpWaiting(old(View()))
    {
      readyOK := false;
    }

    method SetReady(target: Mode, now: nat)
      modifies `readyOK, `lastCodingAt
      ensures readyOK && lastCodingAt == if target == Coding then Some(now) else old(lastCodingAt)
      ensures View() == BecomeReady(old(View()), target, now)
    {
      readyOK := true;
      if target == Coding { lastCodingAt := Some(now); }
    }

    /** closes tells whether close(ch) runs. */
    method MarkReadyClosed(ch: Option<nat>) returns (closes: bool)
      modifies `readyChClosed
      ensures closes == (ch != None && ch == readyCh && !old(readyChClosed))
      ensures readyChClosed == (old(readyChClosed) || closes)
      ensures closes == WillClose(old(View()), ch) && View() == MarkClosed(old(View()), ch)
    {
      if ch.None? { return false; }
      if readyCh != ch { return false; }
      if readyChClosed { return false; }
      readyChClosed := true;
      closes := true;
    }

    method ReconcileRead() returns (probe: bool, m: Mode, ch: Option<nat>)
      ensures probe == WorthProbing(View()) == (!readyOK && cmd != None)
      ensures probe ==> m == mode && ch == readyCh
    {
      if readyOK || cmd.None? { return false, Unset, None; }
      return true, mode, readyCh;
    }

    /** Mode and channel are not looked at again. */
    method ReconcileCommit() returns (recovered: bool)
      modifies `readyOK
      ensures readyOK
      ensures recovered == !old(readyOK) && View() == CommitProbe(old(View()))
    {
      if !readyOK {
        readyOK := true;
        recovered := true;
      } else {
        recovered := false;
      }
    }

    method Reap(p: nat)
      modifies `readyOK
      ensures readyOK == (old(readyOK) && cmd != Some(p))
      ensures View() == ProcessExited(old(View()), p)
    {
      if cmd == Some(p) { readyOK := false; }
    }

    method TouchCoding(now: nat)
      modifies `lastCodingAt
      ensures lastCodingAt == Some(now)
      ensures View() == CodingSeen(old(View()), now)
    {
      lastCodingAt := Some(now);
    }

    /** BackgroundReady; base is the address derived from the configured readiness URL. */
    method BackgroundReady(base: string) returns (url: string, ok: bool)
      ensures ok == BackgroundIsReady(View()) == (mode == Background && readyOK)
      ensures url == if ok then base else ""
    {
      if mode == Background && readyOK { return base, true; }
      return "", false;
    }

    method LeaseCheck(now: nat, lease: nat) returns (idle: bool)
      ensures idle == IdleTooLong(View(), now, lease)
      ensures idle == (mode == Coding && lastCodingAt.Some? && now - lastCodingAt.value >= lease)
    {
      idle := mode == Coding && lastCodingAt.Some? && now - lastCodingAt.value >= lease;
    }
  }
}
