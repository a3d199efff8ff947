/** The scheduler object driven by its goroutines. Every action of the protocol is a critical
    section of the object; ensureTarget, EnsureCoding and reconcileReady are the program's own
    sequences of sections, with other goroutines acting in between. */
module SchedulerMachine {
  import opened Common
  import opened SchedulerSections
  import opened SchedulerProtocol
  import opened SchedulerSafety
  import opened SchedulerReady

  /** What ensureTarget meets: others' actions before each section, whether the log file opens,
      there is a command, it starts, its process is ready in time, and the clock then. */
  datatype Env = Env(others: nat -> seq<Action>, opens: bool, command: bool, starts: bool, ready: bool, now: nat)

  /** What others do meanwhile does not move a goroutine. */
  lemma OtherKeeps(w: World, a: Action, t: nat)
    requires Enabled(w, a) && t in w.threads && !(a.Run? && a.t == t)
    ensures t in Step(w, a).threads && Step(w, a).threads[t] == w.threads[t] && Step(w, a).channels >= w.channels
  {}

  class Machine {
    const sch: Scheduler
    const lease: nat
    var switchMu: Option<nat>
    var threads: map<nat, Thread>
    var channels: nat
    var closeLog: seq<nat>
    var procs: nat
    var stopLog: seq<nat>
    var files: nat
    var fileLog: seq<nat>
    ghost var log: seq<Action> // all that was done

    ghost function View(): World
      reads this, sch
    {
      World(sch.View(), switchMu, threads, lease, channels, closeLog, procs, stopLog, files, fileLog)
    }

    /** What was done is a run of the protocol, and this is the state it reaches. */
    ghost predicate Valid()
      reads this, sch
    {
      After(Init(lease), log) == Some(View())
    }

    /** Goroutine t stands at th. */
    ghost predicate At(t: nat, th: Thread)
      reads this
    {
      t in threads && threads[t] == th
    }

    /** One step of t was done since the state was w and the log l. */
    ghost predicate Did(w: World, l: seq<Action>, t: nat, c: Choice)
      reads this, sch
    {
      Valid() && Enabled(w, Run(t, c)) && View() == Step(w, Run(t, c)) && log == l + [Run(t, c)]
    }

    constructor (lease: nat)
      ensures Valid() && View() == Init(lease) && log == [] && fresh(sch) && this.lease == lease
    {
      sch := new Scheduler();
      this.lease := lease;
      switchMu, threads := None, map[];
      channels, closeLog, procs, stopLog, files, fileLog := 0, [], 0, [], 0, [];
      log := [];
    }

    ghost method Record(a: Action, before: World)
      requires After(Init(lease), log) == Some(before) && Enabled(before, a) && View() == Step(before, a)
      modifies this`log
      ensures Valid() && log == old(log) + [a]
    {
      hide Init, Step, Enabled;
      assert (log + [a])[..|log|] == log;
      log := log + [a];
    }

    method MoveTo(t: nat, th: Thread)
      modifies this`threads
      ensures threads == old(threads)[t := th]
    {
      threads := threads[t := th];
    }

    /** markReadyClosed(ch), with close(ch) logged. */
    method MarkReady(ch: Option<nat>)
      modifies this`closeLog, sch
      ensures View() == Mark(old(View()), ch)
      ensures sch.View() == old(sch.View()).(readyChClosed := sch.readyChClosed)
      ensures ch != None && sch.readyCh == ch ==> sch.readyChClosed
    {
      var closes := sch.MarkReadyClosed(ch);
      if closes { closeLog := closeLog + [ch.value]; }
    }

    // ----- The steps, one section each -----

    /** switchMu.Lock() */
    method LockSwitch(t: nat, m: Mode, c: Choice)
      requires Valid() && At(t, WantSwitch(m)) && switchMu.None?
      modifies this, sch
      ensures Did(old(View()), old(log), t, c) && Valid() && old(log) <= log && channels >= old(channels)
      ensures At(t, Look(m))
    {
      hide After, Init;
      ghost var before := View();
      switchMu := Some(t);
      MoveTo(t, Look(m));
      Record(Run(t, c), before);
    }

    /** The second look. */
    method SecondLook(t: nat, m: Mode, c: Choice) returns (there: bool, ch: Option<nat>)
      requires Valid() && At(t, Look(m))
      modifies this, sch
      ensures Did(old(View()), old(log), t, c) && Valid() && old(log) <= log && channels >= old(channels)
      ensures At(t, if there then Leaving(m, ch, There) else Draining(m))
    {
      hide After, Init, AlreadyThere;
      ghost var before := View();
      there, ch := sch.TargetLook(m);
      MoveTo(t, if there then Leaving(m, ch, There) else Draining(m));
      Record(Run(t, c), before);
    }

    /** drain */
    method Drain(t: nat, m: Mode, c: Choice)
      requires Valid() && At(t, Draining(m))
      modifies this, sch
      ensures Did(old(View()), old(log), t, c) && Valid() && old(log) <= log && channels >= old(channels)
      ensures At(t, Stopping(m))
    {
      hide After, Init;
      ghost var before := View();
      MoveTo(t, Stopping(m));
      Record(Run(t, c), before);
    }

    /** stopProcess takes command and log file. */
    method TakeOld(t: nat, m: Mode, c: Choice) returns (p: Option<nat>, f: Option<nat>)
      requires Valid() && At(t, Stopping(m))
      modifies this, sch
      ensures Did(old(View()), old(log), t, c) && Valid() && old(log) <= log && channels >= old(channels)
      ensures At(t, Killing(m, p, f))
    {
      hide After, Init, TakeForStop;
      ghost var before := View();
      p, f := sch.StopTake();
      MoveTo(t, Killing(m, p, f));
      Record(Run(t, c), before);
    }

    /** stopProcess kills. */
    method Kill(t: nat, m: Mode, p: Option<nat>, f: Option<nat>, c: Choice)
      requires Valid() && At(t, Killing(m, p, f))
      modifies this, sch
      ensures Did(old(View()), old(log), t, c) && Valid() && old(log) <= log && channels >= old(channels)
      ensures At(t, ClosingOld(m, f))
    {
      hide After, Init;
      ghost var before := View();
      if p.Some? { stopLog := stopLog + [p.value]; }
      MoveTo(t, ClosingOld(m, f));
      Record(Run(t, c), before);
    }

    /** stopProcess closes the log file. */
    method CloseOld(t: nat, m: Mode, f: Option<nat>, c: Choice)
      requires Valid() && At(t, ClosingOld(m, f))
      modifies this, sch
      ensures Did(old(View()), old(log), t, c) && Valid() && old(log) <= log && channels >= old(channels)
      ensures At(t, Opening(m))
    {
      hide After, Init;
      ghost var before := View();
      if f.Some? { fileLog := fileLog + [f.value]; }
      MoveTo(t, Opening(m));
      Record(Run(t, c), before);
    }

    /** openProcessLog */
    method OpenLog(t: nat, m: Mode, c: Choice) returns (f: Option<nat>)
      requires Valid() && At(t, Opening(m))
      modifies this, sch
      ensures Did(old(View()), old(log), t, c) && Valid() && old(log) <= log && channels >= old(channels)
      ensures At(t, if f.Some? then StoringLog(m, f.value) else Publishing(m))
    {
      hide After, Init;
      ghost var before := View();
      if c.Yes? {
        f := Some(files);
        MoveTo(t, StoringLog(m, files));
        files := files + 1;
      } else {
        f := None;
        MoveTo(t, Publishing(m));
      }
      Record(Run(t, c), before);
    }

    /** s.logFile = f */
    method StoreLog(t: nat, m: Mode, f: nat, c: Choice)
      requires Valid() && At(t, StoringLog(m, f))
      modifies this, sch
      ensures Did(old(View()), old(log), t, c) && Valid() && old(log) <= log && channels >= old(channels)
      ensures At(t, Publishing(m))
    {
      hide After, Init, StoreLogFile;
      ghost var before := View();
      sch.SetLogFile(f);
      MoveTo(t, Publishing(m));
      Record(Run(t, c), before);
    }

    /** The publication. */
    method PublishNew(t: nat, m: Mode, c: Choice) returns (ch: nat)
      requires Valid() && At(t, Publishing(m))
      modifies this, sch
      ensures Did(old(View()), old(log), t, c) && Valid() && old(log) <= log && channels >= old(channels)
      ensures At(t, Starting(m, ch))
      ensures ch == old(channels)
    {
      hide After, Init, PublishTarget;
      ghost var before := View();
      ch := channels;
      sch.Publish(m, ch);
      MoveTo(t, Starting(m, ch));
      channels := channels + 1;
      Record(Run(t, c), before);
    }

    /** cmd.Start(), or nothing for an empty command. */
    method StartCommand(t: nat, m: Mode, ch: nat, c: Choice) returns (p: Option<nat>)
      requires Valid() && At(t, Starting(m, ch))
      modifies this, sch
      ensures Did(old(View()), old(log), t, c) && Valid() && old(log) <= log && channels >= old(channels)
      ensures At(t, if c.Plain? then AwaitingReady(m, ch) else if p.Some? then StoringCmd(m, ch, p.value) else MarkingStartFailed(m, ch))
      ensures p.Some? == c.Yes?
    {
      hide After, Init;
      ghost var before := View();
      p := None;
      if c.Plain? {
        MoveTo(t, AwaitingReady(m, ch));
      } else if c.Yes? {
        p := Some(procs);
        MoveTo(t, StoringCmd(m, ch, procs));
        procs := procs + 1;
      } else {
        MoveTo(t, MarkingStartFailed(m, ch));
      }
      Record(Run(t, c), before);
    }

    /** s.cmd = cmd */
    method StoreCmd(t: nat, m: Mode, ch: nat, p: nat, c: Choice)
      requires Valid() && At(t, StoringCmd(m, ch, p))
      modifies this, sch
      ensures Did(old(View()), old(log), t, c) && Valid() && old(log) <= log && channels >= old(channels)
      ensures At(t, SpawningReap(m, ch, p))
    {
      hide After, Init, StoreCommand;
      ghost var before := View();
      sch.SetCmd(p);
      MoveTo(t, SpawningReap(m, ch, p));
      Record(Run(t, c), before);
    }

    /** go s.reap(cmd) */
    method SpawnReap(t: nat, m: Mode, ch: nat, p: nat, c: Choice)
      requires Valid() && At(t, SpawningReap(m, ch, p)) && c.Child? && c.id !in threads
      modifies this, sch
      ensures Did(old(View()), old(log), t, c) && Valid() && old(log) <= log && channels >= old(channels)
      ensures At(t, AwaitingReady(m, ch))
    {
      hide After, Init;
      ghost var before := View();
      MoveTo(c.id, Reaping(p));
      MoveTo(t, AwaitingReady(m, ch));
      Record(Run(t, c), before);
    }

    /** waitReady */
    method AwaitReady(t: nat, m: Mode, ch: nat, c: Choice) returns (ok: bool)
      requires Valid() && At(t, AwaitingReady(m, ch))
      modifies this, sch
      ensures Did(old(View()), old(log), t, c) && Valid() && old(log) <= log && channels >= old(channels)
      ensures At(t, if ok then SettingReady(m, ch) else GivingUp(m, ch))
      ensures ok == c.Yes?
    {
      hide After, Init;
      ghost var before := View();
      ok := c.Yes?;
      MoveTo(t, if ok then SettingReady(m, ch) else GivingUp(m, ch));
      Record(Run(t, c), before);
    }

    /** readyOK = false after a failed wait. */
    method GiveUp(t: nat, m: Mode, ch: nat, c: Choice)
      requires Valid() && At(t, GivingUp(m, ch))
      modifies this, sch
      ensures Did(old(View()), old(log), t, c) && Valid() && old(log) <= log && channels >= old(channels)
      ensures At(t, Leaving(m, Some(ch), Ending.WaitFailed))
    {
      hide After, Init, GiveUpWaiting;
      ghost var before := View();
      sch.WaitFailed();
      MoveTo(t, Leaving(m, Some(ch), Ending.WaitFailed));
      Record(Run(t, c), before);
    }

    /** readyOK = true */
    method SetReady(t: nat, m: Mode, ch: nat, c: Choice)
      requires Valid() && At(t, SettingReady(m, ch)) && c.Clock?
      modifies this, sch
      ensures Did(old(View()), old(log), t, c) && Valid() && old(log) <= log && channels >= old(channels)
      ensures At(t, MarkingReady(m, ch))
    {
      hide After, Init, BecomeReady;
      ghost var before := View();
      sch.SetReady(m, c.now);
      MoveTo(t, MarkingReady(m, ch));
      Record(Run(t, c), before);
    }

    /** markReadyClosed(newReady) */
    method CloseReady(t: nat, m: Mode, ch: nat, c: Choice)
      requires Valid() && At(t, MarkingReady(m, ch))
      modifies this, sch
      ensures Did(old(View()), old(log), t, c) && Valid() && old(log) <= log && channels >= old(channels)
      ensures At(t, Leaving(m, Some(ch), Ready))
    {
      hide After, Init, MarkClosed, WillClose;
      ghost var before := View();
      MarkReady(Some(ch));
      MoveTo(t, Leaving(m, Some(ch), Ready));
      Record(Run(t, c), before);
    }

    /** markReadyClosed(newReady) after a failed start. */
    method CloseStartFailed(t: nat, m: Mode, ch: nat, c: Choice)
      requires Valid() && At(t, MarkingStartFailed(m, ch))
      modifies this, sch
      ensures Did(old(View()), old(log), t, c) && Valid() && old(log) <= log && channels >= old(channels)
      ensures At(t, Leaving(m, Some(ch), StartFailed))
    {
      hide After, Init, MarkClosed, WillClose;
      ghost var before := View();
      MarkReady(Some(ch));
      MoveTo(t, Leaving(m, Some(ch), StartFailed));
      Record(Run(t, c), before);
    }

    /** switchMu.Unlock() and the return. */
    method UnlockSwitch(t: nat, m: Mode, ch: Option<nat>, how: Ending, c: Choice)
      requires Valid() && At(t, Leaving(m, ch, how))
      modifies this, sch
      ensures Did(old(View()), old(log), t, c) && Valid() && old(log) <= log && channels >= old(channels)
      ensures At(t, Returned(m, ch, how))
    {
      hide After, Init;
      ghost var before := View();
      switchMu := None;
      MoveTo(t, Returned(m, ch, how));
      Record(Run(t, c), before);
    }

    /** EnsureCoding without a switch. */
    method FastPath(t: nat, c: Choice) returns (known: bool, ch: Option<nat>)
      requires Valid() && At(t, CallCoding)
      modifies this, sch
      ensures Did(old(View()), old(log), t, c) && Valid() && old(log) <= log && channels >= old(channels)
      ensures At(t, if known then Waiting(ch) else WantSwitch(Coding))
    {
      hide After, Init, CodingKnown;
      ghost var before := View();
      known, ch := sch.EnsureCodingLook();
      MoveTo(t, if known then Waiting(ch) else WantSwitch(Coding));
      Record(Run(t, c), before);
    }

    /** reconcileReady reads mode and channel. */
    method Peek(t: nat, c: Choice) returns (probe: bool, ch: Option<nat>)
      requires Valid() && At(t, Reconciling)
      modifies this, sch
      ensures Did(old(View()), old(log), t, c) && Valid() && old(log) <= log && channels >= old(channels)
      ensures At(t, if probe then Probing(ch) else Finished)
      ensures probe == (!old(sch.readyOK) && old(sch.cmd) != None) && (probe ==> ch == old(sch.readyCh))
      ensures sch.View() == old(sch.View()) && closeLog == old(closeLog)
    {
      hide After, Init;
      ghost var before := View();
      var m;
      probe, m, ch := sch.ReconcileRead();
      MoveTo(t, if probe then Probing(ch) else Finished);
      Record(Run(t, c), before);
    }

    /** reconcileReady commits a probe that succeeded. */
    method CommitProbed(t: nat, ch: Option<nat>, c: Choice) returns (recovered: bool)
      requires Valid() && At(t, Probing(ch))
      modifies this, sch
      ensures Did(old(View()), old(log), t, c) && Valid() && old(log) <= log && channels >= old(channels)
      ensures At(t, if recovered then MarkingReconciled(ch) else Finished)
      ensures recovered == (c == Yes && !old(sch.readyOK))
      ensures sch.View() == old(sch.View()).(readyOK := old(sch.readyOK) || recovered) && closeLog == old(closeLog)
    {
      hide After, Init;
      ghost var before := View();
      recovered := false;
      if c.Yes? { recovered := sch.ReconcileCommit(); }
      MoveTo(t, if recovered then MarkingReconciled(ch) else Finished);
      Record(Run(t, c), before);
    }

    /** markReadyClosed(ch) of reconcileReady. */
    method CloseReconciled(t: nat, ch: Option<nat>, c: Choice)
      requires Valid() && At(t, MarkingReconciled(ch))
      modifies this, sch
      ensures Did(old(View()), old(log), t, c) && Valid() && old(log) <= log && channels >= old(channels)
      ensures At(t, Finished)
      ensures sch.View() == old(sch.View()).(readyChClosed := sch.readyChClosed)
      ensures ch != None && sch.readyCh == ch ==> sch.readyChClosed
    {
      hide After, Init, MarkClosed, WillClose;
      ghost var before := View();
      MarkReady(ch);
      MoveTo(t, Finished);
      Record(Run(t, c), before);
    }

    /** The lease check of Loop. */
    method TickLease(t: nat, c: Choice) returns (idle: bool)
      requires Valid() && At(t, LeaseTick) && c.Clock?
      modifies this, sch
      ensures Did(old(View()), old(log), t, c) && Valid() && old(log) <= log && channels >= old(channels)
      ensures At(t, if idle then WantSwitch(Background) else Finished)
    {
      hide After, Init, IdleTooLong;
      ghost var before := View();
      idle := sch.LeaseCheck(c.now, lease);
      MoveTo(t, if idle then WantSwitch(Background) else Finished);
      Record(Run(t, c), before);
    }

    /** reap */
    method ReapChild(t: nat, p: nat, c: Choice)
      requires Valid() && At(t, Reaping(p))
      modifies this, sch
      ensures Did(old(View()), old(log), t, c) && Valid() && old(log) <= log && channels >= old(channels)
      ensures At(t, Finished)
    {
      hide After, Init, ProcessExited;
      ghost var before := View();
      sch.Reap(p);
      MoveTo(t, Finished);
      Record(Run(t, c), before);
    }

    /** Shutdown takes command and log file. */
    method ShutDown(t: nat, c: Choice) returns (f: Option<nat>)
      requires Valid() && At(t, ShuttingDown)
      modifies this, sch
      ensures Did(old(View()), old(log), t, c) && Valid() && old(log) <= log && channels >= old(channels)
      ensures At(t, ClosingLast(f))
    {
      hide After, Init, TakeForShutdown;
      ghost var before := View();
      var p;
      p, f := sch.ShutdownTake();
      MoveTo(t, ClosingLast(f));
      Record(Run(t, c), before);
    }

    /** Shutdown closes the log file. */
    method CloseLast(t: nat, f: Option<nat>, c: Choice)
      requires Valid() && At(t, ClosingLast(f))
      modifies this, sch
      ensures Did(old(View()), old(log), t, c) && Valid() && old(log) <= log && channels >= old(channels)
      ensures At(t, Finished)
    {
      hide After, Init;
      ghost var before := View();
      if f.Some? { fileLog := fileLog + [f.value]; }
      MoveTo(t, Finished);
      Record(Run(t, c), before);
    }

    /** TouchCoding */
    method Touch(t: nat, c: Choice)
      requires Valid() && At(t, Touching) && c.Clock?
      modifies this, sch
      ensures Did(old(View()), old(log), t, c) && Valid() && old(log) <= log && channels >= old(channels)
      ensures At(t, Finished)
    {
      hide After, Init, CodingSeen;
      ghost var before := View();
      sch.TouchCoding(c.now);
      MoveTo(t, Finished);
      Record(Run(t, c), before);
    }

    /** A step that touches nothing but the goroutine: a wait ends, a caller goes on to wait. */
    method GoOn(t: nat, th: Thread, c: Choice)
      requires Valid() && t in threads && Runnable(View(), threads[t], c)
      requires threads[t].Waiting? || threads[t].Returned?
      requires th == if threads[t].Waiting? then Finished else Waiting(threads[t].result)
      modifies this, sch
      ensures Did(old(View()), old(log), t, c) && At(t, th)
    {
      hide After, Init;
      ghost var before := View();
      MoveTo(t, th);
      Record(Run(t, c), before);
    }

    /** One action. */
    method Act(a: Action)
      requires Valid() && Enabled(View(), a)
      modifies this, sch
      ensures Valid() && View() == Step(old(View()), a) && log == old(log) + [a]
    {
      hide After, Init, RunStep;
      match a {
        case Spawn(t, what) =>
          ghost var before := View();
          MoveTo(t, what);
          Record(a, before);
        case Run(t, c) =>
          match threads[t] {
            case CallCoding => var _, _ := FastPath(t, c);
            case WantSwitch(m) => LockSwitch(t, m, c);
            case Look(m) => var _, _ := SecondLook(t, m, c);
            case Draining(m) => Drain(t, m, c);
            case Stopping(m) => var _, _ := TakeOld(t, m, c);
            case Killing(m, p, f) => Kill(t, m, p, f, c);
            case ClosingOld(m, f) => CloseOld(t, m, f, c);
            case Opening(m) => var _ := OpenLog(t, m, c);
            case StoringLog(m, f) => StoreLog(t, m, f, c);
            case Publishing(m) => var _ := PublishNew(t, m, c);
            case Starting(m, ch) => var _ := StartCommand(t, m, ch, c);
            case StoringCmd(m, ch, p) => StoreCmd(t, m, ch, p, c);
            case SpawningReap(m, ch, p) => SpawnReap(t, m, ch, p, c);
            case AwaitingReady(m, ch) => var _ := AwaitReady(t, m, ch, c);
            case GivingUp(m, ch) => GiveUp(t, m, ch, c);
            case SettingReady(m, ch) => SetReady(t, m, ch, c);
            case MarkingReady(m, ch) => CloseReady(t, m, ch, c);
            case MarkingStartFailed(m, ch) => CloseStartFailed(t, m, ch, c);
            case Leaving(m, ch, how) => UnlockSwitch(t, m, ch, how, c);
            case Reconciling => var _, _ := Peek(t, c);
            case Probing(ch) => var _ := CommitProbed(t, ch, c);
            case MarkingReconciled(ch) => CloseReconciled(t, ch, c);
            case LeaseTick => var _ := TickLease(t, c);
            case Reaping(p) => ReapChild(t, p, c);
            case ShuttingDown => var _ := ShutDown(t, c);
            case ClosingLast(f) => CloseLast(t, f, c);
            case Touching => Touch(t, c);
            case Waiting(_) => GoOn(t, Finished, c);
            case Returned(_, ch, _) => GoOn(t, Waiting(ch), c);
          }
      }
    }

    /** A whole run. */
    method Perform(acts: seq<Action>)
      requires Valid() && After(View(), acts).Some?
      modifies this, sch
      ensures Valid() && View() == After(old(View()), acts).value && log == old(log) + acts
    {
      hide Step, Enabled, Init;
      ghost var w0 := View();
      for i := 0 to |acts|
        invariant Valid() && After(w0, acts[..i]) == Some(View()) && log == old(log) + acts[..i]
      {
        StepOfRun(w0, acts, i);
        Act(acts[i]);
        assert acts[..i] + [acts[i]] == acts[..i + 1];
      }
      assert acts[..|acts|] == acts;
    }

    // ----- The program's sequences -----

    method CanAct(a: Action) returns (can: bool)
      ensures can == Enabled(View(), a)
    {
      can := Enabled(World(INITIAL, switchMu, threads, lease, channels, closeLog, procs, stopLog, files, fileLog), a);
    }

    /** Goroutines other than t act, as far as they can. */
    method Others(t: nat, ghost th: Thread, acts: seq<Action>)
      requires Valid() && At(t, th)
      modifies this, sch
      ensures Valid() && At(t, th) && old(log) <= log && channels >= old(channels)
      ensures acts == [] ==> View() == old(View())
    {
      hide After, Init, Step, Enabled;
      for i := 0 to |acts|
        invariant i == 0 ==> View() == old(View())
        invariant Valid() && At(t, th) && old(log) <= log && channels >= old(channels)
      {
        var can := CanAct(acts[i]);
        if can && !(acts[i].Run? && acts[i].t == t) {
          OtherKeeps(View(), acts[i], t);
          Act(acts[i]);
        }
      }
    }

    /** The number of a new goroutine. */
    method NewGoroutine() returns (id: nat)
      ensures id !in threads
    {
      id := 0;
      var rest := threads.Keys;
      while rest != {}
        invariant rest <= threads.Keys && forall k | k in threads && k !in rest :: k < id
      {
        var k :| k in rest;
        if k >= id { id := k + 1; }
        rest := rest - {k};
      }
    }

    /** stopProcess: process and log file taken in one section, then killed and closed. */
    method StopProcess(t: nat, target: Mode, others: nat -> seq<Action>)
      requires Valid() && At(t, Stopping(target))
      modifies this, sch
      ensures Valid() && old(log) <= log && channels >= old(channels) && At(t, Opening(target))
    {
      hide Did, Valid, At, View, Enabled, Step;
      Others(t, Stopping(target), others(4));
      var p, f := TakeOld(t, target, Plain);
      Others(t, Killing(target, p, f), others(5));
      Kill(t, target, p, f, Plain);
      Others(t, ClosingOld(target, f), others(6));
      CloseOld(t, target, f, Plain);
    }

    /** The part of ensureTarget that prepares: log file and publication. */
    method OpenAndPublish(t: nat, target: Mode, env: Env) returns (newReady: nat)
      requires Valid() && At(t, Opening(target))
      modifies this, sch
      ensures Valid() && old(log) <= log && channels >= old(channels) && At(t, Starting(target, newReady))
      ensures old(channels) <= newReady
    {
      hide Did, Valid, At, View, Enabled, Step;
      Others(t, Opening(target), env.others(7));
      var f := OpenLog(t, target, if env.opens then Yes else No);
      if f.Some? {
        Others(t, StoringLog(target, f.value), env.others(8));
        StoreLog(t, target, f.value, Plain);
      }
      Others(t, Publishing(target), env.others(9));
      newReady := PublishNew(t, target, Plain);
    }

    /** The start of the command, if there is one; false when it fails. */
    method StartProcess(t: nat, target: Mode, newReady: nat, env: Env) returns (started: bool)
      requires Valid() && At(t, Starting(target, newReady))
      modifies this, sch
      ensures Valid() && old(log) <= log && channels >= old(channels)
      ensures At(t, if started then AwaitingReady(target, newReady) else MarkingStartFailed(target, newReady))
      ensures started == (!env.command || env.starts)
    {
      hide Did, Valid, At, View, Enabled, Step;
      Others(t, Starting(target, newReady), env.others(10));
      if !env.command {
        var _ := StartCommand(t, target, newReady, Plain);
        return true;
      }
      var cmd := StartCommand(t, target, newReady, if env.starts then Yes else No);
      if cmd.None? { return false; }
      Others(t, StoringCmd(target, newReady, cmd.value), env.others(11));
      StoreCmd(t, target, newReady, cmd.value, Plain);
      Others(t, SpawningReap(target, newReady, cmd.value), env.others(12));
      var id := NewGoroutine();
      SpawnReap(t, target, newReady, cmd.value, Child(id));
      started := true;
    }

    /** The deferred unlock. */
    method Leave(t: nat, target: Mode, ch: Option<nat>, how: Ending, env: Env)
      requires Valid() && At(t, Leaving(target, ch, how))
      modifies this, sch
      ensures Valid() && old(log) <= log && At(t, Returned(target, ch, how))
      ensures how == Ready || how == StartFailed ==> ch.Some? && ch.value in closeLog
    {
      hide Did, Valid, View, Enabled, Step, At;
      Others(t, Leaving(target, ch, how), env.others(2));
      UnlockSwitch(t, target, ch, how, Plain);
      ReturnedClosed(t, target, ch, how);
    }

    lemma ReturnedClosed(t: nat, target: Mode, ch: Option<nat>, how: Ending)
      requires Valid() && At(t, Returned(target, ch, how))
      ensures how == Ready || how == StartFailed ==> ch.Some? && ch.value in closeLog
    {
      hide After, Init, CurrentIsLast, ChannelsOnce, Exclusive, BusyIsCurrent, OpenAnswered, AfterPublication;
      RunsKeepInvariant(lease, log);
      assert Ended(View().threads[t]) || how == There;
    }

    /** The end of ensureTarget: wait, then give up, or set ready and close. */
    method AwaitAndClose(t: nat, target: Mode, newReady: nat, env: Env) returns (how: Ending)
      requires Valid() && At(t, AwaitingReady(target, newReady))
      modifies this, sch
      ensures Valid() && old(log) <= log && At(t, Returned(target, Some(newReady), how))
      ensures how == if env.ready then Ready else Ending.WaitFailed
      ensures how == Ready ==> newReady in closeLog
    {
      hide Did, Valid, View, Enabled, Step, At;
      Others(t, AwaitingReady(target, newReady), env.others(14));
      var ok := AwaitReady(t, target, newReady, if env.ready then Yes else No);
      if !ok {
        Others(t, GivingUp(target, newReady), env.others(15));
        GiveUp(t, target, newReady, Plain);
        Leave(t, target, Some(newReady), Ending.WaitFailed, env);
        return Ending.WaitFailed;
      }
      Others(t, SettingReady(target, newReady), env.others(16));
      SetReady(t, target, newReady, Clock(env.now));
      Others(t, MarkingReady(target, newReady), env.others(17));
      CloseReady(t, target, newReady, Plain);
      Leave(t, target, Some(newReady), Ready, env);
      how := Ready;
    }

    /** What goroutine t leaves behind when it returns. */
    ghost predicate Ends(t: nat, target: Mode, ch: Option<nat>, how: Ending, from: nat)
      reads this
    {
      At(t, Returned(target, ch, how)) && (how != There ==> ch.Some? && from <= ch.value)
    }

    /** ensureTarget, with what others do before each of its sections. None when switchMu is not
        free where the schedule ends. Whatever the others do: together it is a run of the protocol;
        a switch that became ready, or whose command did not start, returns a channel it made
        itself, closed. */
    method EnsureTarget(t: nat, target: Mode, env: Env) returns (ch: Option<nat>, how: Option<Ending>)
      requires Valid() && At(t, WantSwitch(target))
      modifies this, sch
      ensures Valid() && old(log) <= log
      ensures how.None? ==> At(t, WantSwitch(target))
      ensures how.Some? ==> Ends(t, target, ch, how.value, old(channels))
      ensures how == Some(Ready) || how == Some(StartFailed) ==> ch.Some? && ch.value in closeLog
      ensures how.Some? && how != Some(There) ==>
                how == Some(if env.command && !env.starts then StartFailed else if env.ready then Ready else Ending.WaitFailed)
    {
      hide Did, Valid, View, Enabled, Step, At;
      Others(t, WantSwitch(target), env.others(0));
      if switchMu.Some? { return None, None; }
      LockSwitch(t, target, Plain);
      Others(t, Look(target), env.others(1));
      var there, current := SecondLook(t, target, Plain);
      if there {
        Leave(t, target, current, There, env);
        return current, Some(There);
      }
      Others(t, Draining(target), env.others(3));
      Drain(t, target, Plain);
      StopProcess(t, target, env.others);
      var newReady := OpenAndPublish(t, target, env);
      var started := StartProcess(t, target, newReady, env);
      if !started {
        Others(t, MarkingStartFailed(target, newReady), env.others(13));
        CloseStartFailed(t, target, newReady, Plain);
        Leave(t, target, Some(newReady), StartFailed, env);
        return Some(newReady), Some(StartFailed);
      }
      var ending := AwaitAndClose(t, target, newReady, env);
      return Some(newReady), Some(ending);
    }

    /** EnsureCoding: the channel to wait for, at once or from a switch; None when it got none. */
    method EnsureCoding(t: nat, env: Env) returns (ch: Option<nat>, how: Option<Ending>)
      requires Valid() && At(t, CallCoding)
      modifies this, sch
      ensures Valid() && old(log) <= log
      ensures how == Some(Ready) ==> ch.Some? && ch.value in closeLog
      ensures At(t, Waiting(ch)) || At(t, WantSwitch(Coding)) || (how.Some? && At(t, Returned(Coding, ch, how.value)))
    {
      hide Did, Valid, View, Enabled, Step, At;
      Others(t, CallCoding, env.others(18));
      var known;
      known, ch := FastPath(t, Plain);
      if known { return ch, None; }
      ch, how := EnsureTarget(t, Coding, env);
    }

    /** The invariants, on the fields. */
    lemma FieldsAreSound()
      requires Valid()
      ensures sch.cmd != None || sch.readyOK ==> sch.readyCh != None
      ensures sch.readyChClosed ==> sch.readyCh != None && sch.readyCh.value in closeLog
    {
      hide After, Init, Exclusive, BusyIsCurrent, EndingsClosed, OpenAnswered;
      RunsKeepInvariant(lease, log);
    }

    /** reconcileReady: look, probe outside the lock, commit without another look at the channel.
        Undisturbed, in either mode: with a process and not ready it recovers when the probe
        succeeds, closing the current channel; otherwise it changes nothing. */
    method ReconcileReady(t: nat, up: bool, others: nat -> seq<Action>)
      requires Valid() && At(t, Reconciling)
      modifies this, sch
      ensures Valid() && old(log) <= log && At(t, Finished)
      ensures (forall k: nat :: others(k) == []) && (old(sch.readyOK) || old(sch.cmd) == None || !up) ==>
                sch.View() == old(sch.View()) && closeLog == old(closeLog)
      ensures (forall k: nat :: others(k) == []) && !old(sch.readyOK) && old(sch.cmd) != None && up ==>
                && sch.readyOK && sch.mode == old(sch.mode) && sch.cmd == old(sch.cmd)
                && sch.readyCh == old(sch.readyCh) && sch.readyCh != None && sch.readyCh.value in closeLog
    {
      hide Did, Valid, Enabled, Step, At;
      FieldsAreSound();
      Others(t, Reconciling, others(0));
      var probe, ch := Peek(t, Plain);
      if !probe { return; }
      Others(t, Probing(ch), others(1));
      var recovered := CommitProbed(t, ch, if up then Yes else No);
      if recovered {
        Others(t, MarkingReconciled(ch), others(2));
        CloseReconciled(t, ch, Plain);
        FieldsAreSound();
      }
    }
  }
}
