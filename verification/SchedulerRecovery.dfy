/** What brings readiness back and what asks for the background: reconciling in either mode, the
    lease, switches without a command, and the steps that make the background ready. */
module SchedulerRecovery {
  import opened Common
  import opened SchedulerSections
  import opened SchedulerProtocol
  import opened SchedulerSafety
  import opened SchedulerReady
  import opened SchedulerRuns

  lemma {:induction false} ReachedIsSound(lease: nat, w: World)
    requires Reachable(Init(lease), w)
    ensures Protocol(w) && AfterPublication(w)
  {
    hide Protocol, AfterPublication, OpenAnswered;
    var acts :| After(Init(lease), acts) == Some(w);
    RunsKeepInvariant(lease, acts);
  }

  // ----- Reconciling -----

  /** In whatever mode: a process there, not ready, and the probe succeeds. Then look, commit and
      close make the scheduler ready, the current channel closed, and change nothing else. */
  lemma {:induction false} ReconcileRecovers(lease: nat, w: World, t: nat) returns (w': World)
    requires Reachable(Init(lease), w) && t in w.threads && w.threads[t] == Reconciling
    requires !w.s.readyOK && w.s.cmd != None
    ensures Reachable(Init(lease), w') && w'.threads == w.threads[t := Finished]
    ensures w'.s == w.s.(readyOK := true, readyChClosed := true)
    ensures w'.s.readyCh.Some? && w'.s.readyCh.value in w'.closeLog && w.closeLog <= w'.closeLog
    ensures w'.channels == w.channels && w'.procs == w.procs && w'.switchMu == w.switchMu
  {
    ReachedIsSound(lease, w);
    w' := ReachRun(Init(lease), w, t, Plain);
    w' := ReachRun(Init(lease), w', t, Yes);
    w' := ReachRun(Init(lease), w', t, Plain);
    assert w'.closeLog != w.closeLog ==> w'.closeLog[|w.closeLog|] == w.s.readyCh.value;
    assert w'.threads == w.threads[t := Finished];
  }

  /** Ready already, or no process: the call ends at its look. */
  lemma ReconcileIdle(w: World, t: nat, c: Choice)
    requires t in w.threads && w.threads[t] == Reconciling && (w.s.readyOK || w.s.cmd == None)
    ensures RunStep(w, t, c) == w.(threads := w.threads[t := Finished])
  {}

  /** A probe that fails changes nothing. */
  lemma ProbeFails(w: World, t: nat, c: Choice)
    requires t in w.threads && w.threads[t].Probing? && c != Yes
    ensures RunStep(w, t, c) == w.(threads := w.threads[t := Finished])
  {}

  // ----- The lease -----

  /** A tick asks for a switch to the background exactly in coding mode with the lease run out. */
  lemma TickExactly(w: World, t: nat, now: nat)
    requires t in w.threads && w.threads[t] == LeaseTick
    ensures var w' := RunStep(w, t, Clock(now));
            && w' == w.(threads := w'.threads) && w'.threads.Keys == w.threads.Keys
            && (forall u | u in w.threads && u != t :: w'.threads[u] == w.threads[u])
            && (w'.threads[t] == WantSwitch(Background)
                <==> w.s.mode == Coding && w.s.lastCodingAt != None && now >= w.s.lastCodingAt.value + w.lease)
            && (w'.threads[t] != WantSwitch(Background) ==> w'.threads[t] == Finished)
  {}

  /** A request at time then keeps the coding mode for the length of the lease. */
  lemma {:induction false} RequestKeepsLease(w: World, u: nat, then_: nat, t: nat, now: nat)
    requires u in w.threads && w.threads[u] == Touching && t in w.threads && w.threads[t] == LeaseTick
    ensures RunStep(RunStep(w, u, Clock(then_)), t, Clock(now)).threads[t] == WantSwitch(Background)
            <==> w.s.mode == Coding && now >= then_ + w.lease
  {
    TickExactly(RunStep(w, u, Clock(then_)), t, now);
  }

  // ----- A switch without a command -----

  /** A mode without a command is served by whatever answers at its address: the switch starts
      nothing and still becomes ready. */
  lemma {:induction false} SwitchWithoutCommand(w0: World, w: World, t: nat, now: nat) returns (w': World)
    requires Reachable(w0, w) && t in w.threads && w.threads[t].WantSwitch? && w.switchMu.None?
    requires !(w.s.mode == w.threads[t].target && w.s.readyOK)
    ensures Reachable(w0, w') && w'.switchMu.None?
    ensures w'.channels == w.channels + 1 && w'.procs == w.procs && w'.closeLog == w.closeLog + [w.channels]
    ensures w'.s == Shared(w.threads[t].target, true, Some(w.channels), true, None, None,
                           if w.threads[t].target == Coding then Some(now) else w.s.lastCodingAt)
    ensures w'.threads == w.threads[t := Returned(w.threads[t].target, Some(w.channels), Ready)]
  {
    w' := SwitchStops(w0, w, t);
    w' := PublishedBare(w0, w', t);
    w' := ReachRun(w0, w', t, Yes);
    w' := ReachRun(w0, w', t, Clock(now));
    w' := ReachRun(w0, w', t, Plain);
    w' := ReachRun(w0, w', t, Plain);
  }

  lemma {:induction false} PublishedBare(w0: World, w: World, t: nat) returns (w': World)
    requires Reachable(w0, w) && t in w.threads && w.threads[t].Publishing?
    ensures Reachable(w0, w') && w' == w.(
              s := w.s.(mode := w.threads[t].target, readyOK := false, readyCh := Some(w.channels), readyChClosed := false),
              channels := w.channels + 1,
              threads := w.threads[t := AwaitingReady(w.threads[t].target, w.channels)])
  {
    w' := ReachRun(w0, w, t, Plain);
    w' := ReachRun(w0, w', t, Plain);
    assert w'.threads == w.threads[t := AwaitingReady(w.threads[t].target, w.channels)];
  }

  /** A switch to a mode that is ready already changes nothing and hands out the current channel. */
  lemma {:induction false} SwitchFindsItThere(w0: World, w: World, t: nat) returns (w': World)
    requires Reachable(w0, w) && t in w.threads && w.threads[t].WantSwitch? && w.switchMu.None?
    requires w.s.mode == w.threads[t].target && w.s.readyOK
    ensures Reachable(w0, w')
    ensures w' == w.(threads := w.threads[t := Returned(w.s.mode, w.s.readyCh, There)])
  {
    w' := ReachRun(w0, w, t, Plain);
    w' := ReachRun(w0, w', t, Plain);
    w' := ReachRun(w0, w', t, Plain);
    assert w'.threads == w.threads[t := Returned(w.s.mode, w.s.readyCh, There)];
  }

  // ----- When the background is ready -----

  /** The target of a switch between its publication and its return. */
  function BusyTarget(th: Thread): Option<Mode> {
    match th
    case Starting(m, _) => Some(m)
    case StoringCmd(m, _, _) => Some(m)
    case SpawningReap(m, _, _) => Some(m)
    case AwaitingReady(m, _) => Some(m)
    case GivingUp(m, _) => Some(m)
    case SettingReady(m, _) => Some(m)
    case MarkingReady(m, _) => Some(m)
    case MarkingStartFailed(m, _) => Some(m)
    case _ => None
  }

  /** The mode is the target of the switch that published last, while that is under way. */
  ghost predicate ModeIsTarget(w: World) {
    forall t | t in w.threads && BusyTarget(w.threads[t]).Some? :: BusyTarget(w.threads[t]) == Some(w.s.mode)
  }

  lemma {:induction false} ModeIsTargetKept(w: World, a: Action)
    requires Exclusive(w) && ModeIsTarget(w) && Enabled(w, a)
    ensures ModeIsTarget(Step(w, a))
  {
    var w' := Step(w, a);
    forall t | t in w'.threads && BusyTarget(w'.threads[t]).Some?
      ensures BusyTarget(w'.threads[t]) == Some(w'.s.mode)
    {
      if t != a.t && t in w.threads {
        assert w'.threads[t] == w.threads[t] && InSwitch(w.threads[t]);
      }
    }
  }

  /** In any run a switch that becomes ready does so in its own mode. */
  lemma {:induction false} ModeInAnyRun(lease: nat, acts: seq<Action>)
    requires After(Init(lease), acts).Some?
    ensures ModeIsTarget(After(Init(lease), acts).value)
    decreases |acts|
  {
    if acts != [] {
      hide Step, Enabled, OpenAnswered, AfterPublication, ModeIsTarget;
      var w := After(Init(lease), acts[..|acts| - 1]).value;
      ModeInAnyRun(lease, acts[..|acts| - 1]);
      RunsKeepInvariant(lease, acts[..|acts| - 1]);
      ModeIsTargetKept(w, acts[|acts| - 1]);
    } else {
      NothingBusyYet(lease);
    }
  }

  lemma NothingBusyYet(lease: nat)
    ensures ModeIsTarget(Init(lease))
  {}

  /** A switch to the background becomes ready, or a reconcile finds the background ready. */
  predicate MakesBackgroundReady(w: World, a: Action) {
    && a.Run? && a.t in w.threads && w.s.mode == Background
    && (w.threads[a.t].SettingReady? || (w.threads[a.t].Probing? && a.choice == Yes && !w.s.readyOK))
  }

  /** Exactly these steps make the background ready. */
  lemma {:induction false} BackgroundReadyExactly(w: World, a: Action)
    requires Enabled(w, a) && !(w.s.mode == Background && w.s.readyOK)
    ensures Step(w, a).s.mode == Background && Step(w, a).s.readyOK <==> MakesBackgroundReady(w, a)
  {
    hide MarkClosed;
    MarkKeepsMode(w.s);
  }

  lemma MarkKeepsMode(s: Shared)
    ensures forall ch :: MarkClosed(s, ch).mode == s.mode && MarkClosed(s, ch).readyOK == s.readyOK
  {}

  /** A coding switch's publication ends it. */
  lemma CodingPublished(w: World, t: nat, c: Choice)
    requires t in w.threads && w.threads[t] == Publishing(Coding)
    ensures RunStep(w, t, c).s.mode == Coding && !RunStep(w, t, c).s.readyOK
  {}
}
