/** Consequences for whole runs: what a returned switch hands out, what becomes of superseded
    channels, and a run in which a ready scheduler strands its waiters. */
module SchedulerRuns {
  import opened Common
  import opened SchedulerSections
  import opened SchedulerProtocol
  import opened SchedulerSafety
  import opened SchedulerReady

  /** The goroutine's switch to its channel ch gave up waiting and has returned. */
  predicate GaveUp(th: Thread, ch: nat) {
    th.Returned? && th.result == Some(ch) && th.how == WaitFailed
  }

  /** At any moment of any run at most one switch is between taking and releasing switchMu; one
      that became ready, or whose command did not start, hands out a closed channel; one that
      gave up waiting is the only explanation for a superseded channel left open. */
  lemma {:induction false} SwitchesInAnyRun(lease: nat, acts: seq<Action>)
    requires After(Init(lease), acts).Some?
    ensures var w := After(Init(lease), acts).value;
            && (forall t, u | t in w.threads && u in w.threads && InSwitch(w.threads[t]) && InSwitch(w.threads[u]) :: t == u)
            && (forall t | t in w.threads && Ended(w.threads[t]) && w.threads[t].how != WaitFailed ::
                  w.threads[t].result.Some? && w.threads[t].result.value in w.closeLog)
            && (forall ch: nat | ch < w.channels && w.s.readyCh != Some(ch) && ch !in w.closeLog ::
                  exists t :: t in w.threads && GaveUp(w.threads[t], ch))
  {
    RunsKeepInvariant(lease, acts);
    var w := After(Init(lease), acts).value;
    forall ch: nat | ch < w.channels && w.s.readyCh != Some(ch) && ch !in w.closeLog
      ensures exists t :: t in w.threads && GaveUp(w.threads[t], ch)
    {
      var t :| t in w.threads && Answers(w.threads[t], ch);
      assert Busy(w.threads[t]).Some? ==> Busy(w.threads[t]) == w.s.readyCh;
    }
  }

  /** In any run no channel is closed twice, and the flag tells the truth about the current one. */
  lemma {:induction false} CloseOnceInAnyRun(lease: nat, acts: seq<Action>)
    requires After(Init(lease), acts).Some?
    ensures var w := After(Init(lease), acts).value;
            NoDup(w.closeLog) && (w.s.readyChClosed <==> w.s.readyCh.Some? && w.s.readyCh.value in w.closeLog)
  {
    RunsKeepInvariant(lease, acts);
  }

  /** A superseded channel keeps its state for ever: open stays open, closed stays closed. */
  lemma {:induction false} SupersededIsFinal(w: World, more: seq<Action>, ch: nat)
    requires Protocol(w) && After(w, more).Some?
    requires ch < w.channels && w.s.readyCh != Some(ch)
    ensures Protocol(After(w, more).value)
    ensures ch < After(w, more).value.channels && After(w, more).value.s.readyCh != Some(ch)
    ensures ch in After(w, more).value.closeLog <==> ch in w.closeLog
    decreases |more|
  {
    if more != [] {
      SupersededIsFinal(w, more[..|more| - 1], ch);
      var v, a := After(w, more[..|more| - 1]).value, more[|more| - 1];
      ProtocolKept(v, a);
      ClosesOnlyCurrent(v, a);
      assert Step(v, a).channels >= v.channels;
    }
  }

  // ----- The stranded scheduler -----

  /** Ready, the current channel open, nobody about to close it, and no switch past its second look. */
  ghost predicate Stranded(w: World) {
    && w.s.readyOK && w.s.readyCh.Some? && w.s.readyCh.value !in w.closeLog
    && !SomeoneCloses(w, w.s.readyCh.value)
    && forall t | t in w.threads && InSwitch(w.threads[t]) :: w.threads[t].Look? || w.threads[t].Leaving?
  }

  /** The steps that end it: the process exits, or a switch to the other mode gets through. */
  predicate Repairs(w: World, a: Action) {
    a.Run? && a.t in w.threads &&
    match w.threads[a.t]
    case Reaping(p) => w.s.cmd == Some(p)
    case Look(m) => m != w.s.mode
    case _ => false
  }

  /** Such a step touches neither readiness nor channels. */
  lemma {:induction false} StrandedFieldsStay(w: World, a: Action)
    requires Protocol(w) && Stranded(w) && Enabled(w, a) && !Repairs(w, a)
    ensures Step(w, a).s.readyOK && Step(w, a).s.readyCh == w.s.readyCh && Step(w, a).closeLog == w.closeLog
  {
    if a.Run? {
      assert InSwitch(w.threads[a.t]) ==> w.threads[a.t].Look? || w.threads[a.t].Leaving?;
      assert !Closing(w.threads[a.t], w.s.readyCh.value);
    }
  }

  /** Requests, reconciling and switches to the same mode leave a stranded scheduler stranded,
      and a request waiting on its channel can only give up. */
  lemma {:induction false} StrandedStays(w: World, a: Action)
    requires Protocol(w) && Stranded(w) && Enabled(w, a) && !Repairs(w, a)
    ensures Stranded(Step(w, a)) && Step(w, a).s.readyCh == w.s.readyCh
    ensures a.Run? && w.threads[a.t] == Waiting(w.s.readyCh) ==> a.choice.No?
  {
    hide Protocol, MarkClosed, WillClose;
    var w' := Step(w, a);
    StrandedFieldsStay(w, a);
    if a.Run? {
      assert InSwitch(w.threads[a.t]) ==> w.threads[a.t].Look? || w.threads[a.t].Leaving?;
    }
    forall t | t in w'.threads
      ensures !Closing(w'.threads[t], w.s.readyCh.value)
      ensures InSwitch(w'.threads[t]) ==> w'.threads[t].Look? || w'.threads[t].Leaving?
    {
      if t != a.t && t in w.threads {
        assert w'.threads[t] == w.threads[t];
      }
    }
  }

  /** A stranded scheduler stays so in exactly the steps other than an exit of its process and a
      switch to the other mode. */
  lemma {:induction false} StrandedExactly(w: World, a: Action)
    requires Protocol(w) && Stranded(w) && Enabled(w, a)
    ensures Stranded(Step(w, a)) <==> !Repairs(w, a)
  {
    if Repairs(w, a) {
      RepairsStranded(w, a);
    } else {
      hide Stranded, Protocol, Step, Enabled;
      StrandedStays(w, a);
    }
  }

  lemma RepairsStranded(w: World, a: Action)
    requires Enabled(w, a) && Repairs(w, a)
    ensures !Stranded(Step(w, a))
  {
    hide SomeoneCloses;
    var w' := Step(w, a);
    if w.threads[a.t].Look? { assert w'.threads[a.t] == Draining(w.threads[a.t].target); }
  }

  ghost predicate Reachable(w0: World, w: World) {
    exists acts :: After(w0, acts) == Some(w)
  }

  lemma {:induction false} Reach(w0: World, w: World, a: Action)
    requires Reachable(w0, w) && Enabled(w, a)
    ensures Reachable(w0, Step(w, a))
  {
    var acts :| After(w0, acts) == Some(w);
    assert (acts + [a])[..|acts|] == acts;
    assert After(w0, acts + [a]) == Some(Step(w, a));
  }

  lemma {:induction false} ReachRun(w0: World, w: World, t: nat, c: Choice) returns (w': World)
    requires Reachable(w0, w) && t in w.threads && Runnable(w, w.threads[t], c)
    ensures w' == RunStep(w, t, c) && Reachable(w0, w')
  {
    Reach(w0, w, Run(t, c));
    w' := RunStep(w, t, c);
  }

  /** A switch stops the old process, opens no log file and is about to publish. */
  lemma {:induction false} SwitchStops(w0: World, w: World, t: nat) returns (w': World)
    requires Reachable(w0, w) && t in w.threads && w.threads[t].WantSwitch? && w.switchMu.None?
    requires !AlreadyThere(w.s, w.threads[t].target)
    ensures Reachable(w0, w') && w'.switchMu == Some(t)
    ensures w'.channels == w.channels && w'.closeLog == w.closeLog && w'.procs == w.procs
    ensures w'.s == TakeForStop(w.s) && w'.threads == w.threads[t := Publishing(w.threads[t].target)]
  {
    w' := ReachRun(w0, w, t, Plain);
    w' := ReachRun(w0, w', t, Plain);
    w' := ReachRun(w0, w', t, Plain);
    w' := ReachRun(w0, w', t, Plain);
    w' := ReachRun(w0, w', t, Plain);
    w' := ReachRun(w0, w', t, Plain);
    w' := ReachRun(w0, w', t, No);
    assert w'.threads == w.threads[t := Publishing(w.threads[t].target)];
  }

  /** The switch goes on to publish, start its process and wait for it to be ready. */
  lemma {:induction false} SwitchStarts(w0: World, w: World, t: nat, child: nat) returns (w': World)
    requires Reachable(w0, w) && t in w.threads && w.threads[t].WantSwitch? && w.switchMu.None?
    requires !AlreadyThere(w.s, w.threads[t].target) && child !in w.threads
    ensures Reachable(w0, w') && w'.switchMu == Some(t)
    ensures w'.channels == w.channels + 1 && w'.procs == w.procs + 1 && w'.closeLog == w.closeLog
    ensures w'.s == Shared(w.threads[t].target, false, Some(w.channels), false, Some(w.procs), None, w.s.lastCodingAt)
    ensures w'.threads == w.threads[child := Reaping(w.procs)][t := AwaitingReady(w.threads[t].target, w.channels)]
  {
    w' := SwitchStops(w0, w, t);
    w' := ReachRun(w0, w', t, Plain);
    w' := ReachRun(w0, w', t, Yes);
    w' := ReachRun(w0, w', t, Plain);
    w' := ReachRun(w0, w', t, Child(child));
  }

  /** From any reached state with switchMu free, a switch to a mode that is not there yet can
      start its process, give up waiting for it and leave its channel open. */
  lemma {:induction false} SwitchTimesOut(w0: World, w: World, t: nat, child: nat) returns (w': World)
    requires Reachable(w0, w) && t in w.threads && w.threads[t].WantSwitch? && w.switchMu.None?
    requires !AlreadyThere(w.s, w.threads[t].target) && child !in w.threads
    ensures Reachable(w0, w') && w'.switchMu.None?
    ensures w'.channels == w.channels + 1 && w'.procs == w.procs + 1 && w'.closeLog == w.closeLog
    ensures w'.s == Shared(w.threads[t].target, false, Some(w.channels), false, Some(w.procs), None, w.s.lastCodingAt)
    ensures w'.threads == w.threads[child := Reaping(w.procs)]
                                   [t := Returned(w.threads[t].target, Some(w.channels), WaitFailed)]
  {
    w' := SwitchStarts(w0, w, t, child);
    w' := ReachRun(w0, w', t, No);
    w' := ReachRun(w0, w', t, Plain);
    w' := ReachRun(w0, w', t, Plain);
  }

  /** It can as well become ready, at any time now, and close its channel. */
  lemma {:induction false} SwitchSucceeds(w0: World, w: World, t: nat, child: nat, now: nat) returns (w': World)
    requires Reachable(w0, w) && t in w.threads && w.threads[t].WantSwitch? && w.switchMu.None?
    requires !AlreadyThere(w.s, w.threads[t].target) && child !in w.threads
    ensures Reachable(w0, w') && w'.switchMu.None?
    ensures w'.channels == w.channels + 1 && w'.procs == w.procs + 1 && w'.closeLog == w.closeLog + [w.channels]
    ensures w'.s == Shared(w.threads[t].target, true, Some(w.channels), true, Some(w.procs), None,
                           if w.threads[t].target == Coding then Some(now) else w.s.lastCodingAt)
    ensures w'.threads == w.threads[child := Reaping(w.procs)][t := Returned(w.threads[t].target, Some(w.channels), Ready)]
  {
    w' := SwitchStarts(w0, w, t, child);
    w' := ReachRun(w0, w', t, Yes);
    w' := ReachRun(w0, w', t, Clock(now));
    w' := ReachRun(w0, w', t, Plain);
    w' := ReachRun(w0, w', t, Plain);
  }

  /** Start brings the background model up. */
  lemma {:induction false} BackgroundUp(lease: nat) returns (w: World)
    ensures Reachable(Init(lease), w) && w.switchMu.None? && w.channels == 1 && w.procs == 1 && w.closeLog == [0]
    ensures w.s == Shared(Background, true, Some(0), true, Some(0), None, None)
    ensures w.threads == map[1 := Reaping(0), 0 := Returned(Background, Some(0), Ready)]
  {
    var w0 := Init(lease);
    assert After(w0, []) == Some(w0);
    Reach(w0, w0, Spawn(0, WantSwitch(Background)));
    w := SwitchSucceeds(w0, Step(w0, Spawn(0, WantSwitch(Background))), 0, 1, 0);
  }

  /** A coding request comes in while the background model runs. */
  lemma {:induction false} CodingRequest(w0: World, w: World, t: nat) returns (w': World)
    requires Reachable(w0, w) && t !in w.threads && w.s.mode == Background
    ensures Reachable(w0, w') && w' == Goto(w, t, WantSwitch(Coding))
  {
    Reach(w0, w, Spawn(t, CallCoding));
    w' := ReachRun(w0, Step(w, Spawn(t, CallCoding)), t, Plain);
    assert w'.threads == w.threads[t := WantSwitch(Coding)];
  }

  lemma {:induction false} ReconcileLooks(w0: World, w: World, t: nat) returns (w': World)
    requires Reachable(w0, w) && t !in w.threads && WorthProbing(w.s)
    ensures Reachable(w0, w') && w' == Goto(w, t, Probing(w.s.readyCh))
  {
    Reach(w0, w, Spawn(t, Reconciling));
    w' := ReachRun(w0, Step(w, Spawn(t, Reconciling)), t, Plain);
    assert w'.threads == w.threads[t := Probing(w.s.readyCh)];
  }

  /** Committing an overtaken probe while no switch runs and nobody closes the open current
      channel strands the scheduler, and the probe's own close does not help. */
  lemma {:induction false} OvertakenCommitStrands(w0: World, w: World, t: nat) returns (w': World)
    requires Reachable(w0, w) && t in w.threads && w.threads[t].Probing? && w.threads[t].seen != w.s.readyCh
    requires !w.s.readyOK && w.s.readyCh.Some? && w.s.readyCh.value !in w.closeLog
    requires forall u | u in w.threads :: !InSwitch(w.threads[u]) && !Closing(w.threads[u], w.s.readyCh.value)
    ensures Reachable(w0, w') && Stranded(w') && !NoStrand(w') && w'.s.mode == w.s.mode
  {
    w' := ReachRun(w0, w, t, Yes);
    w' := ReachRun(w0, w', t, Plain);
    forall u | u in w'.threads ensures !InSwitch(w'.threads[u]) && !Closing(w'.threads[u], w.s.readyCh.value) {
      assert u != t ==> w'.threads[u] == w.threads[u];
    }
  }

  /** Two coding requests find the background model running and queue for the switch; the first
      gives up waiting, and a reconcile looks at its channel. */
  lemma {:induction false} ProbeUnderWay(lease: nat) returns (w: World)
    ensures Reachable(Init(lease), w) && w.switchMu.None? && w.channels == 2 && w.closeLog == [0]
    ensures w.s == Shared(Coding, false, Some(1), false, Some(1), None, None)
    ensures w.threads == map[0 := Returned(Background, Some(0), Ready), 1 := Reaping(0),
                             2 := Returned(Coding, Some(1), WaitFailed), 3 := WantSwitch(Coding),
                             4 := Reaping(1), 5 := Probing(Some(1))]
  {
    hide Reachable;
    var w0 := Init(lease);
    w := BackgroundUp(lease);
    w := CodingRequest(w0, w, 2);
    w := CodingRequest(w0, w, 3);
    w := SwitchTimesOut(w0, w, 2, 4);
    w := ReconcileLooks(w0, w, 5);
  }

  /** The second request switches again and gives up too (its client has gone, say). */
  lemma {:induction false} ProbeOvertaken(lease: nat) returns (w: World)
    ensures Reachable(Init(lease), w) && w.s.mode == Coding && !w.s.readyOK && w.s.readyCh == Some(2)
    ensures w.closeLog == [0] && 5 in w.threads && w.threads[5] == Probing(Some(1))
    ensures forall u | u in w.threads :: !InSwitch(w.threads[u]) && !Closing(w.threads[u], 2)
  {
    hide Reachable, Init;
    w := ProbeUnderWay(lease);
    w := SwitchTimesOut(Init(lease), w, 3, 6);
  }

  /** The unconditional claim is false: only then the first request's probe is committed. */
  lemma {:induction false} StrandingRun(lease: nat)
    ensures exists w :: Reachable(Init(lease), w) && Stranded(w) && w.s.mode == Coding && !NoStrand(w)
  {
    hide Reachable, Stranded, NoStrand, Init;
    var w := ProbeOvertaken(lease);
    w := OvertakenCommitStrands(Init(lease), w, 5);
  }
}
