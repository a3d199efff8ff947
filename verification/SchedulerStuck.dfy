/** In coding mode EnsureCoding never asks for a switch once a channel exists. So when the coding
    process did not start, exited or was given up on, no request brings it back; here is what does. */
module SchedulerStuck {
  import opened Common
  import opened SchedulerSections
  import opened SchedulerProtocol
  import opened SchedulerSafety
  import opened SchedulerReady
  import opened SchedulerRuns

  /** Coding mode with a channel, not ready, and no switch under way or waiting for its turn. */
  ghost predicate Abandoned(w: World) {
    && w.s.mode == Coding && !w.s.readyOK && w.s.readyCh.Some? && w.switchMu.None?
    && forall t | t in w.threads :: !InSwitch(w.threads[t]) && !w.threads[t].WantSwitch?
  }

  /** A probe finds the process ready after all, a lease tick finds the lease run out, or Start
      asks for the background model. */
  predicate LeadsOut(w: World, a: Action) {
    match a
    case Spawn(_, what) => what.WantSwitch?
    case Run(t, c) =>
      t in w.threads
      && ((w.threads[t].Probing? && c.Yes?) || (w.threads[t].LeaseTick? && c.Clock? && IdleTooLong(w.s, c.now, w.lease)))
  }

  /** Exactly these steps end it: no request, reaper or shutdown does. */
  lemma {:induction false} AbandonedExactly(w: World, a: Action)
    requires Abandoned(w) && Enabled(w, a)
    ensures Abandoned(Step(w, a)) <==> !LeadsOut(w, a)
  {
    hide MarkClosed;
    var w' := Step(w, a);
    MarkKeeps(w.s);
    if a.Run? { assert !InSwitch(w.threads[a.t]) && !w.threads[a.t].WantSwitch?; }
    if LeadsOut(w, a) {
      assert w'.s.readyOK || w'.threads[a.t].WantSwitch?;
    } else {
      assert !w'.threads[a.t].WantSwitch? && !InSwitch(w'.threads[a.t]);
      forall t | t in w'.threads ensures !InSwitch(w'.threads[t]) && !w'.threads[t].WantSwitch? {
        if t != a.t { assert t in w.threads && w'.threads[t] == w.threads[t]; }
      }
    }
  }

  lemma MarkKeeps(s: Shared)
    ensures forall ch :: MarkClosed(s, ch) == s.(readyChClosed := MarkClosed(s, ch).readyChClosed)
  {}

  /** While it lasts nothing is published or started, and a request gets the old channel. */
  lemma {:induction false} AbandonedStep(w: World, a: Action)
    requires Abandoned(w) && Enabled(w, a) && !LeadsOut(w, a)
    ensures Step(w, a).channels == w.channels && Step(w, a).procs == w.procs && Step(w, a).s.readyCh == w.s.readyCh
    ensures a.Run? && w.threads[a.t].CallCoding? ==> Step(w, a).threads[a.t] == Waiting(w.s.readyCh)
  {
    hide MarkClosed;
    MarkKeeps(w.s);
    if a.Run? { assert !InSwitch(w.threads[a.t]) && !w.threads[a.t].WantSwitch?; }
  }

  /** Over a whole run from there: abandoned all the time exactly when no step leads out. */
  ghost predicate AbandonedThroughout(w: World, acts: seq<Action>)
    requires After(w, acts).Some?
  {
    forall k: nat | k <= |acts| :: After(w, acts[..k]).Some? && Abandoned(After(w, acts[..k]).value)
  }

  ghost predicate NothingLeadsOut(w: World, acts: seq<Action>)
    requires After(w, acts).Some?
  {
    forall k: nat | k < |acts| :: After(w, acts[..k]).Some? && !LeadsOut(After(w, acts[..k]).value, acts[k])
  }

  lemma {:induction false} AbandonedRunsExactly(w: World, acts: seq<Action>)
    requires Abandoned(w) && After(w, acts).Some?
    ensures AbandonedThroughout(w, acts) <==> NothingLeadsOut(w, acts)
    ensures NothingLeadsOut(w, acts) ==>
              var v := After(w, acts).value;
              v.channels == w.channels && v.procs == w.procs && v.s.readyCh == w.s.readyCh
  {
    hide Abandoned, Step, Enabled, LeadsOut;
    forall k: nat | k < |acts| && After(w, acts[..k]).Some? && Abandoned(After(w, acts[..k]).value)
      ensures After(w, acts[..k + 1]).Some?
      ensures Abandoned(After(w, acts[..k + 1]).value) <==> !LeadsOut(After(w, acts[..k]).value, acts[k])
    {
      StepOfRun(w, acts, k);
      AbandonedExactly(After(w, acts[..k]).value, acts[k]);
    }
    if AbandonedThroughout(w, acts) {
      forall k: nat | k < |acts| ensures After(w, acts[..k]).Some? && !LeadsOut(After(w, acts[..k]).value, acts[k]) {
        assert After(w, acts[..k]).Some? && Abandoned(After(w, acts[..k]).value);
        assert Abandoned(After(w, acts[..k + 1]).value);
      }
    }
    if NothingLeadsOut(w, acts) {
      var k := 0;
      while k < |acts|
        invariant k <= |acts| && After(w, acts[..k]).Some?
        invariant forall i: nat | i <= k :: After(w, acts[..i]).Some? && Abandoned(After(w, acts[..i]).value)
        invariant var v := After(w, acts[..k]).value;
                  v.channels == w.channels && v.procs == w.procs && v.s.readyCh == w.s.readyCh
      {
        StepOfRun(w, acts, k);
        AbandonedStep(After(w, acts[..k]).value, acts[k]);
        k := k + 1;
      }
      assert acts[..|acts|] == acts;
    }
  }

  // ----- After a failed start -----

  /** Without a process and without a probe under way no reconcile can help either. */
  ghost predicate Dead(w: World) {
    Abandoned(w) && w.s.cmd.None? && forall t | t in w.threads :: !w.threads[t].Probing?
  }

  predicate Revives(w: World, a: Action) {
    match a
    case Spawn(_, what) => what.WantSwitch?
    case Run(t, c) => t in w.threads && w.threads[t].LeaseTick? && c.Clock? && IdleTooLong(w.s, c.now, w.lease)
  }

  /** A dead coding mode ends with an idle lease tick or with Start, and in no other step. */
  lemma {:induction false} DeadExactly(w: World, a: Action)
    requires Dead(w) && Enabled(w, a)
    ensures Dead(Step(w, a)) <==> !Revives(w, a)
  {
    hide MarkClosed, Abandoned;
    MarkKeeps(w.s);
    AbandonedExactly(w, a);
    NotSwitching(w, a);
    var w' := Step(w, a);
    if !Revives(w, a) {
      forall t | t in w'.threads ensures !w'.threads[t].Probing? {
        if t != a.t && t in w.threads { assert w'.threads[t] == w.threads[t]; }
      }
    }
  }

  lemma NotSwitching(w: World, a: Action)
    requires Abandoned(w) && Enabled(w, a)
    ensures a.Run? ==> !InSwitch(w.threads[a.t]) && !w.threads[a.t].WantSwitch?
  {}

  /** Such a state is reached: a coding request's command does not start. The request gets a
      closed channel and an error; later requests get the closed channel, never a process. */
  lemma {:induction false} DeadIsReached(lease: nat)
    ensures exists w :: Reachable(Init(lease), w) && Dead(w) && w.s.readyChClosed
  {
    hide Reachable, Dead, Init;
    var w0 := Init(lease);
    var w := BackgroundUp(lease);
    w := CodingRequest(w0, w, 2);
    w := SwitchFailsToStart(w0, w, 2);
    DeadNow(w);
  }

  lemma DeadNow(w: World)
    requires w.s == Shared(Coding, false, Some(1), true, None, None, None) && w.switchMu.None?
    requires w.threads == map[0 := Returned(Background, Some(0), Ready), 1 := Reaping(0), 2 := Returned(Coding, Some(1), StartFailed)]
    ensures Dead(w)
  {}

  lemma {:induction false} SwitchFailsToStart(w0: World, w: World, t: nat) returns (w': World)
    requires Reachable(w0, w) && t in w.threads && w.threads[t].WantSwitch? && w.switchMu.None?
    requires !AlreadyThere(w.s, w.threads[t].target)
    ensures Reachable(w0, w') && w'.switchMu.None? && w'.closeLog == w.closeLog + [w.channels]
    ensures w'.s == Shared(w.threads[t].target, false, Some(w.channels), true, None, None, w.s.lastCodingAt)
    ensures w'.threads == w.threads[t := Returned(w.threads[t].target, Some(w.channels), StartFailed)]
  {
    w' := SwitchStops(w0, w, t);
    w' := ReachRun(w0, w', t, Plain);
    w' := ReachRun(w0, w', t, No);
    w' := ReachRun(w0, w', t, Plain);
    w' := ReachRun(w0, w', t, Plain);
  }
}
