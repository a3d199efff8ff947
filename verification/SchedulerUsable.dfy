/** The other half of the readiness promise: a closed channel means the process is usable. */
module SchedulerUsable {
  import opened Common
  import opened SchedulerSections
  import opened SchedulerProtocol
  import opened SchedulerSafety
  import opened SchedulerReady
  import opened SchedulerRuns

  /** Whoever finds the current channel closed finds the scheduler ready. */
  ghost predicate ClosedMeansReady(w: World) {
    w.s.readyCh.Some? && w.s.readyCh.value in w.closeLog ==> w.s.readyOK
  }

  /** The steps that end it: the channel is closed while readiness is gone, after a failed start or
      a process's exit, or a switch gives up, or the process exits, behind a closed channel. */
  predicate Disappoints(w: World, a: Action) {
    a.Run? && a.t in w.threads &&
    match w.threads[a.t]
    case MarkingStartFailed(_, _) => !w.s.readyOK
    case MarkingReady(_, _) => !w.s.readyOK && !w.s.readyChClosed
    case MarkingReconciled(seen) => !w.s.readyOK && WillClose(w.s, seen)
    case GivingUp(_, _) => w.s.readyChClosed
    case Reaping(p) => w.s.readyChClosed && w.s.cmd == Some(p)
    case _ => false
  }

  /** Exactly these five kinds of step do. */
  lemma {:induction false} ClosedMeansReadyExactly(w: World, a: Action)
    requires Protocol(w) && AfterPublication(w) && ClosedMeansReady(w) && Enabled(w, a)
    ensures ClosedMeansReady(Step(w, a)) <==> !Disappoints(w, a)
  {
    var w' := Step(w, a);
    ProtocolKept(w, a);
    hide Exclusive, EndingsClosed, NoDup;
    FlagTells(w);
    FlagTells(w');
    assert a.Run? && Busy(w.threads[a.t]).Some? ==> Busy(w.threads[a.t]) == w.s.readyCh;
  }

  lemma FlagTells(w: World)
    requires Protocol(w)
    ensures w.s.readyChClosed <==> w.s.readyCh.Some? && w.s.readyCh.value in w.closeLog
  {}

  ghost predicate AlwaysUsable(lease: nat, acts: seq<Action>)
    requires After(Init(lease), acts).Some?
  {
    forall k: nat | k <= |acts| ::
      After(Init(lease), acts[..k]).Some? && ClosedMeansReady(After(Init(lease), acts[..k]).value)
  }

  ghost predicate NothingDisappoints(lease: nat, acts: seq<Action>)
    requires After(Init(lease), acts).Some?
  {
    forall k: nat | k < |acts| ::
      After(Init(lease), acts[..k]).Some? && !Disappoints(After(Init(lease), acts[..k]).value, acts[k])
  }

  /** Over every run: a closed channel always means ready exactly when no such step is taken. */
  lemma {:induction false} AlwaysUsableExactly(lease: nat, acts: seq<Action>)
    requires After(Init(lease), acts).Some?
    ensures AlwaysUsable(lease, acts) <==> NothingDisappoints(lease, acts)
  {
    hide Step, Enabled, Disappoints, ClosedMeansReady, Invariant;
    var w0 := Init(lease);
    forall k: nat | k < |acts| && After(w0, acts[..k]).Some? && ClosedMeansReady(After(w0, acts[..k]).value)
      ensures After(w0, acts[..k + 1]).Some?
      ensures ClosedMeansReady(After(w0, acts[..k + 1]).value) <==> !Disappoints(After(w0, acts[..k]).value, acts[k])
    {
      StepOfRun(w0, acts, k);
      RunIsSound(lease, acts[..k]);
      ClosedMeansReadyExactly(After(w0, acts[..k]).value, acts[k]);
    }
    if AlwaysUsable(lease, acts) {
      forall k: nat | k < |acts| ensures After(w0, acts[..k]).Some? && !Disappoints(After(w0, acts[..k]).value, acts[k]) {
        assert After(w0, acts[..k]).Some? && ClosedMeansReady(After(w0, acts[..k]).value);
        assert ClosedMeansReady(After(w0, acts[..k + 1]).value);
      }
    } else if NothingDisappoints(lease, acts) {
      StartsUsable(lease);
      var k := 0;
      while k < |acts|
        invariant k <= |acts|
        invariant forall i: nat | i <= k :: After(w0, acts[..i]).Some? && ClosedMeansReady(After(w0, acts[..i]).value)
      {
        k := k + 1;
      }
    }
  }

  lemma RunIsSound(lease: nat, acts: seq<Action>)
    requires After(Init(lease), acts).Some?
    ensures Protocol(After(Init(lease), acts).value) && AfterPublication(After(Init(lease), acts).value)
  {
    hide Protocol, AfterPublication, OpenAnswered;
    RunsKeepInvariant(lease, acts);
  }

  lemma StartsUsable(lease: nat)
    ensures ClosedMeansReady(Init(lease))
  {}

  /** Closed, not ready, and the process still there. */
  ghost predicate Disappointed(w: World) {
    w.s.readyChClosed && !w.s.readyOK && w.s.cmd.Some? && !ClosedMeansReady(w)
  }

  /** The unconditional claim is false: while a coding switch waits, a reconcile finds the process
      ready and closes the channel; then the switch, which has not, gives up. */
  lemma {:induction false} DisappointingRun(lease: nat)
    ensures exists w :: Reachable(Init(lease), w) && Disappointed(w) && w.s.mode == Coding
  {
    hide Reachable, Init, Disappointed;
    var w0 := Init(lease);
    var w := BackgroundUp(lease);
    w := CodingRequest(w0, w, 2);
    w := SwitchStarts(w0, w, 2, 4);
    w := ReconcileLooks(w0, w, 5);
    w := LateReconcile(w0, w, 5, 2);
  }

  lemma {:induction false} LateReconcile(w0: World, w: World, t: nat, u: nat) returns (w': World)
    requires Reachable(w0, w) && t in w.threads && u in w.threads && t != u
    requires w.threads[t].Probing? && w.threads[u].AwaitingReady? && w.threads[t].seen == w.s.readyCh
    requires !w.s.readyOK && !w.s.readyChClosed && w.s.readyCh.Some? && w.s.cmd.Some?
    ensures Reachable(w0, w') && Disappointed(w') && w'.s.mode == w.s.mode
  {
    w' := ReachRun(w0, w, t, Yes);
    w' := ReachRun(w0, w', t, Plain);
    assert w'.closeLog[|w.closeLog|] == w.s.readyCh.value;
    w' := ReachRun(w0, w', u, No);
    w' := ReachRun(w0, w', u, Plain);
  }
}
