/** A scheduler that says ready must not leave its waiters behind a channel nobody will close. */
module SchedulerReady {
  import opened Common
  import opened SchedulerSections
  import opened SchedulerProtocol
  import opened SchedulerSafety

  /** The goroutine's next critical section is markReadyClosed(ch). */
  predicate Closing(th: Thread, ch: nat) {
    match th
    case MarkingReady(_, c) => c == ch
    case MarkingStartFailed(_, c) => c == ch
    case MarkingReconciled(seen) => seen == Some(ch)
    case _ => false
  }

  ghost predicate SomeoneCloses(w: World, ch: nat) {
    exists t :: t in w.threads && Closing(w.threads[t], ch)
  }

  /** Ready means: the current channel is closed, or a goroutine stands between setting
      readyOK and closing that very channel. */
  ghost predicate NoStrand(w: World) {
    w.s.readyOK ==>
      w.s.readyCh.Some? && (w.s.readyCh.value in w.closeLog || SomeoneCloses(w, w.s.readyCh.value))
  }

  /** A probe's answer is committed for a channel that a switch has replaced since the probe's
      look, while the current channel is open and nobody is about to close it. */
  ghost predicate Strands(w: World, a: Action) {
    && a.Run? && a.t in w.threads && w.threads[a.t].Probing? && a.choice.Yes? && !w.s.readyOK
    && w.threads[a.t].seen != w.s.readyCh
    && w.s.readyCh.Some? && w.s.readyCh.value !in w.closeLog && !SomeoneCloses(w, w.s.readyCh.value)
  }

  /** The commit of a probe finds the channel it looked at still current: no switch has
      published since. Channels are numbered by publication, so equal channels mean just that. */
  predicate UnovertakenCommit(w: World, a: Action) {
    a.Run? && a.t in w.threads && w.threads[a.t].Probing? ==> w.threads[a.t].seen == w.s.readyCh
  }

  /** Probes, processes and readiness exist only after a first publication. */
  ghost predicate AfterPublication(w: World) {
    && (w.s.readyOK || w.s.cmd.Some? ==> w.s.readyCh.Some?)
    && forall t | t in w.threads && w.threads[t].Probing? ::
        w.threads[t].seen.Some? && w.s.readyCh.Some?
  }

  lemma {:induction false} AfterPublicationKept(w: World, a: Action)
    requires Protocol(w) && AfterPublication(w) && Enabled(w, a)
    ensures AfterPublication(Step(w, a))
  {
    var w' := Step(w, a);
    assert a.Run? && Busy(w.threads[a.t]).Some? ==> Busy(w.threads[a.t]) == w.s.readyCh;
    assert a.Run? && w.threads[a.t].Probing? ==> w.s.readyCh.Some?;
    assert w.s.readyCh.Some? ==> w'.s.readyCh.Some?;
    forall t | t in w'.threads && w'.threads[t].Probing?
      ensures w'.threads[t].seen.Some? && w'.s.readyCh.Some?
    {
      assert t != a.t && t in w.threads ==> w'.threads[t] == w.threads[t];
    }
  }

  /** Whoever is about to close the current channel still is after the step, or has closed it,
      or the channel is no longer current. */
  lemma {:induction false} ClosingKept(w: World, a: Action, ch: nat)
    requires CurrentIsLast(w) && ChannelsOnce(w) && Enabled(w, a)
    requires w.s.readyCh == Some(ch) && (ch in w.closeLog || SomeoneCloses(w, ch))
    ensures ch in Step(w, a).closeLog || SomeoneCloses(Step(w, a), ch)
  {
    var w' := Step(w, a);
    if ch in w.closeLog {
      ClosesOnlyCurrent(w, a);
    } else {
      var t :| t in w.threads && Closing(w.threads[t], ch);
      if a.t == t {
        assert w'.closeLog == w.closeLog + [ch];
      } else {
        assert w'.threads[t] == w.threads[t];
      }
    }
  }

  /** Exactly one kind of step breaks NoStrand. */
  lemma {:induction false} NoStrandExactly(w: World, a: Action)
    requires Protocol(w) && AfterPublication(w) && NoStrand(w) && Enabled(w, a)
    ensures NoStrand(Step(w, a)) <==> !Strands(w, a)
  {
    var w' := Step(w, a);
    if Strands(w, a) {
      forall t | t in w'.threads ensures !Closing(w'.threads[t], w.s.readyCh.value) {
        assert t != a.t ==> w'.threads[t] == w.threads[t];
      }
    } else if w'.s.readyOK {
      var th := if a.Run? then w.threads[a.t] else Finished;
      if th.SettingReady? {
        assert Busy(th) == w.s.readyCh;
        assert Closing(w'.threads[a.t], w'.s.readyCh.value);
      } else if th.Probing? && a.choice.Yes? && !w.s.readyOK {
        assert w.s.readyCh.Some?;
        if th.seen == w.s.readyCh {
          assert Closing(w'.threads[a.t], w'.s.readyCh.value);
        } else {
          ClosingKept(w, a, w.s.readyCh.value);
        }
      } else {
        assert w.s.readyOK && w'.s.readyCh == w.s.readyCh;
        ClosingKept(w, a, w.s.readyCh.value);
      }
    }
  }

  // ----- Whole runs -----

  ghost predicate Invariant(w: World) {
    Protocol(w) && OpenAnswered(w) && AfterPublication(w)
  }

  lemma {:induction false} RunsKeepInvariant(lease: nat, acts: seq<Action>)
    requires After(Init(lease), acts).Some?
    ensures Invariant(After(Init(lease), acts).value)
    decreases |acts|
  {
    if acts != [] {
      var w := After(Init(lease), acts[..|acts| - 1]).value;
      var a := acts[|acts| - 1];
      RunsKeepInvariant(lease, acts[..|acts| - 1]);
      ProtocolKept(w, a);
      OpenAnsweredKept(w, a);
      AfterPublicationKept(w, a);
    }
  }

  /** A prefix of a run is a run, and its last step is the run's. */
  lemma {:induction false} PrefixRuns(w0: World, acts: seq<Action>, k: nat)
    requires After(w0, acts).Some? && k <= |acts|
    ensures After(w0, acts[..k]).Some?
    decreases |acts|
  {
    if k < |acts| {
      PrefixRuns(w0, acts[..|acts| - 1], k);
      assert acts[..|acts| - 1][..k] == acts[..k];
    } else {
      assert acts[..k] == acts;
    }
  }

  lemma StepOfRun(w0: World, acts: seq<Action>, k: nat)
    requires After(w0, acts).Some? && k < |acts|
    ensures After(w0, acts[..k]).Some? && Enabled(After(w0, acts[..k]).value, acts[k])
    ensures After(w0, acts[..k + 1]) == Some(Step(After(w0, acts[..k]).value, acts[k]))
  {
    PrefixRuns(w0, acts, k);
    PrefixRuns(w0, acts, k + 1);
    assert acts[..k + 1][..k] == acts[..k];
  }

  ghost predicate ReadyNeverStrands(w0: World, acts: seq<Action>)
    requires After(w0, acts).Some?
  {
    forall k: nat | k <= |acts| :: After(w0, acts[..k]).Some? && NoStrand(After(w0, acts[..k]).value)
  }

  ghost predicate NoStrandingStep(w0: World, acts: seq<Action>)
    requires After(w0, acts).Some?
  {
    forall k: nat | k < |acts| :: After(w0, acts[..k]).Some? && !Strands(After(w0, acts[..k]).value, acts[k])
  }

  /** Over every run: ready never strands exactly when no overtaken probe is committed against
      an open channel nobody is closing. */
  lemma {:induction false} ReadyNeverStrandsExactly(lease: nat, acts: seq<Action>)
    requires After(Init(lease), acts).Some?
    ensures ReadyNeverStrands(Init(lease), acts) <==> NoStrandingStep(Init(lease), acts)
  {
    var w0 := Init(lease);
    forall k: nat | k < |acts| && After(w0, acts[..k]).Some? && NoStrand(After(w0, acts[..k]).value)
      ensures After(w0, acts[..k + 1]).Some?
      ensures NoStrand(After(w0, acts[..k + 1]).value) <==> !Strands(After(w0, acts[..k]).value, acts[k])
    {
      StepOfRun(w0, acts, k);
      RunsKeepInvariant(lease, acts[..k]);
      NoStrandExactly(After(w0, acts[..k]).value, acts[k]);
    }
    if ReadyNeverStrands(w0, acts) {
      forall k: nat | k < |acts| ensures After(w0, acts[..k]).Some? && !Strands(After(w0, acts[..k]).value, acts[k]) {
        assert After(w0, acts[..k]).Some? && NoStrand(After(w0, acts[..k]).value);
        assert NoStrand(After(w0, acts[..k + 1]).value);
      }
    } else if NoStrandingStep(w0, acts) {
      var k := 0;
      while k < |acts|
        invariant k <= |acts|
        invariant forall i: nat | i <= k :: After(w0, acts[..i]).Some? && NoStrand(After(w0, acts[..i]).value)
      {
        k := k + 1;
      }
    }
  }

  /** If no switch publishes between a probe's look and its commit, ready never strands. */
  lemma {:induction false} UnovertakenRunsNeverStrand(lease: nat, acts: seq<Action>)
    requires After(Init(lease), acts).Some?
    requires forall k: nat | k < |acts| ::
               After(Init(lease), acts[..k]).Some? ==> UnovertakenCommit(After(Init(lease), acts[..k]).value, acts[k])
    ensures ReadyNeverStrands(Init(lease), acts)
  {
    forall k: nat | k < |acts|
      ensures After(Init(lease), acts[..k]).Some? && !Strands(After(Init(lease), acts[..k]).value, acts[k])
    {
      PrefixRuns(Init(lease), acts, k);
    }
    ReadyNeverStrandsExactly(lease, acts);
  }
}
