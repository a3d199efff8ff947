/** What every interleaving of the switch protocol keeps. */
module SchedulerSafety {
  import opened Common
  import opened SchedulerSections
  import opened SchedulerProtocol

  // ----- Channels -----

  /** The current channel is the last one published. */
  ghost predicate CurrentIsLast(w: World) {
    w.s.readyCh == if w.channels == 0 then None else Some(w.channels - 1)
  }

  /** No channel is closed twice, only published ones are closed, and readyChClosed tells the
      truth about the current one. */
  ghost predicate ChannelsOnce(w: World) {
    && NoDup(w.closeLog)
    && (forall c | c in w.closeLog :: c < w.channels)
    && (w.s.readyChClosed <==> w.s.readyCh.Some? && w.s.readyCh.value in w.closeLog)
  }

  // ----- Switches -----

  /** The goroutine is inside the region switchMu guards. */
  predicate InSwitch(th: Thread) {
    th.Look? || th.Draining? || th.Stopping? || th.Killing? || th.ClosingOld? || th.Opening?
    || th.StoringLog? || th.Publishing? || th.Starting? || th.StoringCmd? || th.SpawningReap?
    || th.AwaitingReady? || th.GivingUp? || th.SettingReady? || th.MarkingReady?
    || th.MarkingStartFailed? || th.Leaving?
  }

  ghost predicate Exclusive(w: World) {
    && (w.switchMu.Some? ==> w.switchMu.value in w.threads)
    && forall t | t in w.threads :: InSwitch(w.threads[t]) <==> w.switchMu == Some(t)
  }

  /** The channel a switch is busy with, from publication until it returns. */
  function Busy(th: Thread): Option<nat> {
    match th
    case Starting(_, ch) => Some(ch)
    case StoringCmd(_, ch, _) => Some(ch)
    case SpawningReap(_, ch, _) => Some(ch)
    case AwaitingReady(_, ch) => Some(ch)
    case GivingUp(_, ch) => Some(ch)
    case SettingReady(_, ch) => Some(ch)
    case MarkingReady(_, ch) => Some(ch)
    case MarkingStartFailed(_, ch) => Some(ch)
    case Leaving(_, ch, _) => ch
    case _ => None
  }

  /** Nobody replaces the channel of a switch that has not returned. */
  ghost predicate BusyIsCurrent(w: World) {
    forall t | t in w.threads && Busy(w.threads[t]).Some? :: Busy(w.threads[t]) == w.s.readyCh
  }

  predicate Ended(th: Thread) {
    (th.Leaving? || th.Returned?) && th.how != There
  }

  /** A switch that became ready, or whose command did not start, returns its own channel, closed. */
  ghost predicate EndingsClosed(w: World) {
    forall t | t in w.threads && Ended(w.threads[t]) ::
      && w.threads[t].result.Some?
      && w.threads[t].result.value < w.channels
      && (w.threads[t].how != WaitFailed ==> w.threads[t].result.value in w.closeLog)
  }

  predicate Answers(th: Thread, ch: nat) {
    (Busy(th) == Some(ch) && (th.Leaving? ==> th.how == WaitFailed))
    || (th.Returned? && th.result == Some(ch) && th.how == WaitFailed)
  }

  /** Each channel is closed, or a switch still works on it, or that switch gave up waiting. */
  ghost predicate OpenAnswered(w: World) {
    forall ch: nat | ch < w.channels ::
      ch in w.closeLog || exists t :: t in w.threads && Answers(w.threads[t], ch)
  }

  ghost predicate Protocol(w: World) {
    CurrentIsLast(w) && ChannelsOnce(w) && Exclusive(w) && BusyIsCurrent(w) && EndingsClosed(w)
  }

  /** A step closes at most one channel: the current one, open until then. So a close asked for
      a superseded channel does nothing. */
  lemma {:induction false} ClosesOnlyCurrent(w: World, a: Action)
    requires CurrentIsLast(w) && ChannelsOnce(w) && Enabled(w, a)
    ensures Step(w, a).closeLog == w.closeLog
            || (w.s.readyCh.Some? && w.s.readyCh.value !in w.closeLog
                && Step(w, a).closeLog == w.closeLog + [w.s.readyCh.value]
                && Step(w, a).s.readyCh == w.s.readyCh)
  {
    if a.Run? {
      var th := w.threads[a.t];
      if !th.MarkingReady? && !th.MarkingStartFailed? && !th.MarkingReconciled? {
        assert Step(w, a).closeLog == w.closeLog;
      }
    }
  }

  lemma {:induction false} ChannelsKept(w: World, a: Action)
    requires CurrentIsLast(w) && ChannelsOnce(w) && Enabled(w, a)
    ensures CurrentIsLast(Step(w, a)) && ChannelsOnce(Step(w, a))
  {
    ClosesOnlyCurrent(w, a);
    var w' := Step(w, a);
    if w'.closeLog != w.closeLog {
      assert w'.s.readyChClosed;
      assert w'.closeLog[|w.closeLog|] == w.s.readyCh.value;
    } else if w'.channels == w.channels {
      assert w'.s.readyCh == w.s.readyCh && w'.s.readyChClosed == w.s.readyChClosed;
    }
  }

  lemma {:induction false} ExclusiveKept(w: World, a: Action)
    requires Exclusive(w) && Enabled(w, a)
    ensures Exclusive(Step(w, a))
  {
    var w' := Step(w, a);
    forall t | t in w'.threads
      ensures InSwitch(w'.threads[t]) <==> w'.switchMu == Some(t)
    {
      assert t != a.t && t in w.threads ==> w'.threads[t] == w.threads[t];
    }
  }

  lemma {:induction false} BusyKept(w: World, a: Action)
    requires Exclusive(w) && BusyIsCurrent(w) && Enabled(w, a)
    ensures BusyIsCurrent(Step(w, a))
  {
    var w' := Step(w, a);
    forall t | t in w'.threads && Busy(w'.threads[t]).Some?
      ensures Busy(w'.threads[t]) == w'.s.readyCh
    {
      if t != a.t && t in w.threads {
        assert w'.threads[t] == w.threads[t] && InSwitch(w.threads[t]);
      }
    }
  }

  lemma {:induction false} EndingsKept(w: World, a: Action)
    requires Protocol(w) && Enabled(w, a)
    ensures EndingsClosed(Step(w, a))
  {
    ClosesOnlyCurrent(w, a);
    var w' := Step(w, a);
    forall t | t in w'.threads && Ended(w'.threads[t])
      ensures && w'.threads[t].result.Some?
              && w'.threads[t].result.value < w'.channels
              && (w'.threads[t].how != WaitFailed ==> w'.threads[t].result.value in w'.closeLog)
    {
      if t == a.t {
        assert a.Run? && Busy(w.threads[t]).Some? ==> Busy(w.threads[t]) == w.s.readyCh;
      } else {
        assert t in w.threads ==> w'.threads[t] == w.threads[t];
      }
    }
  }

  lemma {:induction false} ProtocolKept(w: World, a: Action)
    requires Protocol(w) && Enabled(w, a)
    ensures Protocol(Step(w, a))
  {
    ChannelsKept(w, a);
    ExclusiveKept(w, a);
    BusyKept(w, a);
    EndingsKept(w, a);
  }

  /** A goroutine that answers for a channel goes on answering until it is closed. */
  lemma {:induction false} AnswersKept(w: World, a: Action, t: nat, ch: nat)
    requires CurrentIsLast(w) && ChannelsOnce(w) && BusyIsCurrent(w) && Enabled(w, a)
    requires t in w.threads && Answers(w.threads[t], ch)
    ensures t in Step(w, a).threads
    ensures Answers(Step(w, a).threads[t], ch) || ch in Step(w, a).closeLog
  {
    var w' := Step(w, a);
    if a.t != t {
      assert w'.threads[t] == w.threads[t];
    } else if w.threads[t].MarkingReady? || w.threads[t].MarkingStartFailed? {
      assert Busy(w.threads[t]) == Some(ch) == w.s.readyCh;
      assert w'.closeLog == if WillClose(w.s, Some(ch)) then w.closeLog + [ch] else w.closeLog;
    } else if w.threads[t].Leaving? {
      assert w'.threads[t] == Returned(w.threads[t].target, Some(ch), WaitFailed);
    } else {
      assert Busy(w.threads[t]) == Some(ch);
      assert Busy(w'.threads[t]) == Some(ch);
    }
  }

  lemma {:induction false} OpenAnsweredKept(w: World, a: Action)
    requires Protocol(w) && OpenAnswered(w) && Enabled(w, a)
    ensures OpenAnswered(Step(w, a))
  {
    var w' := Step(w, a);
    forall ch: nat | ch < w'.channels && ch !in w'.closeLog
      ensures exists t :: t in w'.threads && Answers(w'.threads[t], ch)
    {
      if ch == w.channels {
        assert Answers(w'.threads[a.t], ch);
      } else {
        assert ch !in w.closeLog;
        var t :| t in w.threads && Answers(w.threads[t], ch);
        AnswersKept(w, a, t, ch);
      }
    }
  }
}
