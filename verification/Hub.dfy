/** The event hub: every subscriber has a bounded queue, a full queue loses the message
    (internal/events/events.go). */
module Hub {
  import opened Common

  const CAPACITY := 64

  /** A subscriber's channel: what is queued, whether it is closed, what was taken from it. */
  datatype Channel = Channel(buf: seq<string>, closed: bool, received: seq<string>)

  /** Channel c is the one made by the c-th Subscribe; clients are the registered ones. */
  datatype State = State(clients: set<nat>, channels: seq<Channel>)

  /** A broadcast of a value that cannot be marshalled carries nothing. */
  datatype Event = Subscribe | Unsubscribe(c: nat) | Broadcast(msg: Option<string>) | Receive(c: nat)

  const START := State({}, [])

  /** A send that does not wait. */
  function Offer(ch: Channel, msg: string): Channel {
    if |ch.buf| < CAPACITY then ch.(buf := ch.buf + [msg]) else ch
  }

  function Take(ch: Channel): Channel {
    if ch.buf == [] then ch else ch.(buf := ch.buf[1..], received := ch.received + [ch.buf[0]])
  }

  function Step(s: State, e: Event): State {
    match e
    case Subscribe => State(s.clients + {|s.channels|}, s.channels + [Channel([], false, [])])
    case Unsubscribe(c) =>
      if c in s.clients && c < |s.channels| then
        State(s.clients - {c}, s.channels[c := s.channels[c].(closed := true)])
      else s
    case Broadcast(None) => s
    case Broadcast(Some(m)) =>
      s.(channels := seq(|s.channels|, i requires 0 <= i < |s.channels| =>
                         if i in s.clients then Offer(s.channels[i], m) else s.channels[i]))
    case Receive(c) =>
      if c < |s.channels| then s.(channels := s.channels[c := Take(s.channels[c])]) else s
  }

  /** The steps at which Go panics: a send on, or a close of, a closed channel. */
  predicate Panics(s: State, e: Event) {
    match e
    case Unsubscribe(c) => c in s.clients && c < |s.channels| && s.channels[c].closed
    case Broadcast(Some(_)) => exists c | 0 <= c < |s.channels| :: c in s.clients && s.channels[c].closed
    case _ => false
  }

  function After(events: seq<Event>): State {
    if events == [] then START else Step(After(events[..|events| - 1]), events[|events| - 1])
  }

  /** The messages broadcast while c was registered. */
  function Heard(events: seq<Event>, c: nat): seq<string> {
    if events == [] then []
    else
      var before, e := events[..|events| - 1], events[|events| - 1];
      Heard(before, c) + (if e.Broadcast? && e.msg.Some? && c in After(before).clients then [e.msg.value] else [])
  }

  /** c's queue was full at some broadcast while it was registered. */
  predicate EverFull(events: seq<Event>, c: nat) {
    events != [] &&
    var before, e := events[..|events| - 1], events[|events| - 1];
    EverFull(before, c)
    || (e.Broadcast? && e.msg.Some? && c in After(before).clients && c < |After(before).channels|
        && |After(before).channels[c].buf| >= 64)
  }

  /** a is what is left of b when some messages are dropped. */
  predicate Subsequence(a: seq<string>, b: seq<string>) {
    if a == [] then true
    else if b == [] then false
    else if a[|a| - 1] == b[|b| - 1] && Subsequence(a[..|a| - 1], b[..|b| - 1]) then true
    else Subsequence(a, b[..|b| - 1])
  }

  ghost predicate Sound(s: State) {
    && (forall c | c in s.clients :: c < |s.channels|)
    && forall c: nat | c < |s.channels| ::
         |s.channels[c].buf| <= 64 && (s.channels[c].closed <==> c !in s.clients)
  }

  lemma {:induction false} SoundKept(s: State, e: Event)
    requires Sound(s)
    ensures Sound(Step(s, e)) && !Panics(s, e)
  {
    var s' := Step(s, e);
    forall c: nat | c < |s'.channels|
      ensures |s'.channels[c].buf| <= CAPACITY && (s'.channels[c].closed <==> c !in s'.clients)
    {
      assert c < |s.channels| ==> |s.channels[c].buf| <= CAPACITY;
    }
  }

  /** In no run is anything sent to, or closed on, a closed channel; no queue exceeds its
      capacity; a channel is closed exactly when it was unsubscribed. */
  lemma {:induction false} NoRunPanics(events: seq<Event>)
    ensures Sound(After(events))
    ensures events != [] ==> !Panics(After(events[..|events| - 1]), events[|events| - 1])
  {
    hide Step, Panics, Sound;
    if events == [] {
      StartIsSound();
    } else {
      NoRunPanics(events[..|events| - 1]);
      SoundKept(After(events[..|events| - 1]), events[|events| - 1]);
    }
  }

  lemma StartIsSound()
    ensures Sound(START)
  {}

  lemma SubsequenceMore(a: seq<string>, b: seq<string>, m: string)
    requires Subsequence(a, b)
    ensures Subsequence(a + [m], b + [m]) && Subsequence(a, b + [m])
  {
    assert (a + [m])[..|a|] == a && (b + [m])[..|b|] == b;
  }

  /** What a subscriber took and what waits for it. */
  function All(ch: Channel): seq<string> {
    ch.received + ch.buf
  }

  predicate Reaches(s: State, e: Event, c: nat) {
    e.Broadcast? && e.msg.Some? && c in s.clients
  }

  /** Only a broadcast to a registered queue with room adds to it. */
  lemma {:induction false} OneStep(s: State, e: Event, c: nat)
    requires c < |s.channels|
    ensures c < |Step(s, e).channels|
    ensures All(Step(s, e).channels[c])
            == if Reaches(s, e, c) && |s.channels[c].buf| < 64 then All(s.channels[c]) + [e.msg.value] else All(s.channels[c])
  {
    if e == Receive(c) && s.channels[c].buf != [] {
      var buf := s.channels[c].buf;
      assert buf == [buf[0]] + buf[1..];
    }
  }

  /** The run a subscriber sees: what it took and what waits for it, in order, out of what was
      broadcast while it was registered; all of it if its queue was never full. */
  lemma {:induction false} DeliveryInOrder(events: seq<Event>, c: nat)
    requires c < |After(events).channels|
    ensures Subsequence(All(After(events).channels[c]), Heard(events, c))
    ensures !EverFull(events, c) ==> All(After(events).channels[c]) == Heard(events, c)
  {
    hide Subsequence;
    var before, e := events[..|events| - 1], events[|events| - 1];
    var s := After(before);
    if c == |s.channels| {
      NothingHeardYet(before, c);
      NewIsEmpty(s, e);
    } else {
      hide Step, All;
      DeliveryInOrder(before, c);
      OneStep(s, e, c);
      if Reaches(s, e, c) {
        SubsequenceMore(All(s.channels[c]), Heard(before, c), e.msg.value);
      } else {
        assert Heard(before, c) + [] == Heard(before, c);
      }
    }
  }

  lemma NewIsEmpty(s: State, e: Event)
    requires |Step(s, e).channels| == |s.channels| + 1
    ensures All(Step(s, e).channels[|s.channels|]) == [] && !e.Broadcast? && Subsequence([], [])
  {}

  /** A channel not yet made has heard nothing. */
  lemma {:induction false} NothingHeardYet(events: seq<Event>, c: nat)
    requires c >= |After(events).channels|
    ensures Heard(events, c) == [] && c !in After(events).clients
  {
    NoRunPanics(events);
    if events != [] {
      NothingHeardYet(events[..|events| - 1], c);
    }
  }

  class EventHub {
    var clients: set<nat>
    var channels: seq<Channel>

    ghost function View(): State
      reads this
    {
      State(clients, channels)
    }

    constructor ()
      ensures View() == START
    {
      clients, channels := {}, [];
    }

    method Subscribe() returns (ch: nat)
      modifies this
      ensures View() == Step(old(View()), Event.Subscribe) && ch == |old(channels)|
      ensures clients == old(clients) + {ch} && channels == old(channels) + [Channel([], false, [])]
    {
      ch := |channels|;
      channels := channels + [Channel([], false, [])];
      clients := clients + {ch};
    }

    method Unsubscribe(ch: nat)
      requires Sound(View())
      modifies this
      ensures View() == Step(old(View()), Event.Unsubscribe(ch)) && Sound(View())
      ensures clients == old(clients) - {ch} && |channels| == |old(channels)|
      ensures forall i: nat | i < |channels| :: channels[i] == if i == ch then old(channels)[i].(closed := true) else old(channels)[i]
    {
      if ch in clients {
        clients := clients - {ch};
        assert !channels[ch].closed;
        channels := channels[ch := channels[ch].(closed := true)];
      }
    }

    method Broadcast(v: Option<string>)
      requires Sound(View())
      modifies this`channels
      ensures View() == Step(old(View()), Event.Broadcast(v)) && Sound(View()) && |channels| == |old(channels)|
      ensures forall i: nat | i < |channels| ::
                channels[i] == if v.Some? && i in clients && |old(channels)[i].buf| < 64
                               then old(channels)[i].(buf := old(channels)[i].buf + [v.value]) else old(channels)[i]
    {
      if v.None? { return; }
      ghost var before := channels;
      var rest := clients;
      while rest != {}
        invariant rest <= clients && |channels| == |before|
        invariant forall i: nat | i < |channels| ::
                    channels[i] == if i in clients - rest then Offer(before[i], v.value) else before[i]
      {
        var ch :| ch in rest;
        assert !channels[ch].closed;
        if |channels[ch].buf| < CAPACITY {
          channels := channels[ch := channels[ch].(buf := channels[ch].buf + [v.value])];
        }
        rest := rest - {ch};
      }
      assert channels == Step(State(clients, before), Event.Broadcast(v)).channels;
    }

    /** A subscriber takes a message, if there is one. */
    method Receive(ch: nat) returns (msg: Option<string>)
      modifies this`channels
      ensures View() == Step(old(View()), Event.Receive(ch))
      ensures msg == if ch < |old(channels)| && old(channels)[ch].buf != [] then Some(old(channels)[ch].buf[0]) else None
    {
      if ch >= |channels| || channels[ch].buf == [] {
        assert ch < |channels| ==> channels[ch := channels[ch]] == channels;
        return None;
      }
      msg := Some(channels[ch].buf[0]);
      channels := channels[ch := Take(channels[ch])];
    }
  }
}
