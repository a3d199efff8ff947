/** The local background node joins and leaves the proxy's pool as its process becomes ready or
    not; a flag spares the rebuilds that would change nothing (pool.go). */
module PoolSync {
  import opened Common
  import opened Strategy
  import opened Balancing
  import Text
  import opened SchedulerSections
  import opened SchedulerProtocol
  import opened SchedulerMachine
  import opened SchedulerRuns
  import opened SchedulerRecovery

  const LOCAL_NAME := "local-background"

  /** The configuration of the background process that its node takes over. */
  datatype BackgroundConfig = BackgroundConfig(weight: int, toolCall: bool, tags: seq<string>, apiKey: string)

  function LocalNode(bg: BackgroundConfig, base: string): Backend {
    Backend(LOCAL_NAME, base, if bg.weight <= 0 then 1 else bg.weight, bg.toolCall, bg.tags, bg.apiKey)
  }

  /** The list a rebuild from scratch would use. */
  function Merged(statics: seq<Backend>, bg: BackgroundConfig, base: string, ready: bool): seq<Backend> {
    if ready && base != "" then statics + [LocalNode(bg, base)] else statics
  }

  /** What happens: a goroutine of the scheduler acts, a sync looks at the scheduler, requests
      select from the pool. */
  datatype Event =
    | Act(a: Action)
    | Sync
    | Select(tag: Option<string>)
    | SelectNext(tag: Option<string>, exclude: set<string>, gaps: seq<nat>)

  /** Where the scheduler is, and whether its background was ready when last looked at (before the
      first look here: first); None when an action is not enabled where it stands. */
  function Seen(w: World, first: bool, events: seq<Event>): Option<(World, bool)> {
    if events == [] then Some((w, first))
    else
      match Seen(w, first, events[..|events| - 1])
      case None => None
      case Some((v, ready)) =>
        match events[|events| - 1]
        case Act(a) => if Enabled(v, a) then Some((Step(v, a), ready)) else None
        case Sync => Some((v, BackgroundIsReady(v.s)))
        case _ => Some((v, ready))
  }

  lemma {:induction false} SeenPrefix(w: World, first: bool, events: seq<Event>, k: nat)
    requires Seen(w, first, events).Some? && k <= |events|
    ensures Seen(w, first, events[..k]).Some?
    decreases |events|
  {
    hide Enabled, Step;
    if k < |events| {
      SeenPrefix(w, first, events[..|events| - 1], k);
      assert events[..|events| - 1][..k] == events[..k];
    } else {
      assert events[..k] == events;
    }
  }

  class Server {
    const machine: Machine
    const balancer: Balancer
    const staticBackends: seq<Backend>
    const background: BackgroundConfig
    const base: string // from the configured readiness URL; "" if that does not parse
    var localNodeInPool: bool

    /** The flag tells what the pool was last built from. */
    ghost predicate Valid()
      reads this, balancer
    {
      balancer.Valid() && balancer.list == Merged(staticBackends, background, base, localNodeInPool)
    }

    constructor (lib: Library, statics: seq<Backend>, strategy: string, background: BackgroundConfig, base: string, lease: nat)
      ensures Valid() && !localNodeInPool && fresh(balancer) && fresh(machine) && fresh(machine.sch)
      ensures machine.Valid() && machine.View() == Init(lease)
      ensures balancer.lib == lib && balancer.kind == KindOf(strategy)
      ensures staticBackends == statics && this.background == background && this.base == base
    {
      machine := new Machine(lease);
      balancer := new Balancer(lib, statics, strategy);
      staticBackends, this.background, this.base := statics, background, base;
      localNodeInPool := false;
    }

    /** syncLocalBackendNode */
    method SyncLocalBackendNode()
      requires Valid()
      modifies this, balancer
      ensures Valid() && localNodeInPool == (machine.sch.mode == Background && machine.sch.readyOK)
      ensures balancer.list ==
                if machine.sch.mode == Background && machine.sch.readyOK && base != "" then
                  staticBackends + [Backend("local-background", base, if background.weight > 0 then background.weight else 1,
                                            background.toolCall, background.tags, background.apiKey)]
                else staticBackends
      ensures localNodeInPool == old(localNodeInPool) ==> balancer.View() == old(balancer.View())
    {
      hide TagsServed, LastOfName, Distinct, BuiltFrom, Rebuilt, BackgroundIsReady;
      var url, ready := machine.sch.BackgroundReady(base);
      if ready == localNodeInPool { return; }
      localNodeInPool := ready;
      var merged := staticBackends;
      if ready && url != "" {
        var w := background.weight;
        if w <= 0 { w := 1; }
        merged := merged + [Backend(LOCAL_NAME, url, w, background.toolCall, background.tags, background.apiKey)];
      }
      balancer.Update(merged);
    }

    /** The flag-guarded sync refines a rebuild at every look: whatever the scheduler's goroutines
        do between looks and selections, the backends, the full pool and every tag's pool are those
        a rebuild from the static list, plus the local node if it was ready when last looked at,
        would give - some selections later. */
    method Serve(events: seq<Event>)
      requires Valid() && machine.Valid() && Seen(machine.View(), localNodeInPool, events).Some?
      modifies this, balancer, machine, machine.sch
      ensures Valid() && machine.Valid() && Seen(old(machine.View()), old(localNodeInPool), events) == Some((machine.View(), localNodeInPool))
      ensures BuiltFrom(balancer.View(), balancer.lib, balancer.kind,
                        Merged(staticBackends, background, base, localNodeInPool))
    {
      hide Enabled, Step, BuiltFrom, Merged, After, FirstFit;
      ghost var w, first := machine.View(), localNodeInPool;
      for i := 0 to |events|
        invariant Valid() && machine.Valid() && Seen(w, first, events[..i]) == Some((machine.View(), localNodeInPool))
      {
        SeenPrefix(w, first, events, i + 1);
        assert events[..i + 1][..i] == events[..i];
        match events[i] {
          case Act(a) => machine.Act(a);
          case Sync => SyncLocalBackendNode();
          case Select(tag) => var _ := balancer.SelectFrom(tag);
          case SelectNext(tag, exclude, gaps) => var _, _ := balancer.SelectExcluding(tag, exclude, gaps);
        }
      }
      assert events[..|events|] == events;
      PoolIsBuilt();
    }

    lemma PoolIsBuilt()
      requires Valid()
      ensures BuiltFrom(balancer.View(), balancer.lib, balancer.kind, Merged(staticBackends, background, base, localNodeInPool))
    {}
  }

  /** With distinct names the local node takes part in the pool for a tag exactly when the
      background was ready, has an address, and carries the tag; the static members do not change. */
  lemma {:induction false} LocalNodeMembership(statics: seq<Backend>, bg: BackgroundConfig, base: string, ready: bool,
                                               tag: Option<string>)
    requires forall b | b in statics :: b.name != LOCAL_NAME
    ensures LOCAL_NAME in Members(Merged(statics, bg, base, ready), tag)
            <==> ready && base != ""
                 && (tag.None? || (bg.toolCall && tag.value == "tool_call")
                     || (tag.value != "" && exists x :: x in bg.tags && Text.TrimSpace(x) == tag.value))
    ensures Members(Merged(statics, bg, base, ready), tag) - {LOCAL_NAME} == Members(statics, tag)
  {
    hide EffectiveTags, Members, Merged;
    LocalNodeMembers(statics, bg, base, ready, tag);
    if tag.Some? { TagsExactly(LocalNode(bg, base), tag.value); }
  }

  lemma {:induction false} LocalNodeMembers(statics: seq<Backend>, bg: BackgroundConfig, base: string, ready: bool,
                                            tag: Option<string>)
    requires forall b | b in statics :: b.name != LOCAL_NAME
    ensures LOCAL_NAME in Members(Merged(statics, bg, base, ready), tag)
            <==> ready && base != "" && (tag.None? || tag.value in EffectiveTags(LocalNode(bg, base)))
    ensures Members(Merged(statics, bg, base, ready), tag) - {LOCAL_NAME} == Members(statics, tag)
  {
    hide EffectiveTags;
    assert LOCAL_NAME !in ByName(statics);
    assert (statics + [LocalNode(bg, base)])[..|statics|] == statics;
  }

  // ----- When the local node is in the pool -----

  /** A look sees whether the mode is the background and it is ready. */
  lemma {:induction false} SyncSees(w: World, first: bool, events: seq<Event>)
    requires Seen(w, first, events).Some?
    ensures var v := Seen(w, first, events).value.0;
            Seen(w, first, events + [Sync]) == Some((v, v.s.mode == Background && v.s.readyOK))
  {
    assert (events + [Sync])[..|events|] == events;
  }

  /** No step among the events makes the background ready. */
  ghost predicate NeverMadeReady(w: World, first: bool, events: seq<Event>)
    requires Seen(w, first, events).Some?
  {
    forall k: nat | k < |events| && events[k].Act? ::
      Seen(w, first, events[..k]).Some? && !MakesBackgroundReady(Seen(w, first, events[..k]).value.0, events[k].a)
  }

  /** From where the background is not ready (a coding switch has published, say) until a background
      switch becomes ready or a reconcile finds it so, every sync leaves the node out. */
  lemma {:induction false} LocalNodeStaysOut(w: World, first: bool, events: seq<Event>)
    requires Seen(w, first, events).Some? && NeverMadeReady(w, first, events)
    requires !(w.s.mode == Background && w.s.readyOK)
    ensures var (v, ready) := Seen(w, first, events).value;
            !(v.s.mode == Background && v.s.readyOK) && (!first || Sync in events ==> !ready)
    decreases |events|
  {
    hide Enabled, Step, MakesBackgroundReady;
    if events != [] {
      var n := |events| - 1;
      var before, e := events[..n], events[n];
      SeenPrefix(w, first, events, n);
      forall k: nat | k < n && before[k].Act?
        ensures Seen(w, first, before[..k]).Some? && !MakesBackgroundReady(Seen(w, first, before[..k]).value.0, before[k].a)
      {
        assert before[..k] == events[..k] && events[k] == before[k];
      }
      LocalNodeStaysOut(w, first, before);
      assert events == before + [e];
      if e.Act? { BackgroundReadyExactly(Seen(w, first, before).value.0, e.a); }
    }
  }

  /** Once the background is up, a sync puts the node into the pool, whatever other backends there
      are; with the coding mode published, a sync takes it out. */
  lemma {:induction false} SyncFollowsMode(w: World, first: bool, statics: seq<Backend>, bg: BackgroundConfig, base: string)
    requires base != "" && forall b | b in statics :: b.name != "local-background"
    ensures Seen(w, first, [Sync]).Some?
    ensures "local-background" in Members(Merged(statics, bg, base, Seen(w, first, [Sync]).value.1), None)
            <==> w.s.mode == Background && w.s.readyOK
  {
    assert [] + [Sync] == [Sync];
    SyncSees(w, first, []);
    LocalNodeMembership(statics, bg, base, w.s.mode == Background && w.s.readyOK, None);
  }

  /** So after Start has brought the background up. */
  lemma {:induction false} LocalNodeJoins(lease: nat, first: bool, statics: seq<Backend>, bg: BackgroundConfig, base: string)
    requires base != "" && forall b | b in statics :: b.name != "local-background"
    ensures exists w :: Reachable(Init(lease), w) && w.threads.Keys == {0, 1} && Seen(w, first, [Sync]).Some?
                        && "local-background" in Members(Merged(statics, bg, base, Seen(w, first, [Sync]).value.1), None)
  {
    hide Reachable, Seen, Members, Merged;
    var w := BackgroundUp(lease);
    SyncFollowsMode(w, first, statics, bg, base);
  }
}
