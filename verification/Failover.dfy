/** The proxy's failover loop over the balancer (proxy.go, handleProxy and selectBackend). */
module Failover {
  import opened Common
  import opened Strategy
  import opened Interleaving
  import opened Balancing
  import Text

  /** Where the request goes: a routing rule's pool, the full pool, or one fixed target that has
      no failover. A dynamic override's address is checked, the coding process's is not. */
  datatype Route = Rule(pool: string) | Full | Single(target: Candidate, checked: bool)

  function TagOf(route: Route): Option<string> {
    if route.Rule? then Some(route.pool) else None
  }

  datatype Candidate = Candidate(url: string, cfg: Option<Backend>)

  function CandidateOf(b: Backend): Candidate {
    Candidate(Text.TrimSlashes(b.url), Some(b))
  }

  /** candidateKey */
  function Key(c: Candidate): string {
    if c.cfg.Some? then c.cfg.value.name else c.url
  }

  /** A backend of a pool is known by its name, a fixed target by its address. */
  lemma KeyExactly(url: string, b: Backend)
    ensures Key(Candidate(url, Some(b))) == b.name && Key(Candidate(url, None)) == url
  {}

  function Name(c: Candidate): string {
    if c.cfg.Some? then c.cfg.value.name else ""
  }

  predicate ValidURL(url: string) {
    Text.TrimSpace(url) != "" && (Text.HasPrefix(url, "http://") || Text.HasPrefix(url, "https://"))
  }

  ghost predicate IsHTTP(url: string) {
    "http://" <= url || "https://" <= url
  }

  /** An address is accepted exactly when it begins with one of the two schemes. */
  lemma ValidURLExactly(url: string)
    ensures ValidURL(url) <==> "http://" <= url || "https://" <= url
  {
    if "http://" <= url || "https://" <= url {
      assert url[0] == 'h' && url[0] in url;
      Text.TrimSpaceTrims(url, 'h');
    }
  }

  /** What sending to a candidate comes to: the request cannot be built, the connection fails,
      or the backend answers with a status. */
  datatype Outcome = Unbuildable | ConnError(text: string) | Status(code: int)

  predicate Fails(o: Outcome) {
    o.ConnError? || (o.Status? && o.code != 200)
  }

  datatype Attempt = Attempt(name: string, url: string, failure: Outcome)

  /** What the client gets. */
  datatype Answer =
    | NoBackend
    | InvalidURL
    | Internal
    | Forwarded
    | Exhausted(status: int, attempts: seq<Attempt>)

  /** The outcome of each candidate, by its key. */
  type Net = string -> Outcome

  ghost function Keys(sent: seq<Candidate>): set<string> {
    set c | c in sent :: Key(c)
  }

  ghost predicate DistinctKeys(sent: seq<Candidate>) {
    forall i, j | 0 <= i < j < |sent| :: Key(sent[i]) != Key(sent[j])
  }

  function Report(c: Candidate, o: Outcome): Attempt {
    Attempt(Name(c), c.url, o)
  }

  /** The answer tells the story of the candidates the request was sent to, in order; only the
      last may have done anything but fail, and it is the one recorded. */
  ghost predicate Tells(answer: Answer, sent: seq<Candidate>, recorded: Option<string>, net: Net) {
    && (forall i | 0 <= i < |sent| - 1 :: Fails(net(Key(sent[i]))))
    && match answer
       case NoBackend => sent == [] && recorded.None?
       case InvalidURL => sent == [] && recorded.None?
       case Internal => sent != [] && net(Key(sent[|sent| - 1])) == Unbuildable && recorded.None?
       case Forwarded =>
         sent != [] && net(Key(sent[|sent| - 1])) == Status(200) && recorded == Some(Key(sent[|sent| - 1]))
       case Exhausted(status, attempts) =>
         && sent != [] && |attempts| == |sent| && recorded == Some(Key(sent[|sent| - 1]))
         && (forall i | 0 <= i < |sent| :: Fails(net(Key(sent[i])))
                && attempts[i].name == (if sent[i].cfg.Some? then sent[i].cfg.value.name else "")
                && attempts[i].url == sent[i].url && attempts[i].failure == net(Key(sent[i])))
         && status == (match net(Key(sent[|sent| - 1])) case Status(code) => code case _ => 502)
  }

  /** When all failed the client gets the last backend's status, or 502 if it did not answer. */
  lemma ExhaustedStatus(answer: Answer, sent: seq<Candidate>, recorded: Option<string>, net: Net)
    requires Tells(answer, sent, recorded, net) && answer.Exhausted?
    ensures sent != [] && recorded == Some(Key(sent[|sent| - 1]))
    ensures net(Key(sent[|sent| - 1])).Status? ==> answer.status == net(Key(sent[|sent| - 1])).code
    ensures !net(Key(sent[|sent| - 1])).Status? ==> answer.status == 502
  {}

  /** Every backend tried for a rule carried the rule's tag in the configuration it was picked
      from. The first pick is not filtered, so it needs distinct names. */
  ghost predicate Tagged(route: Route, sent: seq<Candidate>, firstToo: bool) {
    forall i | 0 <= i < |sent| && (i > 0 || firstToo) && route.Rule? ::
      sent[i].cfg.Some? && HasTag(sent[i].cfg.value, route.pool)
  }

  ghost predicate NamesWithin(list: seq<Backend>, universe: set<string>) {
    forall b | b in list :: b.name in universe
  }

  /** Every member can be sent to. */
  ghost predicate Sendable(list: seq<Backend>, tag: Option<string>, net: Net) {
    forall n | n in Members(list, tag) ::
      var url := Text.TrimSlashes(ByName(list)[n].url);
      ("http://" <= url || "https://" <= url) && net(n) != Unbuildable
  }

  /** What holds of a candidate picked from the pool of list while the balancer holds it. */
  ghost predicate PickedFrom(list: seq<Backend>, tag: Option<string>, c: Candidate) {
    c.cfg.Some? && Key(c) in Members(list, tag) && c == CandidateOf(ByName(list)[Key(c)])
  }

  ghost predicate AllPicked(list: seq<Backend>, tag: Option<string>, sent: seq<Candidate>) {
    forall i | 0 <= i < |sent| :: PickedFrom(list, tag, sent[i])
  }

  /** For a pool that is not changed meanwhile: only its members were tried, at their addresses;
      the request is refused exactly when it is empty; exhausted means every member was tried. */
  ghost predicate Thorough(list: seq<Backend>, tag: Option<string>, answer: Answer, sent: seq<Candidate>) {
    && AllPicked(list, tag, sent)
    && (answer.NoBackend? <==> Members(list, tag) == {})
    && (answer.Exhausted? ==> Keys(sent) == Members(list, tag))
    && (answer.InvalidURL? ==>
          exists n :: n in Members(list, tag) && !IsHTTP(Text.TrimSlashes(ByName(list)[n].url)))
  }

  lemma SendableMembers(list: seq<Backend>, tag: Option<string>, net: Net)
    requires Sendable(list, tag, net)
    ensures forall n | n in Members(list, tag) :: IsHTTP(Text.TrimSlashes(ByName(list)[n].url)) && net(n) != Unbuildable
  {
    hide ByName;
  }

  /** Each member has its failure reported, once. */
  ghost predicate ReportsAll(members: set<string>, attempts: seq<Attempt>) {
    && (forall i | 0 <= i < |attempts| :: attempts[i].name in members)
    && (forall i, j | 0 <= i < j < |attempts| :: attempts[i].name != attempts[j].name)
    && (forall n | n in members :: exists i :: 0 <= i < |attempts| && attempts[i].name == n)
  }

  /** A thorough answer is a 200 exactly when some member gives a 200, and a report of every
      member, each once, exactly when all fail. */
  lemma {:induction false} ThoroughAnswersExactly(list: seq<Backend>, tag: Option<string>, net: Net, answer: Answer,
                                                  sent: seq<Candidate>, recorded: Option<string>)
    requires Tells(answer, sent, recorded, net) && Thorough(list, tag, answer, sent)
    requires Sendable(list, tag, net) && DistinctKeys(sent)
    ensures answer.Forwarded? <==> exists n :: n in Members(list, tag) && net(n) == Status(200)
    ensures answer.Exhausted? <==> Members(list, tag) != {} && forall n | n in Members(list, tag) :: net(n) != Status(200)
    ensures answer.Exhausted? ==> ReportsAll(Members(list, tag), answer.attempts)
  {
    hide Members, CandidateOf, Sendable, IsHTTP;
    SendableMembers(list, tag, net);
    assert forall i | 0 <= i < |sent| :: PickedFrom(list, tag, sent[i]);
    if answer.Exhausted? {
      assert forall i | 0 <= i < |sent| :: answer.attempts[i].name == Key(sent[i]);
      forall n | n in Members(list, tag)
        ensures Fails(net(n)) && exists i :: 0 <= i < |sent| && answer.attempts[i].name == n
      {
        assert n in Keys(sent);
        var i :| 0 <= i < |sent| && Key(sent[i]) == n;
        assert answer.attempts[i].name == n;
      }
    }
  }

  lemma KeysOfMore(sent: seq<Candidate>, c: Candidate)
    ensures Keys(sent + [c]) == Keys(sent) + {Key(c)}
    ensures DistinctKeys(sent) && Key(c) !in Keys(sent) ==> DistinctKeys(sent + [c])
  {
    assert forall i | 0 <= i < |sent| :: sent[i] in sent && Key(sent[i]) in Keys(sent);
    forall k ensures k in Keys(sent + [c]) <==> k in Keys(sent) + {Key(c)} {
      if k in Keys(sent) {
        var x :| x in sent && Key(x) == k;
        assert x in sent + [c];
      }
      assert c in sent + [c];
    }
  }

  /** Distinct keys from a set of names are no more than the set has. */
  lemma {:induction false} DistinctKeysFit(sent: seq<Candidate>, universe: set<string>)
    requires DistinctKeys(sent) && Keys(sent) <= universe
    ensures |sent| <= |universe|
  {
    if sent != [] {
      var rest, c := sent[..|sent| - 1], sent[|sent| - 1];
      assert sent == rest + [c];
      KeysOfMore(rest, c);
      assert Key(c) !in Keys(rest);
      DistinctKeysFit(rest, universe - {Key(c)});
    }
  }

  /** selectBackend's part of a request: the first candidate, or the answer if there is none. */
  method SelectBackend(bb: Balancer, route: Route) returns (first: Option<Candidate>, refusal: Answer)
    requires bb.Valid() && LawfulLibrary(bb.lib)
    modifies bb`bal, bb`pools
    ensures bb.Valid()
    ensures first.None? ==> refusal == NoBackend || refusal == InvalidURL
    ensures route.Single? ==>
              first == (if route.checked && !("http://" <= route.target.url || "https://" <= route.target.url) then None
                        else Some(route.target))
    ensures route.Single? && first.None? ==> refusal == InvalidURL
    ensures !route.Single? ==>
              match Drawn(old(bb.View()), TagOf(route))
              case None => first.None? && refusal == NoBackend
              case Some(b) =>
                var url := Text.TrimSlashes(b.url);
                && (first.None? && refusal == InvalidURL <==> !("http://" <= url || "https://" <= url))
                && (first.Some? ==> first.value == Candidate(url, Some(b)))
                && url <= b.url && (url == "" || url[|url| - 1] != '/') && forall i | |url| <= i < |b.url| :: b.url[i] == '/'
    ensures first.Some? && !route.Single? ==> first.value.cfg.Some? && Key(first.value) in ByName(bb.list)
    ensures first.Some? && !route.Single? && Distinct(bb.list) ==> PickedFrom(bb.list, TagOf(route), first.value)
    ensures !route.Single? && first.None? && refusal == InvalidURL && Distinct(bb.list) ==>
              exists n :: n in Members(bb.list, TagOf(route)) && !IsHTTP(Text.TrimSlashes(ByName(bb.list)[n].url))
    ensures !route.Single? && WellConfigured(bb.list) ==>
              (first.None? && refusal == NoBackend <==> Members(bb.list, TagOf(route)) == {})
  {
    hide NewPool, LawfulLibrary, Rebuilt, EffectiveTags, ValidURL;
    ghost var tag := TagOf(route);
    var c: Candidate;
    if route.Single? {
      c := route.target;
    } else {
      if Distinct(bb.list) { DrawnIsMember(bb.View(), bb.lib, bb.kind, bb.list, tag); }
      assert bb.backends == ByName(bb.list) by { BuiltBackends(bb.View(), bb.lib, bb.kind, bb.list); }
      var b := bb.SelectFrom(TagOf(route));
      if b.None? { return None, NoBackend; }
      c := CandidateOf(b.value);
    }
    ValidURLExactly(c.url);
    if (route.Single? ==> route.checked) && !ValidURL(c.url) { return None, InvalidURL; }
    return Some(c), NoBackend;
  }

  /** The nextBackend function selectBackend returns, after what others do meanwhile and, in gaps,
      among their draws. */
  method NextBackend(bb: Balancer, route: Route, uses: seq<Use>, gaps: seq<nat>, tried: set<string>)
    returns (next: Option<Candidate>)
    requires bb.Valid() && LawfulLibrary(bb.lib)
    modifies bb
    ensures bb.Valid() && bb.list == LastList(old(bb.list), uses)
    ensures route.Single? ==> next.None?
    ensures next.Some? ==> PickedFrom(bb.list, TagOf(route), next.value) && Key(next.value) !in tried
    ensures !route.Single? && WellConfigured(bb.list)
            && Robust(bb.lib, bb.kind, bb.list, TagOf(route), Foreign(gaps, Tries(ByName(bb.list)))) ==>
              (next.None? <==> Members(bb.list, TagOf(route)) <= tried)
  {
    hide NewPool, LawfulLibrary, BuiltFrom, FirstFit, EffectiveTags, Robust, Tries;
    UseAll(bb, uses);
    if route.Single? { return None; }
    BuiltBackends(bb.View(), bb.lib, bb.kind, bb.list);
    var b, _ := bb.SelectExcluding(TagOf(route), tried, gaps);
    if b.None? { return None; }
    return Some(CandidateOf(b.value));
  }

  /** All of sent have failed, as attempts reports. */
  ghost predicate FailedSoFar(sent: seq<Candidate>, attempts: seq<Attempt>, net: Net) {
    && |attempts| == |sent|
    && forall i | 0 <= i < |sent| :: Fails(net(Key(sent[i]))) && attempts[i] == Report(sent[i], net(Key(sent[i])))
  }

  lemma OneMoreFailed(sent: seq<Candidate>, attempts: seq<Attempt>, net: Net, c: Candidate)
    requires FailedSoFar(sent, attempts, net) && Fails(net(Key(c)))
    ensures FailedSoFar(sent + [c], attempts + [Report(c, net(Key(c)))], net)
  {}

  /** The three ways out of the loop. */
  lemma EndsTell(sent: seq<Candidate>, attempts: seq<Attempt>, net: Net, c: Candidate)
    requires FailedSoFar(sent, attempts, net)
    ensures net(Key(c)) == Unbuildable ==> Tells(Internal, sent + [c], None, net)
    ensures net(Key(c)) == Status(200) ==> Tells(Forwarded, sent + [c], Some(Key(c)), net)
    ensures Fails(net(Key(c))) ==>
              Tells(Exhausted(if net(Key(c)).Status? then net(Key(c)).code else 502, attempts + [Report(c, net(Key(c)))]),
                    sent + [c], Some(Key(c)), net)
  {}

  /** A candidate picked from a pool carried the route's tag, and is named there. */
  lemma PickedIsTagged(list: seq<Backend>, route: Route, c: Candidate, universe: set<string>)
    requires PickedFrom(list, TagOf(route), c) && NamesWithin(list, universe)
    ensures Key(c) in Members(list, TagOf(route)) && Key(c) in universe
    ensures route.Rule? ==> c.cfg.Some? && HasTag(c.cfg.value, route.pool)
  {
    hide EffectiveTags, HasTag;
    assert ByName(list)[Key(c)].name in universe;
    if route.Rule? { EffectiveIsHas(c.cfg.value, route.pool); }
  }

  lemma TaggedMore(route: Route, sent: seq<Candidate>, c: Candidate, firstToo: bool)
    requires sent != [] && Tagged(route, sent, firstToo)
    requires route.Rule? ==> c.cfg.Some? && HasTag(c.cfg.value, route.pool)
    ensures Tagged(route, sent + [c], firstToo)
  {}

  /** The pool is not updated meanwhile, and the draws others make within any one selection are
      few enough for the strategy. */
  ghost predicate Undisturbed(bb: Balancer, route: Route, others: nat -> seq<Use>, amid: nat -> seq<nat>)
    reads bb
  {
    && (forall k: nat, u | u in others(k) :: !u.Update?)
    && forall k: nat :: Robust(bb.lib, bb.kind, bb.list, TagOf(route), Foreign(amid(k), Tries(ByName(bb.list))))
  }

  /** handleProxy from the selection on. Other goroutines make the pool updates and selections
      others(k) before the k-th failover selection, and draw amid(k) times within it; universe
      holds every name ever in a pool. */
  method HandleProxy(bb: Balancer, route: Route, net: Net, others: nat -> seq<Use>, amid: nat -> seq<nat>,
                     ghost universe: set<string>)
    returns (answer: Answer, sent: seq<Candidate>, recorded: Option<string>)
    requires bb.Valid() && LawfulLibrary(bb.lib)
    requires NamesWithin(bb.list, universe)
    requires forall k: nat, u | u in others(k) && u.Update? :: NamesWithin(u.list, universe)
    modifies bb
    ensures bb.Valid() && Tells(answer, sent, recorded, net)
    ensures DistinctKeys(sent)
    ensures Tagged(route, sent, Distinct(old(bb.list)))
    ensures route.Single? ==>
              sent == if route.checked && !("http://" <= route.target.url || "https://" <= route.target.url) then [] else [route.target]
    ensures !route.Single? ==> |sent| <= |universe| && Keys(sent) <= universe
    ensures !route.Single? && WellConfigured(old(bb.list)) && old(Undisturbed(bb, route, others, amid)) ==>
              bb.list == old(bb.list) && Thorough(bb.list, TagOf(route), answer, sent)
  {
    hide LawfulLibrary, EffectiveTags, HasTag, BuiltFrom, ValidURL, Drawn, Members, PickedFrom, AllPicked, FailedSoFar, Distinct, WellConfigured,
         Tagged, NamesWithin, Tells, Thorough, Keys, DistinctKeys, ByName, Robust, Tries, Foreign, Key;
    ghost var start, tag := bb.list, TagOf(route);
    ghost var fixed := WellConfigured(start) && Undisturbed(bb, route, others, amid);
    NothingSent(route, net, Distinct(start));
    var first, refusal := SelectBackend(bb, route);
    if WellConfigured(start) { WellConfiguredIsDistinct(start); }
    if first.None? {
      if fixed && !route.Single? { RefusalIsThorough(start, tag, refusal); }
      return refusal, [], None;
    }
    var cand := first.value;
    FirstSent(start, route, cand, universe);
    var tried := {Key(cand)};
    var attempts: seq<Attempt> := [];
    var k := 0;
    sent := [];
    while true
      invariant bb.Valid() && NamesWithin(bb.list, universe)
      invariant tried == Keys(sent) + {Key(cand)} && Key(cand) !in Keys(sent) && DistinctKeys(sent)
      invariant FailedSoFar(sent, attempts, net)
      invariant Tagged(route, sent + [cand], Distinct(start))
      invariant if route.Single? then sent == [] && cand == route.target else tried <= universe
      invariant !route.Single? && fixed ==> bb.list == start && AllPicked(start, tag, sent + [cand])
      decreases universe - tried
    {
      ghost var before := sent;
      sent := sent + [cand];
      KeysOfMore(before, cand);
      EndsTell(before, attempts, net, cand);
      if !route.Single? { DistinctKeysFit(sent, universe); }
      var outcome := net(Key(cand));
      if fixed && !route.Single? { SentIsThorough(start, tag, sent); }
      if outcome.Unbuildable? { return Internal, sent, None; }
      if outcome == Status(200) { return Forwarded, sent, Some(Key(cand)); }
      OneMoreFailed(before, attempts, net, cand);
      attempts := attempts + [Report(cand, outcome)];
      ghost var held := bb.list;
      var next := NextBackend(bb, route, others(k), amid(k), tried);
      LastListIs(held, others(k));
      if next.None? {
        answer := Exhausted(if outcome.Status? then outcome.code else 502, attempts);
        if fixed && !route.Single? { AllSentIsThorough(start, tag, sent, answer); }
        return answer, sent, Some(Key(cand));
      }
      assert NamesWithin(bb.list, universe);
      k := k + 1;
      cand := next.value;
      PickedIsTagged(bb.list, route, cand, universe);
      if fixed { PickedMore(start, tag, sent, cand); }
      TaggedMore(route, sent, cand, Distinct(start));
      tried := tried + {Key(cand)};
    }
  }

  /** A request of a rule or the full pool whose backends stay the same: the client gets a 200 if
      and only if some member answers 200, and if all fail the failure of each, once. */
  method HandleFixedPool(bb: Balancer, route: Route, net: Net, others: nat -> seq<Use>, amid: nat -> seq<nat>)
    returns (answer: Answer, sent: seq<Candidate>, recorded: Option<string>)
    requires bb.Valid() && LawfulLibrary(bb.lib) && WellConfigured(bb.list) && !route.Single?
    requires Sendable(bb.list, TagOf(route), net) && Undisturbed(bb, route, others, amid)
    modifies bb
    ensures bb.Valid() && bb.list == old(bb.list)
    ensures answer.Forwarded? <==> exists n :: n in Members(bb.list, TagOf(route)) && net(n) == Status(200)
    ensures answer.Exhausted? <==>
              Members(bb.list, TagOf(route)) != {} && forall n | n in Members(bb.list, TagOf(route)) :: net(n) != Status(200)
    ensures answer.Exhausted? ==> ReportsAll(Members(bb.list, TagOf(route)), answer.attempts)
    ensures answer.NoBackend? <==> Members(bb.list, TagOf(route)) == {}
  {
    hide LawfulLibrary, Sendable, Undisturbed, Tells, DistinctKeys, WellConfigured, Members, ReportsAll;
    ghost var list := bb.list;
    ghost var universe := ByName(list).Keys;
    NamesAreWithin(list);
    NoUpdatesWithin(bb, route, others, amid, universe);
    answer, sent, recorded := HandleProxy(bb, route, net, others, amid, universe);
    ThoroughAnswersExactly(list, TagOf(route), net, answer, sent, recorded);
  }

  lemma NamesAreWithin(list: seq<Backend>)
    ensures NamesWithin(list, ByName(list).Keys)
  {}

  lemma NoUpdatesWithin(bb: Balancer, route: Route, others: nat -> seq<Use>, amid: nat -> seq<nat>, universe: set<string>)
    requires Undisturbed(bb, route, others, amid)
    ensures forall k: nat, u | u in others(k) && u.Update? :: NamesWithin(u.list, universe)
  {
    hide Robust;
  }

  /** The strategies that run through cycles need nothing more than that nobody updates the pool
      or draws within a selection; other requests may select in between. */
  lemma {:induction false} CyclicIsUndisturbed(bb: Balancer, route: Route, others: nat -> seq<Use>, amid: nat -> seq<nat>)
    requires LawfulLibrary(bb.lib) && WellConfigured(bb.list) && Cyclic(bb.kind)
    requires forall k: nat, u | u in others(k) :: !u.Update?
    requires forall k: nat :: amid(k) == []
    ensures Undisturbed(bb, route, others, amid)
  {
    hide LawfulLibrary, WellConfigured, Cyclic, Robust, Tries;
    CyclicIsRobust(bb.lib, bb.kind, bb.list, TagOf(route));
    NoGaps(Tries(ByName(bb.list)));
  }

  lemma {:induction false} NoGaps(m: nat)
    ensures Foreign([], m) == 0
  {
    if m > 0 { NoGaps(m - 1); }
  }

  /** So under round-robin and the weighted round-robins. */
  method HandleCyclicPool(bb: Balancer, route: Route, net: Net, others: nat -> seq<Use>)
    returns (answer: Answer, sent: seq<Candidate>, recorded: Option<string>)
    requires bb.Valid() && LawfulLibrary(bb.lib) && WellConfigured(bb.list) && Cyclic(bb.kind) && !route.Single?
    requires Sendable(bb.list, TagOf(route), net) && forall k: nat, u | u in others(k) :: !u.Update?
    modifies bb
    ensures bb.Valid() && bb.list == old(bb.list)
    ensures answer.Forwarded? <==> exists n :: n in Members(bb.list, TagOf(route)) && net(n) == Status(200)
    ensures answer.Exhausted? <==>
              Members(bb.list, TagOf(route)) != {} && forall n | n in Members(bb.list, TagOf(route)) :: net(n) != Status(200)
    ensures answer.Exhausted? ==> ReportsAll(Members(bb.list, TagOf(route)), answer.attempts)
    ensures answer.NoBackend? <==> Members(bb.list, TagOf(route)) == {}
  {
    hide LawfulLibrary, Sendable, Undisturbed, WellConfigured, Members, ReportsAll, Cyclic;
    var amid: nat -> seq<nat> := (k: nat) => [];
    CyclicIsUndisturbed(bb, route, others, amid);
    answer, sent, recorded := HandleFixedPool(bb, route, net, others, amid);
  }

  lemma NothingSent(route: Route, net: Net, firstToo: bool)
    ensures FailedSoFar([], [], net) && Tagged(route, [], firstToo) && Keys([]) == {} && DistinctKeys([])
    ensures Tells(NoBackend, [], None, net) && Tells(InvalidURL, [], None, net)
  {}

  lemma RefusalIsThorough(list: seq<Backend>, tag: Option<string>, refusal: Answer)
    requires refusal == NoBackend || refusal == InvalidURL
    requires refusal == NoBackend <==> Members(list, tag) == {}
    requires refusal == InvalidURL ==>
               exists n :: n in Members(list, tag) && !IsHTTP(Text.TrimSlashes(ByName(list)[n].url))
    ensures Thorough(list, tag, refusal, [])
  {}

  lemma PickedMore(list: seq<Backend>, tag: Option<string>, sent: seq<Candidate>, c: Candidate)
    requires AllPicked(list, tag, sent) && PickedFrom(list, tag, c)
    ensures AllPicked(list, tag, sent + [c])
  {}

  lemma SentAreMembers(list: seq<Backend>, tag: Option<string>, sent: seq<Candidate>)
    requires AllPicked(list, tag, sent) && sent != []
    ensures Keys(sent) <= Members(list, tag) && Members(list, tag) != {}
  {
    hide Members;
    assert PickedFrom(list, tag, sent[0]);
    forall k | k in Keys(sent) ensures k in Members(list, tag) {
      var i :| 0 <= i < |sent| && Key(sent[i]) == k;
      assert PickedFrom(list, tag, sent[i]);
    }
  }

  lemma SentIsThorough(list: seq<Backend>, tag: Option<string>, sent: seq<Candidate>)
    requires AllPicked(list, tag, sent) && sent != []
    ensures Thorough(list, tag, Internal, sent) && Thorough(list, tag, Forwarded, sent)
  {
    SentAreMembers(list, tag, sent);
  }

  lemma AllSentIsThorough(list: seq<Backend>, tag: Option<string>, sent: seq<Candidate>, answer: Answer)
    requires AllPicked(list, tag, sent) && Members(list, tag) <= Keys(sent) && sent != [] && answer.Exhausted?
    ensures Thorough(list, tag, answer, sent)
  {
    SentAreMembers(list, tag, sent);
  }

  lemma FirstSent(list: seq<Backend>, route: Route, c: Candidate, universe: set<string>)
    requires !route.Single? && Distinct(list) ==> PickedFrom(list, TagOf(route), c)
    requires !route.Single? ==> Key(c) in ByName(list) && NamesWithin(list, universe)
    ensures Tagged(route, [] + [c], Distinct(list))
    ensures !route.Single? ==> Key(c) in universe
    ensures !route.Single? && Distinct(list) ==> AllPicked(list, TagOf(route), [] + [c])
  {
    hide EffectiveTags, HasTag;
    if !route.Single? { assert ByName(list)[Key(c)].name in universe; }
    if route.Rule? && c.cfg.Some? { EffectiveIsHas(c.cfg.value, route.pool); }
  }
}
