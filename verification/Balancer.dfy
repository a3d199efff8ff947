/** The weighted balancer with its full pool and one sub-pool for each tag
    (internal/balancer/balancer.go). */
module Balancing {
  import opened Common
  import opened Strategy
  import opened Interleaving
  import Text

  datatype Backend = Backend(name: string, url: string, weight: int, toolCall: bool, tags: seq<string>, apiKey: string)

  /** Explicit tags, trimmed and not empty, and "tool_call" when the flag is set. */
  function EffectiveTags(b: Backend): set<string> {
    (set t | t in b.tags && Text.TrimSpace(t) != "" :: Text.TrimSpace(t)) + (if b.toolCall then {"tool_call"} else {})
  }

  /** A backend belongs to the tag "tool_call" by its flag, to others by its list, read without
      white space around. */
  lemma TagsExactly(b: Backend, t: string)
    ensures t in EffectiveTags(b)
            <==> (b.toolCall && t == "tool_call") || (t != "" && exists x :: x in b.tags && Text.TrimSpace(x) == t)
  {}

  ghost predicate HasTag(b: Backend, t: string) {
    (b.toolCall && t == "tool_call") || (t != "" && exists x :: x in b.tags && Text.TrimSpace(x) == t)
  }

  // ----- Strategy objects -----

  /** The library's constructors. Three are given the weights, two only the sorted names. */
  datatype Library = Library(
    smooth: map<string, int> -> Stream,
    weightedRandom: map<string, int> -> Stream,
    roundRobin: seq<string> -> Stream,
    random: seq<string> -> Stream,
    weighted: map<string, int> -> Stream)

  ghost predicate LawfulByNames(kind: Kind, make: seq<string> -> Stream) {
    forall names: seq<string>, nodes: map<string, int> | NoDup(names) && Elements(names) == nodes.Keys :: Lawful(kind, nodes, make(names))
  }

  ghost predicate LawfulByWeights(kind: Kind, make: map<string, int> -> Stream) {
    forall nodes :: Lawful(kind, nodes, make(nodes))
  }

  ghost predicate LawfulLibrary(lib: Library) {
    && LawfulByWeights(Smooth, lib.smooth)
    && LawfulByWeights(WeightedRandom, lib.weightedRandom)
    && LawfulByNames(RoundRobin, lib.roundRobin)
    && LawfulByNames(Random, lib.random)
    && LawfulByWeights(Weighted, lib.weighted)
  }

  /** A library of reference strategies: the contract can be kept. */
  ghost function ReferenceLibrary(): Library {
    var smooth: map<string, int> -> Stream :=
      (nodes: map<string, int>) => SmoothDraw(SortedOf(nodes.Keys), WeightsOf(SortedOf(nodes.Keys), nodes));
    Library(smooth, smooth, RoundRobinDraw, RoundRobinDraw, smooth)
  }

  lemma {:induction false} ReferencesAreLawful()
    ensures LawfulLibrary(ReferenceLibrary())
  {
    var lib := ReferenceLibrary();
    forall nodes, kind ensures Lawful(kind, nodes, lib.smooth(nodes)) {
      SortedNoDup(SortedOf(nodes.Keys));
      SmoothLawful(kind, SortedOf(nodes.Keys), nodes);
    }
    forall names: seq<string>, nodes: map<string, int> | NoDup(names) && Elements(names) == nodes.Keys
      ensures Lawful(RoundRobin, nodes, lib.roundRobin(names)) && Lawful(Random, nodes, lib.random(names))
    {
      RoundRobinLawful(names, nodes);
    }
  }

  /** A strategy object: its nodes, the names it will return, how many it has returned. */
  datatype Pool = Pool(nodes: map<string, int>, draw: Stream, pos: nat)

  ghost function NewPool(lib: Library, kind: Kind, nodes: map<string, int>): Pool {
    Pool(nodes,
         match kind
         case Smooth => lib.smooth(nodes)
         case WeightedRandom => lib.weightedRandom(nodes)
         case RoundRobin => lib.roundRobin(SortedOf(nodes.Keys))
         case Random => lib.random(SortedOf(nodes.Keys))
         case Weighted => lib.weighted(nodes),
         0)
  }

  lemma NewPoolLawful(lib: Library, kind: Kind, nodes: map<string, int>)
    requires LawfulLibrary(lib)
    ensures Lawful(kind, nodes, NewPool(lib, kind, nodes).draw)
  {
    SortedNoDup(SortedOf(nodes.Keys));
  }

  // ----- A configuration list as maps -----

  /** The backends by name; a later entry replaces an earlier one of the same name. */
  function ByName(list: seq<Backend>): (m: map<string, Backend>)
    ensures forall n | n in m :: m[n] in list && m[n].name == n
    ensures forall b | b in list :: b.name in m
  {
    if list == [] then map[]
    else
      var b := list[|list| - 1];
      ByName(list[..|list| - 1])[b.name := b]
  }

  lemma ByNameNext(list: seq<Backend>, i: nat)
    requires i < |list|
    ensures ByName(list[..i + 1]) == ByName(list[..i])[list[i].name := list[i]]
    ensures Weights(ByName(list[..i + 1])) == Weights(ByName(list[..i]))[list[i].name := list[i].weight]
  {
    assert list[..i + 1][..i] == list[..i];
  }

  lemma ByTagNext(list: seq<Backend>, i: nat)
    requires i < |list|
    ensures ByTag(list[..i + 1]) == AddTags(ByTag(list[..i]), EffectiveTags(list[i]), list[i].name, list[i].weight)
  {
    assert list[..i + 1][..i] == list[..i];
  }

  function Weights(backends: map<string, Backend>): map<string, int> {
    map n | n in backends :: backends[n].weight
  }

  function NodesOf(m: map<string, map<string, int>>, tag: string): map<string, int> {
    if tag in m then m[tag] else map[]
  }

  function AddTags(m: map<string, map<string, int>>, tags: set<string>, name: string, weight: int)
    : map<string, map<string, int>>
  {
    map t | t in m.Keys + tags :: if t in tags then NodesOf(m, t)[name := weight] else m[t]
  }

  /** The nodes of each tag. */
  function ByTag(list: seq<Backend>): map<string, map<string, int>> {
    if list == [] then map[]
    else
      var b := list[|list| - 1];
      AddTags(ByTag(list[..|list| - 1]), EffectiveTags(b), b.name, b.weight)
  }

  ghost predicate Distinct(list: seq<Backend>) {
    forall i, j | 0 <= i < j < |list| :: list[i].name != list[j].name
  }

  lemma AddTagsNodes(m: map<string, map<string, int>>, tags: set<string>, name: string, weight: int, tag: string)
    ensures NodesOf(AddTags(m, tags, name, weight), tag)
            == if tag in tags then NodesOf(m, tag)[name := weight] else NodesOf(m, tag)
    ensures tag in AddTags(m, tags, name, weight) <==> tag in tags || tag in m
    ensures tag in tags ==> name in NodesOf(AddTags(m, tags, name, weight), tag)
  {}

  lemma LastIsNew(list: seq<Backend>)
    requires list != [] && Distinct(list)
    ensures list[|list| - 1].name !in ByName(list[..|list| - 1])
  {
    forall b | b in list[..|list| - 1] ensures b.name != list[|list| - 1].name {
      var i :| 0 <= i < |list| - 1 && list[i] == b;
    }
  }

  lemma {:induction false} TagPoolsHaveNodes(list: seq<Backend>, tag: string)
    ensures tag in ByTag(list) <==> NodesOf(ByTag(list), tag) != map[]
  {
    hide EffectiveTags, AddTags;
    if list != [] {
      var b := list[|list| - 1];
      TagPoolsHaveNodes(list[..|list| - 1], tag);
      AddTagsNodes(ByTag(list[..|list| - 1]), EffectiveTags(b), b.name, b.weight, tag);
    }
  }

  ghost predicate Carries(list: seq<Backend>, tag: string, n: string) {
    n in ByName(list) && tag in EffectiveTags(ByName(list)[n])
  }

  lemma ByNameLast(list: seq<Backend>)
    requires list != []
    ensures ByName(list) == ByName(list[..|list| - 1])[list[|list| - 1].name := list[|list| - 1]]
  {}

  /** With distinct names a backend is a node of a tag's pool exactly when it carries the tag,
      and then at its own weight. */
  lemma {:induction false} ByTagAt(list: seq<Backend>, tag: string, n: string)
    requires Distinct(list)
    ensures n in NodesOf(ByTag(list), tag) <==> Carries(list, tag, n)
    ensures Carries(list, tag, n) ==> NodesOf(ByTag(list), tag)[n] == ByName(list)[n].weight
  {
    hide EffectiveTags, AddTags, ByName;
    if list != [] {
      ByNameLast(list);
      var b := list[|list| - 1];
      var rest := list[..|list| - 1];
      ByTagAt(rest, tag, n);
      AddTagsNodes(ByTag(rest), EffectiveTags(b), b.name, b.weight, tag);
      LastIsNew(list);
    }
  }

  /** Of several entries of one name the last counts. */
  lemma {:induction false} LastCounts(list: seq<Backend>, i: nat)
    requires i < |list| && forall j | i < j < |list| :: list[j].name != list[i].name
    ensures list[i].name in ByName(list) && ByName(list)[list[i].name] == list[i]
  {
    hide ByName;
    var n := |list| - 1;
    ByNameLast(list);
    if i < n { LastCounts(list[..n], i); }
  }

  lemma {:induction false} NamedAlone(list: seq<Backend>, b: Backend)
    requires Distinct(list) && b in list
    ensures b.name in ByName(list) && ByName(list)[b.name] == b
  {
    hide ByName;
    var i :| 0 <= i < |list| && list[i] == b;
    LastCounts(list, i);
  }

  lemma {:induction false} PoolForTag(list: seq<Backend>, tag: string, n: string)
    requires Distinct(list)
    ensures n in NodesOf(ByTag(list), tag) <==> exists b :: b in list && b.name == n && HasTag(b, tag)
  {
    hide EffectiveTags, ByTag, ByName, Distinct, HasTag;
    ByTagAt(list, tag, n);
    forall b | b in list && b.name == n ensures Carries(list, tag, n) <==> HasTag(b, tag) {
      NamedAlone(list, b);
      EffectiveIsHas(b, tag);
    }
    if Carries(list, tag, n) { assert ByName(list)[n] in list; }
  }

  lemma EffectiveIsHas(b: Backend, t: string)
    ensures t in EffectiveTags(b) <==> HasTag(b, t)
  {
    hide EffectiveTags;
    TagsExactly(b, t);
  }

  /** So, on the configuration: name n is in the pool for a tag if and only if a backend of that
      name has the flag and the tag is "tool_call", or lists the tag. */
  lemma {:induction false} PoolForTagExactly(list: seq<Backend>, tag: string, n: string)
    requires Distinct(list)
    ensures n in NodesOf(ByTag(list), tag)
            <==> exists b :: b in list && b.name == n
                   && ((b.toolCall && tag == "tool_call") || (tag != "" && exists x :: x in b.tags && Text.TrimSpace(x) == tag))
  {
    hide ByTag, Distinct;
    PoolForTag(list, tag, n);
  }

  // ----- Selecting -----

  predicate Fits(backends: map<string, Backend>, exclude: set<string>, tag: Option<string>, name: string) {
    && name != "" && name !in exclude && name in backends
    && (tag.Some? ==> tag.value in EffectiveTags(backends[name]))
  }

  ghost function Tries(backends: map<string, Backend>): nat {
    if Total(Weights(backends)) > 0 then Total(Weights(backends)) else |backends|
  }

  /** Drawing from p at most n times yields r with the m-th own draw; others draw gaps[i] times
      before the i-th. */
  ghost predicate FirstFit(backends: map<string, Backend>, p: Pool, exclude: set<string>, tag: Option<string>,
                           gaps: seq<nat>, n: nat, m: nat, r: Option<Backend>, p': Pool)
  {
    && m <= n && p' == p.(pos := Next(p.pos, gaps, m)) && (r.None? ==> m == n)
    && (forall i: nat | i < m && (r.None? || i < m - 1) :: !Fits(backends, exclude, tag, p.draw(Own(p.pos, gaps, i))))
    && (r.Some? ==> m > 0 && Fits(backends, exclude, tag, p.draw(Own(p.pos, gaps, m - 1)))
                    && r.value == backends[p.draw(Own(p.pos, gaps, m - 1))])
  }

  /** What the balancer holds: the backends, the full pool, the pool of each tag. */
  datatype Pools = Pools(backends: map<string, Backend>, full: Pool, tagged: map<string, Pool>)

  /** updateBalancer, as a function of the list. */
  ghost function Rebuilt(lib: Library, kind: Kind, list: seq<Backend>): Pools {
    Pools(ByName(list), NewPool(lib, kind, Weights(ByName(list))),
          map t | t in ByTag(list) :: NewPool(lib, kind, ByTag(list)[t]))
  }

  /** v is what the list built, after some number of selections. */
  ghost predicate BuiltFrom(v: Pools, lib: Library, kind: Kind, list: seq<Backend>) {
    && v.backends == Rebuilt(lib, kind, list).backends
    && v.full.(pos := 0) == Rebuilt(lib, kind, list).full
    && v.tagged.Keys == Rebuilt(lib, kind, list).tagged.Keys
    && forall t | t in v.tagged :: v.tagged[t].(pos := 0) == Rebuilt(lib, kind, list).tagged[t]
  }

  lemma RebuiltIsBuilt(lib: Library, kind: Kind, list: seq<Backend>)
    ensures BuiltFrom(Rebuilt(lib, kind, list), lib, kind, list)
  {}

  /** A name is in the pool for a tag exactly when a backend of that name has the tag. */
  ghost predicate TagsServed(v: Pools, list: seq<Backend>) {
    forall t, n :: ServedAt(v, list, t, n)
  }

  ghost predicate ServedAt(v: Pools, list: seq<Backend>, t: string, n: string) {
    (t in v.tagged && n in v.tagged[t].nodes) <==> exists b :: b in list && b.name == n && HasTag(b, t)
  }

  ghost predicate LastOfName(list: seq<Backend>, i: nat)
    requires i < |list|
  {
    forall j | i < j < |list| :: list[j].name != list[i].name
  }

  /** What an update gives, on the configuration. */
  lemma {:induction false} RebuiltTags(lib: Library, kind: Kind, list: seq<Backend>)
    requires Distinct(list)
    ensures TagsServed(Rebuilt(lib, kind, list), list)
  {
    hide Distinct, HasTag, ByTag, NewPool;
    var v := Rebuilt(lib, kind, list);
    forall t, n ensures ServedAt(v, list, t, n) {
      PoolForTag(list, t, n);
      TagNodes(list, t, n);
      if t in ByTag(list) { NewPoolShape(lib, kind, ByTag(list)[t]); }
    }
  }

  lemma TagNodes(list: seq<Backend>, t: string, n: string)
    ensures n in NodesOf(ByTag(list), t) <==> t in ByTag(list) && n in ByTag(list)[t]
  {
    hide ByTag;
  }

  lemma {:induction false} RebuiltNodes(lib: Library, kind: Kind, list: seq<Backend>, i: nat)
    requires i < |list| && LastOfName(list, i)
    ensures var n, v := list[i].name, Rebuilt(lib, kind, list);
            n in v.backends && v.backends[n] == list[i] && n in v.full.nodes && v.full.nodes[n] == list[i].weight
  {
    hide ByName, ByTag;
    LastCounts(list, i);
  }

  lemma BuiltBackends(v: Pools, lib: Library, kind: Kind, list: seq<Backend>)
    requires BuiltFrom(v, lib, kind, list)
    ensures v.backends == ByName(list)
  {}

  ghost function PoolFor(v: Pools, tag: Option<string>): Option<Pool> {
    match tag
    case None => Some(v.full)
    case Some(t) => if t in v.tagged then Some(v.tagged[t]) else None
  }

  /** The names a request routed to tag (or to the full pool) may be sent to. */
  ghost function Members(list: seq<Backend>, tag: Option<string>): set<string> {
    set n | n in ByName(list) && (tag.None? || tag.value in EffectiveTags(ByName(list)[n]))
  }

  /** The assumptions of the completeness claims: distinct non-empty names, weights of at least 1. */
  ghost predicate WellConfigured(list: seq<Backend>) {
    Distinct(list) && forall b | b in list :: b.name != "" && b.weight >= 1
  }

  ghost function NodesFor(list: seq<Backend>, tag: Option<string>): map<string, int> {
    match tag
    case None => Weights(ByName(list))
    case Some(t) => NodesOf(ByTag(list), t)
  }

  /** The nodes a pool is made of are its members, and weigh no more than the try limit. */
  lemma {:induction false} NodesAreMembers(list: seq<Backend>, tag: Option<string>)
    requires Distinct(list)
    ensures NodesFor(list, tag).Keys == Members(list, tag)
    ensures WellConfigured(list) && NodesFor(list, tag) != map[] ==> Weighty(NodesFor(list, tag))
    ensures WellConfigured(list) ==> Total(NodesFor(list, tag)) <= Tries(ByName(list))
  {
    hide EffectiveTags, ByTag, Total;
    if tag.Some? {
      forall n ensures n in NodesFor(list, tag) <==> Carries(list, tag.value, n)
               ensures Carries(list, tag.value, n) ==> NodesFor(list, tag)[n] == ByName(list)[n].weight
      {
        ByTagAt(list, tag.value, n);
      }
      TotalWithin(NodesFor(list, tag), Weights(ByName(list)));
    }
  }

  /** A pool exists exactly when it has a member, or is the full one; it is a lawful strategy
      over its members; its cycle is within the try limit. */
  lemma {:induction false} PoolOfMembers(v: Pools, lib: Library, kind: Kind, list: seq<Backend>, tag: Option<string>)
    requires LawfulLibrary(lib) && Distinct(list) && BuiltFrom(v, lib, kind, list)
    ensures PoolFor(v, tag).None? <==> tag.Some? && Members(list, tag) == {}
    ensures PoolFor(v, tag).Some? ==>
              var p := PoolFor(v, tag).value;
              && p.nodes.Keys == Members(list, tag)
              && Lawful(kind, p.nodes, p.draw)
              && (WellConfigured(list) && p.nodes != map[] ==> Weighty(p.nodes))
              && (WellConfigured(list) ==> Total(p.nodes) <= Tries(v.backends))
  {
    hide EffectiveTags, ByTag, Total, Lawful, NewPool, Members, Tries, ByName, Weighty, WellConfigured, Distinct;
    var nodes := NodesFor(list, tag);
    NodesAreMembers(list, tag);
    NewPoolLawful(lib, kind, nodes);
    if tag.Some? { TagPoolsHaveNodes(list, tag.value); }
    if PoolFor(v, tag).Some? {
      assert PoolFor(v, tag).value.(pos := 0) == NewPool(lib, kind, nodes);
      NewPoolShape(lib, kind, nodes);
    }
  }

  /** What one draw from the pool for tag selects. */
  ghost function Drawn(v: Pools, tag: Option<string>): Option<Backend> {
    match PoolFor(v, tag)
    case None => None
    case Some(p) =>
      if p.draw(p.pos) != "" && p.draw(p.pos) in v.backends then Some(v.backends[p.draw(p.pos)]) else None
  }

  /** With distinct names a plain selection gives a member of the pool; with weights of at least
      1 it gives none only if there is none. */
  lemma {:induction false} DrawnIsMember(v: Pools, lib: Library, kind: Kind, list: seq<Backend>, tag: Option<string>)
    requires LawfulLibrary(lib) && Distinct(list) && BuiltFrom(v, lib, kind, list)
    ensures Drawn(v, tag).Some? ==> Drawn(v, tag).value.name in Members(list, tag)
    ensures WellConfigured(list) ==> (Drawn(v, tag).None? <==> Members(list, tag) == {})
  {
    hide EffectiveTags, ByTag, Total, NewPool, Tries, LawfulLibrary, Distinct, BuiltFrom, Weights, Covers, Members, WellConfigured;
    PoolOfMembers(v, lib, kind, list, tag);
    BuiltBackends(v, lib, kind, list);
    MembersAmong(list, tag);
  }

  /** A member carries the tag, by its flag or in its list. */
  lemma MemberIsTagged(list: seq<Backend>, tag: Option<string>, b: Backend)
    requires b.name in Members(list, tag) && b == ByName(list)[b.name]
    ensures b in list
    ensures tag.Some? ==> HasTag(b, tag.value)
  {
    hide EffectiveTags, ByName, HasTag;
    if tag.Some? { EffectiveIsHas(b, tag.value); }
  }

  lemma DrawnIsTagged(v: Pools, lib: Library, kind: Kind, list: seq<Backend>, tag: Option<string>)
    requires LawfulLibrary(lib) && Distinct(list) && BuiltFrom(v, lib, kind, list)
    ensures var r := Drawn(v, tag);
            r.Some? ==> r.value in list && (tag.Some? ==> HasTag(r.value, tag.value))
  {
    hide HasTag, EffectiveTags, LawfulLibrary, NewPool, Distinct, ByTag, Members, WellConfigured;
    DrawnIsMember(v, lib, kind, list, tag);
    BuiltBackends(v, lib, kind, list);
    if Drawn(v, tag).Some? { MemberIsTagged(list, tag, Drawn(v, tag).value); }
  }

  lemma NewPoolShape(lib: Library, kind: Kind, nodes: map<string, int>)
    ensures NewPool(lib, kind, nodes).nodes == nodes && NewPool(lib, kind, nodes).pos == 0
  {}

  /** Against any f draws of others within a call, from where v's pool stands, selectExcluding
      finds nothing only when every member of the pool is excluded. */
  ghost predicate FindsMembers(v: Pools, list: seq<Backend>, tag: Option<string>, f: nat)
    requires PoolFor(v, tag).Some?
  {
    forall gaps, exclude, m, r, p' |
      Foreign(gaps, Tries(v.backends)) <= f
      && FirstFit(v.backends, PoolFor(v, tag).value, exclude, tag, gaps, Tries(v.backends), m, r, p') ::
      r.None? <==> Members(list, tag) <= exclude
  }

  /** One direction, for given draws of others. */
  lemma {:induction false} NothingLeft(v: Pools, lib: Library, kind: Kind, list: seq<Backend>, tag: Option<string>, f: nat,
                                       gaps: seq<nat>, exclude: set<string>, m: nat, r: Option<Backend>, p': Pool)
    requires LawfulLibrary(lib) && WellConfigured(list) && BuiltFrom(v, lib, kind, list) && PoolFor(v, tag).Some?
    requires Comes(PoolFor(v, tag).value.draw, Members(list, tag), PoolFor(v, tag).value.pos, Tries(v.backends), f)
    requires Foreign(gaps, Tries(v.backends)) <= f
    requires FirstFit(v.backends, PoolFor(v, tag).value, exclude, tag, gaps, Tries(v.backends), m, r, p')
    ensures r.None? <==> Members(list, tag) <= exclude
  {
    hide EffectiveTags, Tries, LawfulLibrary, BuiltFrom, WellConfigured, Foreign, Next, Own, Count, Fits, FirstFit, Members,
         PoolFor, Survives, DrawnBy;
    BuiltBackends(v, lib, kind, list);
    var p := PoolFor(v, tag).value;
    FitIsMember(v, lib, kind, list, tag, p, exclude, gaps, m, r, p');
    if r.None? {
      forall name | name in Members(list, tag) ensures name in exclude {
        SurvivesExactly(p.draw, name, p.pos, Tries(v.backends), f);
        NoneFits(v.backends, list, p, exclude, tag, gaps, Tries(v.backends), m, p', name, f);
      }
    }
  }

  /** When nothing was found, a member the draws met is excluded. */
  lemma NoneFits(backends: map<string, Backend>, list: seq<Backend>, p: Pool, exclude: set<string>, tag: Option<string>,
                 gaps: seq<nat>, n: nat, m: nat, p': Pool, name: string, f: nat)
    requires backends == ByName(list) && FirstFit(backends, p, exclude, tag, gaps, n, m, None, p')
    requires WellConfigured(list) && name in Members(list, tag)
    requires Survives(p.draw, name, p.pos, n, f) && Foreign(gaps, n) <= f
    ensures name in exclude
  {
    hide EffectiveTags, Foreign, Next, Own;
    var i: nat :| i < n && p.draw(Own(p.pos, gaps, i)) == name;
    assert !Fits(backends, exclude, tag, p.draw(Own(p.pos, gaps, i)));
  }

  /** Under any strategy selectExcluding is right against f draws of others in a call exactly when
      every member comes more than f times in the next Tries + f draws. */
  lemma {:induction false} NothingLeftExactly(v: Pools, lib: Library, kind: Kind, list: seq<Backend>, tag: Option<string>, f: nat)
    requires LawfulLibrary(lib) && WellConfigured(list) && BuiltFrom(v, lib, kind, list) && PoolFor(v, tag).Some?
    ensures FindsMembers(v, list, tag, f)
            <==> Comes(PoolFor(v, tag).value.draw, Members(list, tag), PoolFor(v, tag).value.pos, Tries(v.backends), f)
  {
    hide Tries, LawfulLibrary, BuiltFrom, WellConfigured, Foreign, Next, Own, Count, Fits, FirstFit, Members, Survives;
    var p, n := PoolFor(v, tag).value, Tries(v.backends);
    if Comes(p.draw, Members(list, tag), p.pos, n, f) {
      forall gaps, exclude, m, r, p' | Foreign(gaps, n) <= f && FirstFit(v.backends, p, exclude, tag, gaps, n, m, r, p')
        ensures r.None? <==> Members(list, tag) <= exclude
      {
        NothingLeft(v, lib, kind, list, tag, f, gaps, exclude, m, r, p');
      }
    } else {
      var name :| name in Members(list, tag) && Count(p.draw, name, p.pos, n + f) <= f;
      var gaps := Dodge(p.draw, name, p.pos, n, f);
      var exclude := Members(list, tag) - {name};
      BuiltBackends(v, lib, kind, list);
      AllMissed(v.backends, p, exclude, tag, gaps, n, name, list);
    }
  }

  /** Draws that miss the only member left find nothing. */
  lemma AllMissed(backends: map<string, Backend>, p: Pool, exclude: set<string>, tag: Option<string>, gaps: seq<nat>,
                  n: nat, name: string, list: seq<Backend>)
    requires backends == ByName(list) && exclude == Members(list, tag) - {name}
    requires !DrawnBy(p.draw, name, p.pos, gaps, n)
    ensures FirstFit(backends, p, exclude, tag, gaps, n, n, None, p.(pos := Next(p.pos, gaps, n)))
  {
    hide EffectiveTags, Next, Own;
    forall i: nat | i < n ensures !Fits(backends, exclude, tag, p.draw(Own(p.pos, gaps, i))) {
      assert p.draw(Own(p.pos, gaps, i)) != name;
    }
  }

  // ----- Which strategies bear draws of others -----

  /** From every position every member of the pool comes more than f times in Tries + f draws. */
  ghost predicate Robust(lib: Library, kind: Kind, list: seq<Backend>, tag: Option<string>, f: nat) {
    forall pos: nat ::
      Comes(NewPool(lib, kind, NodesFor(list, tag)).draw, Members(list, tag), pos, Tries(ByName(list)), f)
  }

  /** A cyclic strategy, as long as nobody draws in between: the try limit is a full cycle. */
  lemma {:induction false} CyclicIsRobust(lib: Library, kind: Kind, list: seq<Backend>, tag: Option<string>)
    requires LawfulLibrary(lib) && WellConfigured(list) && Cyclic(kind)
    ensures Robust(lib, kind, list, tag, 0)
  {
    hide EffectiveTags, ByTag, Total, NewPool, LawfulLibrary, Tries, Count, Distinct, Weighty;
    var nodes, n := NodesFor(list, tag), Tries(ByName(list));
    var draw := NewPool(lib, kind, nodes).draw;
    WellConfiguredIsDistinct(list);
    NodesAreMembers(list, tag);
    NewPoolLawful(lib, kind, nodes);
    forall pos: nat ensures Comes(draw, Members(list, tag), pos, n, 0) {
      forall name | name in Members(list, tag) ensures Count(draw, name, pos, n + 0) > 0 {
        assert name in nodes;
        assert DrawnWithin(draw, name, pos, Total(nodes));
        assert DrawnWithin(draw, name, pos, n);
        CountPositive(draw, name, pos, n);
      }
    }
  }

  /** Round-robin over n members exactly when the full rounds in Tries + f draws are more than f. */
  lemma {:induction false} RoundRobinIsRobustExactly(lib: Library, list: seq<Backend>, tag: Option<string>, f: nat)
    requires forall names :: lib.roundRobin(names) == RoundRobinDraw(names)
    requires Distinct(list) && Members(list, tag) != {}
    ensures Robust(lib, RoundRobin, list, tag, f) <==> (Tries(ByName(list)) + f) / |Members(list, tag)| > f
  {
    hide EffectiveTags, ByTag, Total, Tries, Distinct, Members, Comes, ByName, RoundRobinDraw;
    var members, n := Members(list, tag), Tries(ByName(list));
    NodesAreMembers(list, tag);
    var names := SortedOf(members);
    SortedNoDup(names);
    var draw := NewPool(lib, RoundRobin, NodesFor(list, tag)).draw;
    assert draw == RoundRobinDraw(names);
    forall pos: nat ensures Comes(draw, members, pos, n, f) <==> (n + f) / |members| > f {
      RoundRobinComesExactly(names, members, pos, n, f);
    }
    assert Robust(lib, RoundRobin, list, tag, f) ==> Comes(draw, members, 0, n, f);
  }

  lemma RoundRobinPool(v: Pools, lib: Library, list: seq<Backend>, tag: Option<string>)
    requires forall names :: lib.roundRobin(names) == RoundRobinDraw(names)
    requires Distinct(list) && BuiltFrom(v, lib, RoundRobin, list) && PoolFor(v, tag).Some?
    ensures PoolFor(v, tag).value.draw == RoundRobinDraw(SortedOf(Members(list, tag)))
  {
    hide ByTag, RoundRobinDraw, Distinct, Members;
    NodesAreMembers(list, tag);
    assert PoolFor(v, tag).value.(pos := 0) == NewPool(lib, RoundRobin, NodesFor(list, tag));
  }

  /** So under round-robin selectExcluding is right against f draws of others in a call if and
      only if the full rounds in Tries + f draws are more than f. */
  lemma {:induction false} RoundRobinFindsExactly(v: Pools, lib: Library, list: seq<Backend>, tag: Option<string>, f: nat)
    requires LawfulLibrary(lib) && forall names :: lib.roundRobin(names) == RoundRobinDraw(names)
    requires WellConfigured(list) && BuiltFrom(v, lib, RoundRobin, list) && PoolFor(v, tag).Some?
    requires Members(list, tag) != {}
    ensures FindsMembers(v, list, tag, f) <==> (Tries(ByName(list)) + f) / |Members(list, tag)| > f
  {
    hide LawfulLibrary, RoundRobinDraw, BuiltFrom, PoolFor, Members, FindsMembers, Comes, Tries, WellConfigured, Distinct;
    WellConfiguredIsDistinct(list);
    BuiltBackends(v, lib, RoundRobin, list);
    NothingLeftExactly(v, lib, RoundRobin, list, tag, f);
    RoundRobinPoolComes(v, lib, list, tag, Tries(ByName(list)), f);
  }

  lemma RoundRobinPoolComes(v: Pools, lib: Library, list: seq<Backend>, tag: Option<string>, n: nat, f: nat)
    requires forall names :: lib.roundRobin(names) == RoundRobinDraw(names)
    requires Distinct(list) && BuiltFrom(v, lib, RoundRobin, list) && PoolFor(v, tag).Some? && Members(list, tag) != {}
    ensures Comes(PoolFor(v, tag).value.draw, Members(list, tag), PoolFor(v, tag).value.pos, n, f)
            <==> (n + f) / |Members(list, tag)| > f
  {
    hide RoundRobinDraw, BuiltFrom, PoolFor, Members, Comes, Distinct;
    var names := SortedOf(Members(list, tag));
    RoundRobinPool(v, lib, list, tag);
    SortedNoDup(names);
    RoundRobinComesExactly(names, Members(list, tag), PoolFor(v, tag).value.pos, n, f);
  }

  lemma {:induction false} TotalOfOnes(nodes: map<string, int>)
    requires forall k | k in nodes :: nodes[k] == 1
    ensures Total(nodes) == |nodes|
  {
    if nodes == map[] {
      TotalOfNone();
    } else {
      var k :| k in nodes;
      TotalTake(nodes, k);
      TotalOfOnes(nodes - {k});
      assert nodes.Keys == (nodes - {k}).Keys + {k};
      assert |nodes.Keys| == |(nodes - {k}).Keys| + 1;
    }
  }

  /** With two or more backends, all of the default weight 1, no draw of others is harmless. */
  lemma {:induction false} DefaultWeightsFindExactly(v: Pools, lib: Library, list: seq<Backend>, f: nat)
    requires LawfulLibrary(lib) && forall names :: lib.roundRobin(names) == RoundRobinDraw(names)
    requires WellConfigured(list) && BuiltFrom(v, lib, RoundRobin, list)
    requires |Members(list, None)| >= 2 && forall b | b in list :: b.weight == 1
    ensures FindsMembers(v, list, None, f) <==> f == 0
  {
    hide LawfulLibrary, RoundRobinDraw, BuiltFrom, FindsMembers, WellConfigured, Tries, Members;
    OnesAreTries(list);
    RoundRobinFindsExactly(v, lib, list, None, f);
    OneRound(|Members(list, None)|, f);
  }

  lemma OnesAreTries(list: seq<Backend>)
    requires Members(list, None) != {} && forall b | b in list :: b.weight == 1
    ensures Tries(ByName(list)) == |Members(list, None)|
  {
    hide Total;
    var w := Weights(ByName(list));
    TotalOfOnes(w);
    assert Members(list, None) == w.Keys && |w| == |w.Keys|;
  }

  /** Smooth weighted round-robin against fewer draws of others than any member weighs. */
  lemma {:induction false} SmoothIsRobust(lib: Library, list: seq<Backend>, tag: Option<string>, f: nat)
    requires forall nodes :: lib.smooth(nodes) == SmoothDraw(SortedOf(nodes.Keys), WeightsOf(SortedOf(nodes.Keys), nodes))
    requires WellConfigured(list) && forall n | n in Members(list, tag) :: f < ByName(list)[n].weight
    ensures Robust(lib, Smooth, list, tag, f)
  {
    hide EffectiveTags, ByTag, Total, Tries, Distinct, Members, Comes, ByName, SmoothDraw, Weighty;
    var members, n, nodes := Members(list, tag), Tries(ByName(list)), NodesFor(list, tag);
    WellConfiguredIsDistinct(list);
    NodesAreMembers(list, tag);
    NodeWeights(list, tag);
    forall pos: nat ensures Comes(NewPool(lib, Smooth, nodes).draw, members, pos, n, f) {
      SmoothComes(nodes, pos, n, f);
    }
  }

  lemma NodeWeights(list: seq<Backend>, tag: Option<string>)
    requires Distinct(list)
    ensures forall n | n in NodesFor(list, tag) :: n in ByName(list) && NodesFor(list, tag)[n] == ByName(list)[n].weight
  {
    hide EffectiveTags, ByTag;
    if tag.Some? {
      forall n | n in NodesFor(list, tag)
        ensures n in ByName(list) && NodesFor(list, tag)[n] == ByName(list)[n].weight
      {
        ByTagAt(list, tag.value, n);
      }
    }
  }

  lemma {:induction false} SmoothComes(nodes: map<string, int>, pos: nat, n: nat, f: nat)
    requires Total(nodes) <= n && forall k | k in nodes :: f < nodes[k]
    ensures Comes(SmoothDraw(SortedOf(nodes.Keys), WeightsOf(SortedOf(nodes.Keys), nodes)), nodes.Keys, pos, n, f)
  {
    hide Count, Survives, SmoothDraw;
    var names := SortedOf(nodes.Keys);
    var w := WeightsOf(names, nodes);
    SortedNoDup(names);
    SumIsTotal(names, nodes);
    forall k | k in nodes ensures Count(SmoothDraw(names, w), k, pos, n + f) > f {
      assert k in Elements(names);
      var j :| 0 <= j < |names| && names[j] == k;
      TotalTake(nodes, k);
      assert forall i | 0 <= i < |w| :: names[i] in Elements(names);
      SmoothSurvives(names, w, j, pos, n, f);
      SurvivesExactly(SmoothDraw(names, w), k, pos, n, f);
    }
  }

  // ----- A member lost -----

  lemma TwoNames()
    ensures SortedOf({"a", "b"}) == ["a", "b"]
  {
    var names := ["a", "b"];
    assert Text.Before("a", "b");
    assert Elements(names) == {"a", "b"};
    SortedUnique(names, SortedOf({"a", "b"}));
  }

  const TWO: seq<Backend> := [Backend("a", "http://a", 1, false, [], ""), Backend("b", "http://b", 1, false, [], "")]

  lemma TwoByName()
    ensures ByName(TWO) == map["a" := TWO[0], "b" := TWO[1]] && WellConfigured(TWO)
    ensures Members(TWO, None) == {"a", "b"} && Tries(ByName(TWO)) == 2
  {
    hide Total;
    assert TWO[..1] == [TWO[0]] && TWO[..1][..0] == [];
    var w := Weights(ByName(TWO));
    TotalTake(w, "a");
    TotalTake(w - {"a"}, "b");
    assert w - {"a"} - {"b"} == map[];
    TotalOfNone();
  }

  lemma TotalOfNone()
    ensures Total(map[]) == 0
  {}

  lemma TwoGaps(gaps: seq<nat>)
    requires gaps == [0, 1]
    ensures Own(0, gaps, 0) == 0 && Own(0, gaps, 1) == 2 && Next(0, gaps, 2) == 3 && Foreign(gaps, 2) == 1
  {
    assert Next(0, gaps, 1) == 1 && Foreign(gaps, 1) == 0;
  }

  lemma FirstTwice(names: seq<string>)
    requires |names| == 2
    ensures RoundRobinDraw(names)(0) == names[0] && RoundRobinDraw(names)(2) == names[0]
  {}

  /** Nothing is found in draws 0 and 2 of a, b, a. */
  lemma LostInTwo(backends: map<string, Backend>, p: Pool, gaps: seq<nat>)
    requires gaps == [0, 1] && p.pos == 0 && p.draw(0) == "a" && p.draw(2) == "a"
    ensures FirstFit(backends, p, {"a"}, None, gaps, 2, 2, None, p.(pos := 3))
  {
    hide EffectiveTags, Next, Own, Foreign;
    TwoGaps(gaps);
    forall i: nat | i < 2 ensures !Fits(backends, {"a"}, None, p.draw(Own(p.pos, gaps, i))) {
      assert i == 0 || i == 1;
    }
  }

  /** Two backends of weight 1 in round-robin, the first excluded: one draw of another request
      between the two draws takes the second away, and the call finds nothing. */
  lemma {:induction false} OneForeignDrawLosesMember(gaps: seq<nat>)
    requires gaps == [0, 1]
    ensures var lib := ReferenceLibrary();
            var v := Rebuilt(lib, RoundRobin, TWO);
            && LawfulLibrary(lib) && WellConfigured(TWO) && BuiltFrom(v, lib, RoundRobin, TWO)
            && Foreign(gaps, Tries(v.backends)) == 1
            && FirstFit(v.backends, v.full, {"a"}, None, gaps, Tries(v.backends), 2, None, v.full.(pos := 3))
            && Members(TWO, None) - {"a"} == {"b"}
  {
    hide Total, EffectiveTags, Tries, Members, LawfulLibrary, WellConfigured, ByTag, FirstFit, Foreign, BuiltFrom, Next, Own,
         RoundRobinDraw, SmoothDraw, ByName, TWO;
    var lib := ReferenceLibrary();
    var v := Rebuilt(lib, RoundRobin, TWO);
    ReferencesAreLawful();
    RebuiltIsBuilt(lib, RoundRobin, TWO);
    TwoByName();
    TwoNames();
    TwoGaps(gaps);
    assert Weights(ByName(TWO)).Keys == {"a", "b"};
    FirstTwice(["a", "b"]);
    LostInTwo(v.backends, v.full, gaps);
  }

  /** A fitting backend is a member that is not excluded. */
  lemma FitIsMember(v: Pools, lib: Library, kind: Kind, list: seq<Backend>, tag: Option<string>, p: Pool,
                    exclude: set<string>, gaps: seq<nat>, m: nat, r: Option<Backend>, p': Pool)
    requires BuiltFrom(v, lib, kind, list)
    requires FirstFit(v.backends, p, exclude, tag, gaps, Tries(v.backends), m, r, p')
    ensures r.Some? ==> r.value.name in Members(list, tag) && r.value.name !in exclude
                        && r.value == ByName(list)[r.value.name]
  {
    hide EffectiveTags, NewPool, Tries, ByTag;
  }

  lemma MovedOn(v: Pools, lib: Library, kind: Kind, list: seq<Backend>, tag: Option<string>, pos: nat)
    requires BuiltFrom(v, lib, kind, list) && PoolFor(v, tag).Some?
    ensures BuiltFrom(WithPool(v, tag, PoolFor(v, tag).value.(pos := pos)), lib, kind, list)
  {
    hide NewPool, ByTag, ByName;
  }

  lemma FitMovesOn(backends: map<string, Backend>, p: Pool, exclude: set<string>, tag: Option<string>, gaps: seq<nat>,
                   m: nat, r: Option<Backend>, p': Pool)
    requires FirstFit(backends, p, exclude, tag, gaps, Tries(backends), m, r, p')
    ensures p' == p.(pos := p'.pos)
  {}

  /** The strategy of the configuration is the library's of that meaning. */
  ghost predicate Follows(p: Pool, lib: Library, strategy: string) {
    var sorted := SortedOf(p.nodes.Keys);
    && (strategy == "swrr" ==> p.draw == lib.smooth(p.nodes))
    && (strategy == "wr" ==> p.draw == lib.weightedRandom(p.nodes))
    && (strategy == "rr" ==> p.draw == lib.roundRobin(sorted))
    && (strategy == "random" ==> p.draw == lib.random(sorted))
    && (strategy !in ["swrr", "wr", "rr", "random"] ==> p.draw == lib.weighted(p.nodes))
  }

  lemma NewPoolFollows(lib: Library, strategy: string, nodes: map<string, int>)
    ensures Follows(NewPool(lib, KindOf(strategy), nodes), lib, strategy)
  {}

  // ----- The balancer -----

  class Balancer {
    const lib: Library
    const kind: Kind
    var backends: map<string, Backend>
    var bal: Pool
    var pools: map<string, Pool>
    ghost var list: seq<Backend> // the configuration the last update was given

    /** Kept by every method: the pools are those of the last update, some selections later. */
    ghost predicate Valid()
      reads this
    {
      BuiltFrom(View(), lib, kind, list)
    }

    ghost function View(): Pools
      reads this
    {
      Pools(backends, bal, pools)
    }

    constructor (lib: Library, list: seq<Backend>, strategy: string)
      ensures this.lib == lib && kind == KindOf(strategy) && View() == Rebuilt(lib, kind, list)
      ensures Follows(bal, lib, strategy) && forall t | t in pools :: Follows(pools[t], lib, strategy)
      ensures Valid() && this.list == list
    {
      this.lib, kind := lib, KindOf(strategy);
      backends, bal, pools := map[], Pool(map[], RoundRobinDraw([]), 0), map[];
      new;
      Update(list);
      hide Follows, NewPool, KindOf, Distinct, TagsServed, LastOfName, ByTag, ByName;
      forall nodes { NewPoolFollows(lib, strategy, nodes); }
    }

    /** newStrategyBalancer */
    method NewStrategyBalancer(nodes: map<string, int>) returns (p: Pool)
      ensures p == NewPool(lib, kind, nodes)
    {
      match kind
      case Smooth => p := Pool(nodes, lib.smooth(nodes), 0);
      case WeightedRandom => p := Pool(nodes, lib.weightedRandom(nodes), 0);
      case RoundRobin =>
        var names := SortedNames(nodes);
        SortedUnique(names, SortedOf(nodes.Keys));
        p := Pool(nodes, lib.roundRobin(names), 0);
      case Random =>
        var names := SortedNames(nodes);
        SortedUnique(names, SortedOf(nodes.Keys));
        p := Pool(nodes, lib.random(names), 0);
      case Weighted => p := Pool(nodes, lib.weighted(nodes), 0);
    }

    /** The inner loop of updateBalancer: a backend joins the nodes of each of its tags. */
    method JoinTags(before: map<string, map<string, int>>, tags: set<string>, name: string, weight: int)
      returns (tagNodes: map<string, map<string, int>>)
      ensures tagNodes == AddTags(before, tags, name, weight)
    {
      tagNodes := before;
      var rest := tags;
      while rest != {}
        invariant rest <= tags && tagNodes == AddTags(before, tags - rest, name, weight)
      {
        var tag :| tag in rest;
        AddTagsNodes(before, tags - rest, name, weight, tag);
        tagNodes := tagNodes[tag := NodesOf(tagNodes, tag)[name := weight]];
        rest := rest - {tag};
      }
      assert tags - rest == tags;
    }

    method NewPools(tagNodes: map<string, map<string, int>>) returns (ps: map<string, Pool>)
      ensures ps == map t | t in tagNodes :: NewPool(lib, kind, tagNodes[t])
    {
      ps := map[];
      var rest := tagNodes.Keys;
      while rest != {}
        invariant rest <= tagNodes.Keys
        invariant ps == map t | t in tagNodes.Keys - rest :: NewPool(lib, kind, tagNodes[t])
      {
        var tag :| tag in rest;
        var p := NewStrategyBalancer(tagNodes[tag]);
        ps := ps[tag := p];
        rest := rest - {tag};
      }
    }

    /** updateBalancer */
    method Update(list: seq<Backend>)
      modifies this
      ensures View() == Rebuilt(lib, kind, list) && Valid() && this.list == list
      ensures Distinct(list) ==> TagsServed(View(), list)
      ensures forall i | 0 <= i < |list| && LastOfName(list, i) ::
                list[i].name in backends && backends[list[i].name] == list[i]
                && list[i].name in bal.nodes && bal.nodes[list[i].name] == list[i].weight
    {
      backends := map[];
      var wNodes: map<string, int> := map[];
      var tagNodes: map<string, map<string, int>> := map[];
      assert backends == ByName(list[..0]) && wNodes == Weights(backends) && tagNodes == ByTag(list[..0]);
      hide AddTags, EffectiveTags, NewPool, ByName, ByTag, Weights, HasTag, TagsServed, Distinct, LastOfName, BuiltFrom;
      for i := 0 to |list|
        invariant backends == ByName(list[..i]) && wNodes == Weights(ByName(list[..i])) && tagNodes == ByTag(list[..i])
      {
        var b := list[i];
        ByNameNext(list, i);
        ByTagNext(list, i);
        backends := backends[b.name := b];
        wNodes := wNodes[b.name := b.weight];
        tagNodes := JoinTags(tagNodes, EffectiveTags(b), b.name, b.weight);
      }
      assert list[..|list|] == list;
      bal := NewStrategyBalancer(wNodes);
      pools := NewPools(tagNodes);
      this.list := list;
      assert View() == Rebuilt(lib, kind, list);
      RebuiltIsBuilt(lib, kind, list);
      if Distinct(list) { RebuiltTags(lib, kind, list); }
      forall i | 0 <= i < |list| && LastOfName(list, i) { RebuiltNodes(lib, kind, list, i); }
    }

    /** selectFrom the full pool (no tag) or the tag's: one draw, whatever it gives. */
    method SelectFrom(tag: Option<string>) returns (r: Option<Backend>)
      modifies this`bal, this`pools
      ensures r == Drawn(old(View()), tag)
      ensures View() == match PoolFor(old(View()), tag)
                        case None => old(View())
                        case Some(p) => WithPool(old(View()), tag, p.(pos := p.pos + 1))
      ensures tag.None? && r.Some? ==> r.value == backends[old(bal.draw(bal.pos))]
      ensures tag.None? ==> pools == old(pools) && bal == old(bal).(pos := old(bal).pos + 1)
      ensures tag.Some? && r.Some? ==> tag.value in old(pools) && r.value == backends[old(pools)[tag.value].draw(old(pools)[tag.value].pos)]
      ensures tag.Some? && tag.value in old(pools) ==>
                bal == old(bal) && pools == old(pools)[tag.value := old(pools)[tag.value].(pos := old(pools)[tag.value].pos + 1)]
      ensures old(Valid()) ==> Valid()
    {
      if tag.Some? && tag.value !in pools { return None; }
      var p := if tag.None? then bal else pools[tag.value];
      var name := p.draw(p.pos);
      p := p.(pos := p.pos + 1);
      if tag.None? { bal := p; } else { pools := pools[tag.value := p]; }
      if name == "" { return None; }
      return if name in backends then Some(backends[name]) else None;
    }

    /** The try limit: the sum of the positive weights of all backends. */
    method MaxTries() returns (n: nat)
      ensures n == Tries(backends)
      ensures Total(Weights(backends)) > 0 ==> n == Total(Weights(backends))
      ensures Total(Weights(backends)) <= 0 ==> n == |backends|
    {
      n := 0;
      var rest := backends;
      while rest != map[]
        invariant n + Total(Weights(rest)) == Total(Weights(backends))
        decreases |rest|
      {
        var name :| name in rest;
        TotalTake(Weights(rest), name);
        assert Weights(rest) - {name} == Weights(rest - {name});
        if rest[name].weight > 0 { n := n + rest[name].weight; }
        rest := rest - {name};
      }
      if n <= 0 { n := |backends|; }
    }

    /** selectExcluding: draw from p until a name fits or the limit is reached. Other requests may
        draw from the same pool in between, gaps[i] times before the i-th draw. */
    method FindFit(p: Pool, exclude: set<string>, tag: Option<string>, gaps: seq<nat>)
      returns (r: Option<Backend>, p': Pool, ghost m: nat)
      ensures backends != map[] ==> FirstFit(backends, p, exclude, tag, gaps, Tries(backends), m, r, p')
      ensures backends == map[] ==> r.None? && p' == p
    {
      hide Total, EffectiveTags, Tries, Weights;
      r, p', m := None, p, 0;
      if backends == map[] { return; }
      var maxTries := MaxTries();
      var i := 0;
      while i < maxTries
        invariant m == i <= maxTries && FirstFit(backends, p, exclude, tag, gaps, i, m, None, p')
      {
        p' := p'.(pos := p'.pos + Gap(gaps, i));
        var name := p'.draw(p'.pos);
        p' := p'.(pos := p'.pos + 1);
        i, m := i + 1, m + 1;
        if name == "" || name in exclude { continue; }
        if name !in backends || (tag.Some? && tag.value !in EffectiveTags(backends[name])) { continue; }
        r := Some(backends[name]);
        break;
      }
    }

    /** SelectExcluding (no tag) and SelectFromTagExcluding: never an excluded or untagged
        backend; none exactly when all members are excluded, if the strategy bears the draws
        others make meanwhile. */
    method SelectExcluding(tag: Option<string>, exclude: set<string>, gaps: seq<nat>)
      returns (r: Option<Backend>, ghost m: nat)
      requires Valid()
      modifies this`bal, this`pools
      ensures Valid()
      ensures PoolFor(old(View()), tag).Some? && backends != map[] ==>
                PoolFor(View(), tag).Some?
                && FirstFit(backends, PoolFor(old(View()), tag).value, exclude, tag, gaps, Tries(backends), m, r, PoolFor(View(), tag).value)
                && View() == WithPool(old(View()), tag, PoolFor(View(), tag).value)
      ensures PoolFor(old(View()), tag).None? || backends == map[] ==> r.None? && View() == old(View())
      ensures r.Some? ==> r.value.name in Members(list, tag) && r.value.name !in exclude
                          && r.value == ByName(list)[r.value.name] && r.value in list
      ensures r.Some? && tag.Some? ==> HasTag(r.value, tag.value)
      ensures LawfulLibrary(lib) && WellConfigured(list) && Robust(lib, kind, list, tag, Foreign(gaps, Tries(backends))) ==>
                (r.None? <==> Members(list, tag) <= exclude)
    {
      hide Total, HasTag, EffectiveTags, NewPool, ByTag, LawfulLibrary, FirstFit, Tries, BuiltFrom, Members, WellConfigured, Robust, Comes;
      ghost var v := View();
      m := 0;
      BuiltBackends(v, lib, kind, list);
      if tag.Some? && tag.value !in pools {
        if LawfulLibrary(lib) && WellConfigured(list) {
          WellConfiguredIsDistinct(list);
          PoolOfMembers(v, lib, kind, list, tag);
        }
        return None, m;
      }
      var p := if tag.None? then bal else pools[tag.value];
      var p';
      r, p', m := FindFit(p, exclude, tag, gaps);
      if tag.None? { bal := p'; } else { pools := pools[tag.value := p']; }
      if backends == map[] {
        assert Members(list, tag) == {} by { MembersAmong(list, tag); }
      } else {
        FitMovesOn(backends, p, exclude, tag, gaps, m, r, p');
        FitIsMember(v, lib, kind, list, tag, p, exclude, gaps, m, r, p');
        if r.Some? { MemberIsTagged(list, tag, r.value); }
        ghost var f := Foreign(gaps, Tries(backends));
        if LawfulLibrary(lib) && WellConfigured(list) && Robust(lib, kind, list, tag, f) {
          RobustNow(v, lib, kind, list, tag, f);
          NothingLeft(v, lib, kind, list, tag, f, gaps, exclude, m, r, p');
        }
      }
      MovedOn(v, lib, kind, list, tag, p'.pos);
      assert View() == WithPool(v, tag, p');
    }
  }

  /** A robust strategy is so from where the pool stands. */
  lemma RobustNow(v: Pools, lib: Library, kind: Kind, list: seq<Backend>, tag: Option<string>, f: nat)
    requires BuiltFrom(v, lib, kind, list) && PoolFor(v, tag).Some? && Robust(lib, kind, list, tag, f)
    ensures Comes(PoolFor(v, tag).value.draw, Members(list, tag), PoolFor(v, tag).value.pos, Tries(v.backends), f)
  {
    hide NewPool, ByTag, Total, Tries, Comes, Members;
    assert PoolFor(v, tag).value.(pos := 0) == NewPool(lib, kind, NodesFor(list, tag));
  }

  // ----- What others do with the balancer meanwhile -----

  /** An update of the configuration, or another request's selection. */
  datatype Use =
    | Update(list: seq<Backend>)
    | Select(tag: Option<string>)
    | SelectNext(tag: Option<string>, exclude: set<string>, gaps: seq<nat>)

  /** The configuration after some uses. */
  function LastList(list: seq<Backend>, uses: seq<Use>): seq<Backend> {
    if uses == [] then list
    else if uses[|uses| - 1].Update? then uses[|uses| - 1].list
    else LastList(list, uses[..|uses| - 1])
  }

  lemma {:induction false} LastListIs(list: seq<Backend>, uses: seq<Use>)
    ensures LastList(list, uses) == list || exists u :: u in uses && u.Update? && u.list == LastList(list, uses)
  {
    if uses != [] && !uses[|uses| - 1].Update? { LastListIs(list, uses[..|uses| - 1]); }
  }

  method UseAll(bb: Balancer, uses: seq<Use>)
    requires bb.Valid()
    modifies bb
    ensures bb.Valid() && bb.list == LastList(old(bb.list), uses)
  {
    hide BuiltFrom, FirstFit;
    for i := 0 to |uses|
      invariant bb.Valid() && bb.list == LastList(old(bb.list), uses[..i])
    {
      assert uses[..i + 1][..i] == uses[..i];
      match uses[i] {
        case Update(list) => bb.Update(list);
        case Select(tag) => var _ := bb.SelectFrom(tag);
        case SelectNext(tag, exclude, gaps) => var _, _ := bb.SelectExcluding(tag, exclude, gaps);
      }
    }
    assert uses[..|uses|] == uses;
  }

  lemma WellConfiguredIsDistinct(list: seq<Backend>)
    requires WellConfigured(list)
    ensures Distinct(list)
  {}

  lemma MembersAmong(list: seq<Backend>, tag: Option<string>)
    ensures Members(list, tag) <= ByName(list).Keys
  {}

  ghost function WithPool(v: Pools, tag: Option<string>, p: Pool): Pools {
    match tag
    case None => v.(full := p)
    case Some(t) => v.(tagged := v.tagged[t := p])
  }
}
