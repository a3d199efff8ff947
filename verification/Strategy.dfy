/** What the balancer asks of the strategy library, and two reference strategies that give it:
    round-robin over sorted names and smooth weighted round-robin. */
module Strategy {
  import opened Common
  import opened Text

  datatype Kind = Smooth | WeightedRandom | RoundRobin | Random | Weighted

  /** The strategy named in the configuration; anything unknown is the weighted round-robin. */
  function KindOf(strategy: string): Kind {
    if strategy == "swrr" then Smooth
    else if strategy == "wr" then WeightedRandom
    else if strategy == "rr" then RoundRobin
    else if strategy == "random" then Random
    else Weighted
  }

  predicate Cyclic(kind: Kind) {
    kind == Smooth || kind == RoundRobin || kind == Weighted
  }

  // ----- Weights -----

  function Positive(w: int): nat {
    if w > 0 then w else 0
  }

  /** The sum of the positive weights. */
  ghost function Total(nodes: map<string, int>): nat {
    if nodes == map[] then 0
    else
      var k :| k in nodes;
      Positive(nodes[k]) + Total(nodes - {k})
  }

  lemma {:induction false} TotalTake(nodes: map<string, int>, k: string)
    requires k in nodes
    ensures Total(nodes) == Positive(nodes[k]) + Total(nodes - {k})
    decreases nodes
  {
    var j :| j in nodes && Total(nodes) == Positive(nodes[j]) + Total(nodes - {j});
    if j != k {
      TotalTake(nodes - {j}, k);
      TotalTake(nodes - {k}, j);
      assert nodes - {j} - {k} == nodes - {k} - {j};
    }
  }

  /** A node adds its weight; one of weight 0 or less adds nothing. */
  lemma TotalOf(nodes: map<string, int>, k: string, w: int)
    requires k !in nodes
    ensures w > 0 ==> Total(nodes[k := w]) == w + Total(nodes)
    ensures w <= 0 ==> Total(nodes[k := w]) == Total(nodes)
    ensures Total(map[]) == 0
  {
    TotalTake(nodes[k := w], k);
    assert nodes[k := w] - {k} == nodes;
  }

  ghost predicate Within(part: map<string, int>, whole: map<string, int>) {
    forall k | k in part :: k in whole && whole[k] == part[k]
  }

  /** A sub-pool weighs no more than the pool. */
  lemma {:induction false} TotalWithin(part: map<string, int>, whole: map<string, int>)
    requires Within(part, whole)
    ensures Total(part) <= Total(whole)
    decreases whole
  {
    if whole != map[] {
      var k :| k in whole;
      TotalTake(whole, k);
      if k in part {
        TotalTake(part, k);
        TotalWithin(part - {k}, whole - {k});
      } else {
        TotalWithin(part, whole - {k});
      }
    } else {
      assert part == map[];
    }
  }

  /** A pool the completeness claims are about: it has members, named, each of weight 1 or more. */
  ghost predicate Weighty(nodes: map<string, int>) {
    nodes != map[] && forall k | k in nodes :: k != "" && nodes[k] >= 1
  }

  lemma {:induction false} TotalCounts(nodes: map<string, int>)
    requires forall k | k in nodes :: nodes[k] >= 1
    ensures |nodes| <= Total(nodes)
  {
    if nodes != map[] {
      var k :| k in nodes;
      TotalTake(nodes, k);
      TotalCounts(nodes - {k});
      assert nodes.Keys == (nodes - {k}).Keys + {k};
      assert |nodes.Keys| == |(nodes - {k}).Keys| + 1;
    }
  }

  // ----- The contract -----

  /** A strategy object is the endless sequence of names its Select calls return. */
  type Stream = nat -> string

  ghost predicate DrawnWithin(draw: Stream, name: string, from: nat, n: nat) {
    exists i: nat :: from <= i < from + n && draw(i) == name
  }

  /** One cycle covers every node, wherever it starts. */
  ghost predicate Covers(draw: Stream, nodes: map<string, int>) {
    forall name, from: nat | name in nodes :: DrawnWithin(draw, name, from, Total(nodes))
  }

  ghost predicate Lawful(kind: Kind, nodes: map<string, int>, draw: Stream) {
    && (forall i: nat :: draw(i) == "" || draw(i) in nodes)
    && (Weighty(nodes) ==> forall i: nat :: draw(i) in nodes)
    && (Weighty(nodes) && Cyclic(kind) ==> Covers(draw, nodes))
  }

  // ----- Sorted names -----

  ghost predicate Sorted(names: seq<string>) {
    forall i, j | 0 <= i < j < |names| :: Before(names[i], names[j])
  }

  lemma SortedNoDup(names: seq<string>)
    requires Sorted(names)
    ensures NoDup(names)
  {
    forall i, j | 0 <= i < j < |names| ensures names[i] != names[j] {
      BeforeIsOrder(names[i], names[j]);
    }
  }

  lemma NoElements(a: seq<string>)
    ensures a == [] <==> Elements(a) == {}
  {
    if a != [] { assert a[0] in Elements(a); }
  }

  lemma HeadIsFirst(a: seq<string>, x: string)
    requires Sorted(a) && x in a
    ensures x == a[0] || Before(a[0], x)
  {}

  /** The sorted order of a set of names is unique, so it does not depend on map iteration. */
  lemma {:induction false} SortedUnique(a: seq<string>, b: seq<string>)
    requires Sorted(a) && Sorted(b) && Elements(a) == Elements(b)
    ensures a == b
  {
    NoElements(a);
    NoElements(b);
    assert forall x :: x in a <==> x in Elements(a);
    assert forall x :: x in b <==> x in Elements(b);
    if a != [] && b != [] {
      HeadIsFirst(a, b[0]);
      HeadIsFirst(b, a[0]);
      BeforeIsOrder(a[0], b[0]);
      SortedNoDup(a);
      SortedNoDup(b);
      forall x ensures x in Elements(a[1..]) <==> x in Elements(b[1..]) {
        assert x in Elements(a[1..]) <==> x in Elements(a) && x != a[0];
        assert x in Elements(b[1..]) <==> x in Elements(b) && x != b[0];
      }
      SortedUnique(a[1..], b[1..]);
      assert a == [a[0]] + a[1..] && b == [b[0]] + b[1..];
    }
  }

  /** Puts a name in its place. */
  function Insert(names: seq<string>, k: string): (r: seq<string>)
    ensures Elements(r) == Elements(names) + {k}
  {
    if names == [] || Before(k, names[0]) then
      assert ([k] + names)[1..] == names;
      [k] + names
    else
      var r := [names[0]] + Insert(names[1..], k);
      assert names == [names[0]] + names[1..];
      assert Elements(r) == {names[0]} + Elements(Insert(names[1..], k));
      assert Elements(names) == {names[0]} + Elements(names[1..]);
      r
  }

  lemma {:induction false} InsertSorted(names: seq<string>, k: string)
    requires Sorted(names) && k !in names
    ensures Sorted(Insert(names, k))
  {
    var r := Insert(names, k);
    if names == [] {
    } else if Before(k, names[0]) {
      forall j | 0 < j < |r| ensures Before(r[0], r[j]) {
        if j > 1 { BeforeChains(k, names[0], names[j - 1]); }
      }
    } else {
      InsertSorted(names[1..], k);
      forall j | 0 < j < |r| ensures Before(r[0], r[j]) {
        assert r[j] in Elements(Insert(names[1..], k));
        BeforeIsOrder(names[0], k);
      }
    }
  }

  /** sortedNames: the keys, collected in any order, then sorted. */
  method SortedNames(m: map<string, int>) returns (names: seq<string>)
    ensures Sorted(names) && NoDup(names) && Elements(names) == m.Keys && |names| == |m|
  {
    names := [];
    var rest := m.Keys;
    while rest != {}
      invariant rest <= m.Keys && Elements(names) == m.Keys - rest
      invariant Sorted(names) && |names| + |rest| == |m|
    {
      var k :| k in rest;
      InsertSorted(names, k);
      InsertLength(names, k);
      names := Insert(names, k);
      rest := rest - {k};
    }
    SortedNoDup(names);
  }

  /** The names of a set in sorted order. */
  ghost function SortedOf(keys: set<string>): (r: seq<string>)
    ensures Sorted(r) && Elements(r) == keys
  {
    if keys == {} then []
    else
      var k :| k in keys;
      var r := SortedOf(keys - {k});
      assert k !in Elements(r);
      InsertSorted(r, k);
      Insert(r, k)
  }

  lemma InsertLength(names: seq<string>, k: string)
    ensures |Insert(names, k)| == |names| + 1
  {}

  // ----- Round-robin -----

  /** The i-th Select of a round-robin over these names. */
  function RoundRobinDraw(names: seq<string>): Stream {
    (i: nat) => if names == [] then "" else names[i % |names|]
  }

  lemma MultipleIsFar(d: int, n: int)
    requires n > 0
    ensures d >= 1 ==> d * n >= n
    ensures d <= -1 ==> d * n <= -n
  {}

  lemma ModOf(q: nat, n: nat, j: nat)
    requires j < n
    ensures (q * n + j) % n == j
  {
    var x := q * n + j;
    var d := x / n - q;
    assert x == (x / n) * n + x % n;
    assert (x / n) * n == q * n + d * n;
    MultipleIsFar(d, n);
  }

  /** Round-robin draws each of n names in any n consecutive draws. */
  lemma {:induction false} RoundRobinCovers(names: seq<string>, j: nat, from: nat)
    requires j < |names|
    ensures DrawnWithin(RoundRobinDraw(names), names[j], from, |names|)
  {
    var n := |names|;
    var q, r := from / n, from % n;
    var i := if j >= r then q * n + j else (q + 1) * n + j;
    assert from == q * n + r;
    assert (q + 1) * n == q * n + n;
    ModOf(if j >= r then q else q + 1, n, j);
    assert RoundRobinDraw(names)(i) == names[j];
  }

  // ----- Smooth weighted round-robin -----

  function Sum(x: seq<int>): int {
    if x == [] then 0 else x[0] + Sum(x[1..])
  }

  function Plus(x: seq<int>, y: seq<int>): (r: seq<int>)
    requires |x| == |y|
    ensures |r| == |x|
  {
    seq(|x|, i requires 0 <= i < |x| => x[i] + y[i])
  }

  lemma {:induction false} SumPlus(x: seq<int>, y: seq<int>)
    requires |x| == |y|
    ensures Sum(Plus(x, y)) == Sum(x) + Sum(y)
  {
    if x != [] {
      SumPlus(x[1..], y[1..]);
      assert Plus(x, y)[1..] == Plus(x[1..], y[1..]);
    }
  }

  lemma {:induction false} SumUpdate(x: seq<int>, i: nat, v: int)
    requires i < |x|
    ensures Sum(x[i := v]) == Sum(x) - x[i] + v
  {
    if i > 0 {
      SumUpdate(x[1..], i - 1, v);
      assert x[i := v][1..] == x[1..][i - 1 := v];
    } else {
      assert x[i := v][1..] == x[1..];
    }
  }

  /** A sum of terms below or equal to zero is; it is zero only if they all are. */
  lemma {:induction false} SumSigns(x: seq<int>)
    requires forall i | 0 <= i < |x| :: x[i] <= 0
    ensures Sum(x) <= 0
    ensures Sum(x) == 0 ==> forall i | 0 <= i < |x| :: x[i] == 0
  {
    if x != [] { SumSigns(x[1..]); }
  }

  /** The first index of the largest value. */
  function ArgMax(x: seq<int>): (r: nat)
    requires x != []
    ensures r < |x|
    ensures forall j | 0 <= j < |x| :: x[j] <= x[r]
    ensures forall j | 0 <= j < r :: x[j] < x[r]
  {
    if |x| == 1 then 0
    else
      var r := ArgMax(x[1..]);
      assert forall j | 1 <= j < |x| :: x[j] == x[1..][j - 1];
      if x[0] >= x[1..][r] then 0 else r + 1
  }

  function Zeros(n: nat): seq<int> {
    seq(n, i => 0)
  }

  /** The node picked when the current values are cur: each is raised by its weight, the largest wins. */
  function Winner(w: seq<int>, cur: seq<int>): (r: nat)
    requires w != [] && |cur| == |w|
    ensures r < |w|
  {
    ArgMax(Plus(cur, w))
  }

  /** The winner then pays the total weight. */
  function Pay(w: seq<int>, cur: seq<int>): (r: seq<int>)
    requires w != [] && |cur| == |w|
    ensures |r| == |w|
  {
    var raised := Plus(cur, w);
    raised[Winner(w, cur) := raised[Winner(w, cur)] - Sum(w)]
  }

  /** The current values after t picks from the start. */
  function Current(w: seq<int>, t: nat): (r: seq<int>)
    requires w != []
    ensures |r| == |w|
  {
    if t == 0 then Zeros(|w|) else Pay(w, Current(w, t - 1))
  }

  /** The node the t-th pick (from 0) takes. */
  function Pick(w: seq<int>, t: nat): (r: nat)
    requires w != []
    ensures r < |w|
  {
    Winner(w, Current(w, t))
  }

  /** How often each node was taken in the first t picks. */
  function Taken(w: seq<int>, t: nat): (r: seq<int>)
    requires w != []
    ensures |r| == |w|
  {
    if t == 0 then Zeros(|w|)
    else Taken(w, t - 1)[Pick(w, t - 1) := Taken(w, t - 1)[Pick(w, t - 1)] + 1]
  }

  lemma {:induction false} SumZeros(n: nat)
    ensures Sum(Zeros(n)) == 0
  {
    if n > 0 {
      SumZeros(n - 1);
      assert Zeros(n)[1..] == Zeros(n - 1);
    }
  }

  lemma {:induction false} TakenSum(w: seq<int>, t: nat)
    requires w != []
    ensures Sum(Taken(w, t)) == t
  {
    if t == 0 {
      SumZeros(|w|);
    } else {
      TakenSum(w, t - 1);
      SumUpdate(Taken(w, t - 1), Pick(w, t - 1), Taken(w, t - 1)[Pick(w, t - 1)] + 1);
    }
  }

  lemma {:induction false} CurrentSum(w: seq<int>, t: nat)
    requires w != []
    ensures Sum(Current(w, t)) == 0
  {
    hide ArgMax, Winner;
    if t == 0 {
      SumZeros(|w|);
    } else {
      var cur := Current(w, t - 1);
      CurrentSum(w, t - 1);
      SumPlus(cur, w);
      SumUpdate(Plus(cur, w), Winner(w, cur), Plus(cur, w)[Winner(w, cur)] - Sum(w));
    }
  }

  /** One pick, seen from node i. */
  lemma {:induction false} OnePick(w: seq<int>, t: nat, i: nat)
    requires w != [] && i < |w|
    ensures Current(w, t + 1)[i] == Current(w, t)[i] + w[i] - (if Pick(w, t) == i then Sum(w) else 0)
    ensures Taken(w, t + 1)[i] == Taken(w, t)[i] + (if Pick(w, t) == i then 1 else 0)
  {
    hide Winner, ArgMax;
    assert Current(w, t + 1) == Pay(w, Current(w, t));
  }

  /** No value falls to -W: the winner was raised above zero, as the raised values add up to W. */
  lemma {:induction false} CurrentAbove(w: seq<int>, t: nat, i: nat)
    requires w != [] && Sum(w) > 0 && i < |w| && forall j | 0 <= j < |w| :: w[j] >= 0
    ensures Current(w, t)[i] > -Sum(w)
  {
    hide Pay;
    if t > 0 {
      CurrentAbove(w, t - 1, i);
      OnePick(w, t - 1, i);
      if Pick(w, t - 1) == i {
        var cur := Current(w, t - 1);
        CurrentSum(w, t - 1);
        SumPlus(cur, w);
        if Plus(cur, w)[i] <= 0 {
          SumSigns(Plus(cur, w));
        }
      }
    }
  }

  lemma MultiplyNext(x: int, k: int)
    ensures x * (k + 1) == x * k + x
  {}

  /** After t picks node i's value is t * w[i] - W * (times i was taken). */
  lemma {:induction false} CurrentValue(w: seq<int>, t: nat, i: nat)
    requires w != [] && i < |w|
    ensures Current(w, t)[i] == w[i] * t - Sum(w) * Taken(w, t)[i]
  {
    hide Pay, Winner;
    if t > 0 {
      CurrentValue(w, t - 1, i);
      OnePick(w, t - 1, i);
      MultiplyNext(w[i], t - 1);
      MultiplyNext(Sum(w), Taken(w, t - 1)[i]);
    }
  }

  lemma NearMultiple(x: int, n: int, W: int)
    requires W > 0 && x * W - W * n > -W
    ensures n <= x
  {
    assert x * W - W * n == (x - n) * W;
    MultipleIsFar(x - n, W);
  }

  /** No node is taken more often than its weight in the first W picks. */
  lemma {:induction false} NotOverdrawn(w: seq<int>, i: nat)
    requires w != [] && Sum(w) > 0 && i < |w| && forall j | 0 <= j < |w| :: w[j] >= 0
    ensures Taken(w, Sum(w))[i] <= w[i]
  {
    var W, n := Sum(w), Taken(w, Sum(w))[i];
    CurrentAbove(w, W, i);
    CurrentValue(w, W, i);
    NearMultiple(w[i], n, W);
  }

  /** After W picks from the start, each node was taken exactly its weight of times, and all
      values are back at zero. */
  lemma {:induction false} FullCycle(w: seq<int>)
    requires w != [] && Sum(w) > 0 && forall j | 0 <= j < |w| :: w[j] >= 0
    ensures Taken(w, Sum(w)) == w && Current(w, Sum(w)) == Zeros(|w|)
  {
    hide Pay, Winner, Current, Taken, Pick;
    var W, taken := Sum(w), Taken(w, Sum(w));
    var excess := seq(|w|, i requires 0 <= i < |w| => taken[i] - w[i]);
    forall i | 0 <= i < |w| ensures excess[i] <= 0 {
      NotOverdrawn(w, i);
    }
    TakenSum(w, W);
    SumPlus(excess, w);
    assert Plus(excess, w) == taken;
    SumSigns(excess);
    forall i | 0 <= i < |w| ensures taken[i] == w[i] && Current(w, W)[i] == 0 {
      assert excess[i] == 0;
      CurrentValue(w, W, i);
    }
  }

  /** Two moments with the same values stay a whole cycle apart. */
  lemma {:induction false} CyclesStep(w: seq<int>, s: nat, t: nat)
    requires w != [] && Current(w, t) == Current(w, s) && Taken(w, t) == Plus(Taken(w, s), w)
    ensures Current(w, t + 1) == Current(w, s + 1) && Taken(w, t + 1) == Plus(Taken(w, s + 1), w)
  {
    hide Current, Taken, Pay, Winner, Sum;
    var current, taken := Current(w, t + 1), Taken(w, t + 1);
    forall i | 0 <= i < |w|
      ensures current[i] == Current(w, s + 1)[i] && taken[i] == Plus(Taken(w, s + 1), w)[i]
    {
      OnePick(w, t, i);
      OnePick(w, s, i);
    }
  }

  /** Smooth weighted round-robin is exact: in every window of W consecutive picks each node is
      taken exactly its weight of times, and the values return to what they were. */
  lemma {:induction false} SmoothIsExact(w: seq<int>, from: nat)
    requires w != [] && Sum(w) > 0 && forall j | 0 <= j < |w| :: w[j] >= 0
    ensures Current(w, from + Sum(w)) == Current(w, from)
    ensures Taken(w, from + Sum(w)) == Plus(Taken(w, from), w)
  {
    hide Pay, Winner;
    if from == 0 {
      FullCycle(w);
      assert Plus(Zeros(|w|), w) == w;
    } else {
      SmoothIsExact(w, from - 1);
      CyclesStep(w, from - 1, from - 1 + Sum(w));
    }
  }

  /** A node taken more often at the end of a window was picked in it. */
  lemma {:induction false} TakenWasPicked(w: seq<int>, i: nat, from: nat, n: nat) returns (t: nat)
    requires w != [] && i < |w| && Taken(w, from + n)[i] > Taken(w, from)[i]
    ensures from <= t < from + n && Pick(w, t) == i
  {
    hide Pay, Winner;
    OnePick(w, from + n - 1, i);
    if Pick(w, from + n - 1) == i {
      t := from + n - 1;
    } else {
      t := TakenWasPicked(w, i, from, n - 1);
    }
  }

  /** The i-th Select of a smooth weighted round-robin over the named weights. */
  function SmoothDraw(names: seq<string>, w: seq<int>): Stream
    requires |names| == |w|
  {
    (i: nat) => if names == [] then "" else names[Pick(w, i)]
  }

  lemma {:induction false} SmoothCovers(names: seq<string>, w: seq<int>, j: nat, from: nat)
    requires |names| == |w| && j < |names| && forall i | 0 <= i < |w| :: w[i] >= 1
    requires Sum(w) > 0
    ensures DrawnWithin(SmoothDraw(names, w), names[j], from, Sum(w))
  {
    SmoothIsExact(w, from);
    var t := TakenWasPicked(w, j, from, Sum(w));
    assert SmoothDraw(names, w)(t) == names[j];
  }

  // ----- The references keep the contract -----

  ghost function WeightsOf(names: seq<string>, nodes: map<string, int>): (w: seq<int>)
    requires forall k | k in names :: k in nodes
    ensures |w| == |names|
  {
    seq(|names|, i requires 0 <= i < |names| => nodes[names[i]])
  }

  lemma {:induction false} SumIsTotal(names: seq<string>, nodes: map<string, int>)
    requires NoDup(names) && Elements(names) == nodes.Keys
    requires forall k | k in nodes :: nodes[k] >= 1
    ensures Sum(WeightsOf(names, nodes)) == Total(nodes)
  {
    if names == [] {
      assert nodes == map[];
    } else {
      var k := names[0];
      assert k in Elements(names);
      TotalTake(nodes, k);
      forall x ensures x in Elements(names[1..]) <==> x in (nodes - {k}).Keys {
        assert x in Elements(names[1..]) <==> x in Elements(names) && x != k;
      }
      SumIsTotal(names[1..], nodes - {k});
      assert WeightsOf(names, nodes)[1..] == WeightsOf(names[1..], nodes - {k});
    }
  }

  /** Round-robin over any listing of the nodes keeps the library contract. */
  lemma {:induction false} RoundRobinLawful(names: seq<string>, nodes: map<string, int>)
    requires NoDup(names) && Elements(names) == nodes.Keys
    ensures Lawful(RoundRobin, nodes, RoundRobinDraw(names))
  {
    var draw := RoundRobinDraw(names);
    assert forall k :: k in names <==> k in Elements(names);
    assert names == [] <==> nodes == map[] by { NoElements(names); }
    forall i: nat ensures draw(i) == "" || draw(i) in nodes {
      if names != [] { assert names[i % |names|] in names; }
    }
    if Weighty(nodes) {
      forall i: nat ensures draw(i) in nodes {
        assert names[i % |names|] in names;
      }
      NoDupFits(names, nodes.Keys);
      TotalCounts(nodes);
      forall name, from: nat | name in nodes ensures DrawnWithin(draw, name, from, Total(nodes)) {
        var j :| 0 <= j < |names| && names[j] == name;
        RoundRobinCovers(names, j, from);
      }
    }
  }

  /** Smooth weighted round-robin over any listing of the nodes keeps it too, as a cyclic strategy. */
  lemma {:induction false} SmoothLawful(kind: Kind, names: seq<string>, nodes: map<string, int>)
    requires NoDup(names) && Elements(names) == nodes.Keys
    ensures Lawful(kind, nodes, SmoothDraw(names, WeightsOf(names, nodes)))
  {
    var w := WeightsOf(names, nodes);
    var draw := SmoothDraw(names, w);
    assert forall k :: k in names <==> k in Elements(names);
    forall i: nat ensures draw(i) == "" || draw(i) in nodes {
      if names != [] { assert names[Pick(w, i)] in names; }
    }
    if Weighty(nodes) {
      NoElements(names);
      assert names[0] in names;
      forall i: nat ensures draw(i) in nodes {
        assert names[Pick(w, i)] in names;
      }
      SumIsTotal(names, nodes);
      TotalTake(nodes, names[0]);
      forall name, from: nat | name in nodes ensures DrawnWithin(draw, name, from, Total(nodes)) {
        var j :| 0 <= j < |names| && names[j] == name;
        SmoothCovers(names, w, j, from);
      }
    }
  }
}
