/** Draws of one call among the draws of others: the read lock of internal/balancer/balancer.go lets
    other requests draw from the same strategy object between two draws of selectExcluding. */
module Interleaving {
  import opened Common
  import opened Strategy

  /** How many draws others make before the i-th own draw; none behind the end of gaps. */
  function Gap(gaps: seq<nat>, i: nat): nat {
    if i < |gaps| then gaps[i] else 0
  }

  /** The position behind m own draws of a call that starts at from. */
  function Next(from: nat, gaps: seq<nat>, m: nat): nat {
    if m == 0 then from else Next(from, gaps, m - 1) + Gap(gaps, m - 1) + 1
  }

  /** The position of the i-th own draw. */
  function Own(from: nat, gaps: seq<nat>, i: nat): nat {
    Next(from, gaps, i) + Gap(gaps, i)
  }

  /** How many draws of others fall among m own draws. */
  function Foreign(gaps: seq<nat>, m: nat): nat {
    if m == 0 then 0 else Foreign(gaps, m - 1) + Gap(gaps, m - 1)
  }

  lemma {:induction false} NextIs(from: nat, gaps: seq<nat>, m: nat)
    ensures Next(from, gaps, m) == from + m + Foreign(gaps, m)
  {
    if m > 0 { NextIs(from, gaps, m - 1); }
  }

  /** How often a name comes in n consecutive draws. */
  function Count(draw: Stream, name: string, from: nat, n: nat): nat {
    if n == 0 then 0 else Count(draw, name, from, n - 1) + (if draw(from + n - 1) == name then 1 else 0)
  }

  ghost predicate DrawnBy(draw: Stream, name: string, from: nat, gaps: seq<nat>, m: nat) {
    exists i: nat :: i < m && draw(Own(from, gaps, i)) == name
  }

  lemma {:induction false} CountGrows(draw: Stream, name: string, from: nat, n: nat, g: nat)
    ensures Count(draw, name, from, n) <= Count(draw, name, from, n + g) <= Count(draw, name, from, n) + g
  {
    if g > 0 { CountGrows(draw, name, from, n, g - 1); }
  }

  lemma {:induction false} CountFront(draw: Stream, name: string, from: nat, n: nat)
    requires n > 0
    ensures Count(draw, name, from, n) == (if draw(from) == name then 1 else 0) + Count(draw, name, from + 1, n - 1)
  {
    if n > 1 { CountFront(draw, name, from, n - 1); }
  }

  lemma {:induction false} CountAdds(draw: Stream, name: string, from: nat, n: nat, k: nat)
    ensures Count(draw, name, from, n + k) == Count(draw, name, from, n) + Count(draw, name, from + n, k)
  {
    if k > 0 { CountAdds(draw, name, from, n, k - 1); }
  }

  lemma {:induction false} CountPositive(draw: Stream, name: string, from: nat, n: nat)
    ensures Count(draw, name, from, n) > 0 <==> DrawnWithin(draw, name, from, n)
  {
    if n > 0 {
      CountPositive(draw, name, from, n - 1);
      if DrawnWithin(draw, name, from, n) && draw(from + n - 1) != name {
        assert DrawnWithin(draw, name, from, n - 1);
      }
      if Count(draw, name, from, n) > 0 && draw(from + n - 1) != name {
        assert DrawnWithin(draw, name, from, n - 1);
      }
    }
  }

  /** A name that m own draws miss came only in the draws of others. */
  lemma {:induction false} MissedIsForeign(draw: Stream, name: string, from: nat, gaps: seq<nat>, m: nat)
    requires !DrawnBy(draw, name, from, gaps, m)
    ensures Count(draw, name, from, m + Foreign(gaps, m)) <= Foreign(gaps, m)
  {
    if m > 0 {
      var g, n := Gap(gaps, m - 1), m - 1 + Foreign(gaps, m - 1);
      forall i: nat | i < m - 1 ensures draw(Own(from, gaps, i)) != name {}
      MissedIsForeign(draw, name, from, gaps, m - 1);
      NextIs(from, gaps, m - 1);
      CountGrows(draw, name, from, n, g);
      assert Own(from, gaps, m - 1) == from + n + g;
    }
  }

  lemma {:induction false} GapsTail(from: nat, g: nat, rest: seq<nat>, m: nat)
    ensures Next(from, [g] + rest, m + 1) == Next(from + g + 1, rest, m)
    ensures Foreign([g] + rest, m + 1) == g + Foreign(rest, m)
    ensures Gap([g] + rest, m + 1) == Gap(rest, m)
    ensures Own(from, [g] + rest, m + 1) == Own(from + g + 1, rest, m)
  {
    if m > 0 { GapsTail(from, g, rest, m - 1); }
  }

  lemma OwnFirst(from: nat, gaps: seq<nat>)
    ensures Own(from, gaps, 0) == from + Gap(gaps, 0)
  {}

  /** One more own draw, in front. */
  lemma OwnInFront(draw: Stream, name: string, from: nat, rest: seq<nat>, m: nat)
    requires draw(from) != name && !DrawnBy(draw, name, from + 1, rest, m)
    ensures Foreign([0] + rest, m + 1) == Foreign(rest, m) && !DrawnBy(draw, name, from, [0] + rest, m + 1)
  {
    hide Foreign, Next, Own;
    GapsTail(from, 0, rest, m);
    OwnFirst(from, [0] + rest);
    forall i: nat | i < m + 1 ensures draw(Own(from, [0] + rest, i)) != name {
      if i > 0 { GapsTail(from, 0, rest, i - 1); }
    }
  }

  /** One more draw of others, in front. */
  lemma ForeignInFront(draw: Stream, name: string, from: nat, g: nat, rest: seq<nat>, m: nat)
    requires m > 0 && !DrawnBy(draw, name, from + 1, [g] + rest, m)
    ensures Foreign([g + 1] + rest, m) == Foreign([g] + rest, m) + 1 && !DrawnBy(draw, name, from, [g + 1] + rest, m)
  {
    hide Foreign, Next, Own;
    var gaps := [g + 1] + rest;
    GapsTail(from, g + 1, rest, m - 1);
    GapsTail(from, g, rest, m - 1);
    OwnFirst(from, gaps);
    OwnFirst(from + 1, [g] + rest);
    forall i: nat | i < m ensures draw(Own(from, gaps, i)) != name {
      assert draw(Own(from + 1, [g] + rest, i)) != name;
      if i > 0 {
        GapsTail(from, g + 1, rest, i - 1);
        GapsTail(from + 1, g, rest, i - 1);
      }
    }
  }

  /** A call can be made to miss a name that comes k times or less in m + k draws. */
  lemma {:induction false} Dodge(draw: Stream, name: string, from: nat, m: nat, k: nat) returns (gaps: seq<nat>)
    requires Count(draw, name, from, m + k) <= k
    ensures |gaps| == m && Foreign(gaps, m) <= k && !DrawnBy(draw, name, from, gaps, m)
    decreases m + k
  {
    if m == 0 { return []; }
    hide Foreign, DrawnBy;
    CountFront(draw, name, from, m + k);
    if draw(from) != name {
      var rest := Dodge(draw, name, from + 1, m - 1, k);
      gaps := [0] + rest;
      OwnInFront(draw, name, from, rest, m - 1);
    } else {
      var later := Dodge(draw, name, from + 1, m, k - 1);
      var g, rest := later[0], later[1..];
      assert later == [g] + rest;
      gaps := [g + 1] + rest;
      ForeignInFront(draw, name, from, g, rest, m);
    }
  }

  /** Whatever the others do with at most f draws, m own draws meet the name. */
  ghost predicate Survives(draw: Stream, name: string, from: nat, m: nat, f: nat) {
    forall gaps | Foreign(gaps, m) <= f :: DrawnBy(draw, name, from, gaps, m)
  }

  /** Exactly when the name comes more than f times in the m + f draws from there. */
  lemma {:induction false} SurvivesExactly(draw: Stream, name: string, from: nat, m: nat, f: nat)
    ensures Survives(draw, name, from, m, f) <==> Count(draw, name, from, m + f) > f
  {
    if Count(draw, name, from, m + f) <= f {
      var gaps := Dodge(draw, name, from, m, f);
      assert Foreign(gaps, m) <= f && !DrawnBy(draw, name, from, gaps, m);
    } else {
      forall gaps | Foreign(gaps, m) <= f ensures DrawnBy(draw, name, from, gaps, m) {
        if !DrawnBy(draw, name, from, gaps, m) {
          MissedIsForeign(draw, name, from, gaps, m);
          CountGrows(draw, name, from, m + Foreign(gaps, m), f - Foreign(gaps, m));
          assert false;
        }
      }
    }
  }

  /** Every member comes more than f times in the next n + f draws from pos. */
  ghost predicate Comes(draw: Stream, members: set<string>, pos: nat, n: nat, f: nat) {
    forall name | name in members :: Count(draw, name, pos, n + f) > f
  }

  // ----- Round-robin -----

  lemma AddedMultiple(x: nat, q: nat, n: nat)
    requires n > 0
    ensures (x + q * n) % n == x % n
  {
    var k := x / n;
    assert (q + k) * n == q * n + k * n;
    assert x + q * n == (q + k) * n + x % n;
    ModOf(q + k, n, x % n);
  }

  /** Within n - 1 of one another no two numbers have the same remainder. */
  lemma NearDiffer(x: nat, d: nat, n: nat)
    requires 0 < d < n
    ensures x % n != (x + d) % n
  {
    var c := (x + d) / n - x / n;
    assert x == (x / n) * n + x % n && x + d == ((x + d) / n) * n + (x + d) % n;
    assert c * n == ((x + d) / n) * n - (x / n) * n;
    MultipleIsFar(c, n);
  }

  lemma BlocksNext(l: nat, n: nat)
    requires n > 0 && l > 0
    ensures l / n == (l - 1) / n + (if (l - 1) % n == n - 1 then 1 else 0)
  {
    var q, r := (l - 1) / n, (l - 1) % n;
    assert l - 1 == q * n + r;
    if r == n - 1 {
      assert (q + 1) * n == q * n + n;
      DivOf(q + 1, n, 0);
    } else {
      DivOf(q, n, r + 1);
    }
  }

  lemma DivOf(q: nat, n: nat, r: nat)
    requires r < n
    ensures (q * n + r) / n == q
  {
    var x := q * n + r;
    var d := x / n - q;
    assert x == (x / n) * n + x % n;
    assert (x / n) * n == q * n + d * n;
    MultipleIsFar(d, n);
  }

  /** From any position on, the last of n draws comes again behind full rounds. */
  lemma RoundEnds(from: nat, l: nat, n: nat)
    requires n > 0 && l > 0
    ensures (from + l - 1) % n == (from + n - 1) % n <==> (l - 1) % n == n - 1
  {
    var q, r := (l - 1) / n, (l - 1) % n;
    assert from + l - 1 == from + r + q * n;
    AddedMultiple(from + r, q, n);
    if r < n - 1 { NearDiffer(from + r, n - 1 - r, n); }
  }

  /** The node that is drawn last from a position on is drawn once in each full round, no more. */
  lemma {:induction false} LastInRound(names: seq<string>, from: nat, l: nat)
    requires names != [] && NoDup(names)
    ensures Count(RoundRobinDraw(names), names[(from + |names| - 1) % |names|], from, l) == l / |names|
  {
    var n, draw := |names|, RoundRobinDraw(names);
    var last := (from + n - 1) % n;
    if l > 0 {
      LastInRound(names, from, l - 1);
      BlocksNext(l, n);
      RoundEnds(from, l, n);
      var i := (from + l - 1) % n;
      assert draw(from + l - 1) == names[i];
      assert names[i] == names[last] <==> i == last;
    } else {
      DivOf(0, n, 0);
    }
  }

  /** Every node is drawn at least once in each full round. */
  lemma {:induction false} EachRound(names: seq<string>, j: nat, from: nat, l: nat, q: nat)
    requires j < |names| && q * |names| <= l
    ensures Count(RoundRobinDraw(names), names[j], from, l) >= q
    decreases q
  {
    var n, draw := |names|, RoundRobinDraw(names);
    if q > 0 {
      assert q * n == (q - 1) * n + n;
      assert (q - 1) * n >= 0 by { if q > 1 { MultipleIsFar(q - 1, n); } }
      RoundRobinCovers(names, j, from);
      CountPositive(draw, names[j], from, n);
      EachRound(names, j, from + n, l - n, q - 1);
      CountAdds(draw, names[j], from, n, l - n);
    }
  }

  /** Round-robin over n names, m own draws, at most f of others, from any position: no node can
      be missed if and only if the full rounds in m + f draws are more than f. */
  lemma {:induction false} RoundRobinSurvivesExactly(names: seq<string>, from: nat, m: nat, f: nat)
    requires names != [] && NoDup(names)
    ensures (forall j | 0 <= j < |names| :: Survives(RoundRobinDraw(names), names[j], from, m, f)) <==> (m + f) / |names| > f
  {
    var n, draw := |names|, RoundRobinDraw(names);
    var last, q := (from + n - 1) % n, (m + f) / n;
    LastInRound(names, from, m + f);
    SurvivesExactly(draw, names[last], from, m, f);
    if q > f {
      RoundsFit(m + f, n);
      forall j | 0 <= j < n ensures Survives(draw, names[j], from, m, f) {
        EachRound(names, j, from, m + f, q);
        SurvivesExactly(draw, names[j], from, m, f);
      }
    }
  }

  lemma RoundsFit(l: nat, n: nat)
    requires n > 0
    ensures (l / n) * n <= l
  {}

  lemma {:induction false} RoundRobinComesExactly(names: seq<string>, members: set<string>, pos: nat, m: nat, f: nat)
    requires NoDup(names) && Elements(names) == members && members != {}
    ensures Comes(RoundRobinDraw(names), members, pos, m, f) <==> (m + f) / |members| > f
  {
    hide Count, Survives;
    NoDupCounts(names);
    var draw := RoundRobinDraw(names);
    NoElements(names);
    RoundRobinSurvivesExactly(names, pos, m, f);
    forall j | 0 <= j < |names| ensures Survives(draw, names[j], pos, m, f) <==> Count(draw, names[j], pos, m + f) > f {
      SurvivesExactly(draw, names[j], pos, m, f);
    }
    assert forall j | 0 <= j < |names| :: names[j] in Elements(names);
  }

  /** With as many own draws as names (all weights 1) no draw of others is harmless. */
  lemma {:induction false} OneRoundSurvivesExactly(names: seq<string>, from: nat, f: nat)
    requires |names| >= 2 && NoDup(names)
    ensures (forall j | 0 <= j < |names| :: Survives(RoundRobinDraw(names), names[j], from, |names|, f)) <==> f == 0
  {
    RoundRobinSurvivesExactly(names, from, |names|, f);
    OneRound(|names|, f);
  }

  lemma TwiceFits(q: nat, n: nat)
    requires n >= 2
    ensures q * n >= 2 * q
  {
    var m := n - 2;
    assert q * n == q * m + 2 * q;
  }

  lemma OneRound(n: nat, f: nat)
    requires n >= 2
    ensures (n + f) / n > f <==> f == 0
  {
    var q, r := f / n, f % n;
    assert f == q * n + r;
    TwiceFits(q, n);
    DivOf(q + 1, n, r);
    assert (q + 1) * n + r == n + f;
    assert (n + f) / n == q + 1;
  }

  // ----- Smooth weighted round-robin -----

  lemma {:induction false} CountIsTaken(names: seq<string>, w: seq<int>, j: nat, from: nat, n: nat)
    requires |names| == |w| && j < |names| && NoDup(names)
    ensures Count(SmoothDraw(names, w), names[j], from, n) == Taken(w, from + n)[j] - Taken(w, from)[j]
  {
    hide Pay, Winner, Current, Pick, Taken;
    if n > 0 {
      CountIsTaken(names, w, j, from, n - 1);
      OnePick(w, from + n - 1, j);
      assert SmoothDraw(names, w)(from + n - 1) == names[Pick(w, from + n - 1)];
    }
  }

  /** A node is met in spite of fewer draws of others than its weight. */
  lemma {:induction false} SmoothSurvives(names: seq<string>, w: seq<int>, j: nat, from: nat, m: nat, f: nat)
    requires |names| == |w| && j < |names| && NoDup(names) && forall i | 0 <= i < |w| :: w[i] >= 0
    requires 0 < Sum(w) <= m && f < w[j]
    ensures Survives(SmoothDraw(names, w), names[j], from, m, f)
  {
    hide Current, Pick, Taken;
    var draw, W := SmoothDraw(names, w), Sum(w);
    SmoothIsExact(w, from);
    CountIsTaken(names, w, j, from, W);
    CountGrows(draw, names[j], from, W, m + f - W);
    SurvivesExactly(draw, names[j], from, m, f);
  }
}
