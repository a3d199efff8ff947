/** Notions shared by the component models. */
module Common {

  datatype Option<+T> = None | Some(value: T)

  /** No value occurs twice. */
  ghost predicate NoDup<T>(q: seq<T>) {
    forall i, j | 0 <= i < j < |q| :: q[i] != q[j]
  }

  /** The values of a sequence. */
  ghost function Elements<T>(q: seq<T>): set<T> {
    set x | x in q
  }

  lemma ElementsAppend<T>(q: seq<T>, x: T)
    ensures Elements(q + [x]) == Elements(q) + {x}
  {
    assert forall y :: y in q + [x] <==> y in q || y == x;
  }

  /** A sequence without repetitions is no longer than any finite set holding its values. */
  lemma {:induction false} NoDupFits<T>(q: seq<T>, s: set<T>)
    requires NoDup(q) && forall x | x in q :: x in s
    ensures |q| <= |s|
  {
    if q != [] {
      var last := q[|q| - 1];
      assert last in q;
      forall x | x in q[..|q| - 1] ensures x in s - {last} {
        var i :| 0 <= i < |q| - 1 && q[i] == x;
      }
      NoDupFits(q[..|q| - 1], s - {last});
    }
  }

  /** It has as many values as it is long. */
  lemma {:induction false} NoDupCounts<T>(q: seq<T>)
    requires NoDup(q)
    ensures |Elements(q)| == |q|
  {
    if q != [] {
      var rest, last := q[..|q| - 1], q[|q| - 1];
      NoDupCounts(rest);
      assert q == rest + [last];
      ElementsAppend(rest, last);
      assert last !in Elements(rest);
    }
  }
}
