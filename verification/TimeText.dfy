/** Times as the SQLite store keeps and compares them: RFC 3339 texts with the trailing zeros of
    the fraction removed, compared as texts (internal/store/store.go, filterTimeArg). */
module TimeText {
  import opened Text

  type Digit = d: int | 0 <= d <= 9

  /** A UTC instant: whole seconds, and the fraction as decimal digits without trailing zeros
      (Go keeps at most nine). */
  datatype Instant = Instant(sec: int, frac: seq<Digit>)

  predicate Canonical(t: Instant) {
    |t.frac| <= 9 && (t.frac != [] ==> t.frac[|t.frac| - 1] != 0)
  }

  /** The fraction's value. */
  function Value(frac: seq<Digit>): real {
    if frac == [] then 0.0 else (frac[0] as real + Value(frac[1..])) / 10.0
  }

  /** a is not after b. */
  predicate NotAfter(a: Instant, b: Instant) {
    a.sec < b.sec || (a.sec == b.sec && Value(a.frac) <= Value(b.frac))
  }

  /** The text of a whole second, of fixed width and ordered like the seconds: years 0 to 9999. */
  type Stamp = int -> string

  ghost predicate Calendar(stamp: Stamp, secs: set<int>) {
    && (forall s | s in secs :: |stamp(s)| == 19)
    && forall s, t | s in secs && t in secs && s < t :: Before(stamp(s), stamp(t))
  }

  function Digits(frac: seq<Digit>): (r: string)
    ensures |r| == |frac|
  {
    seq(|frac|, i requires 0 <= i < |frac| => '0' + frac[i] as char)
  }

  /** What follows the seconds. */
  function Tail(frac: seq<Digit>): string {
    (if frac == [] then "" else "." + Digits(frac)) + "Z"
  }

  /** The text of a fraction: a point, its digits and Z, or Z alone. */
  lemma TailExactly(frac: seq<Digit>)
    ensures frac == [] ==> Tail(frac) == "Z"
    ensures frac != [] ==> |Tail(frac)| == |frac| + 2 && Tail(frac)[0] == '.' && Tail(frac)[|frac| + 1] == 'Z'
    ensures frac != [] ==> forall i | 0 <= i < |frac| :: Tail(frac)[i + 1] == '0' + frac[i] as char
  {}

  function Format(stamp: Stamp, t: Instant): string {
    stamp(t.sec) + Tail(t.frac)
  }

  /** SQLite's <= on texts. */
  predicate TextAtMost(a: string, b: string) {
    a == b || Before(a, b)
  }

  /** The two fractions of one second, one a proper beginning of the other. */
  predicate Clash(a: Instant, b: Instant) {
    a.sec == b.sec && (a.frac < b.frac || b.frac < a.frac)
  }

  lemma {:induction false} ValueRange(frac: seq<Digit>)
    ensures 0.0 <= Value(frac) < 1.0
    ensures frac != [] && frac[|frac| - 1] != 0 ==> Value(frac) > 0.0
  {
    if frac != [] {
      ValueRange(frac[1..]);
      if |frac| > 1 { assert frac[1..][|frac| - 2] == frac[|frac| - 1]; }
    }
  }

  ghost predicate NoTrailingZero(frac: seq<Digit>) {
    frac != [] ==> frac[|frac| - 1] != 0
  }

  lemma RestNoTrailingZero(frac: seq<Digit>)
    requires NoTrailingZero(frac) && frac != []
    ensures NoTrailingZero(frac[1..])
  {
    if |frac| > 1 { assert frac[1..][|frac| - 2] == frac[|frac| - 1]; }
  }

  lemma DigitChars(a: Digit, b: Digit)
    ensures ('0' + a as char) < ('0' + b as char) <==> a < b
    ensures ('0' + a as char) == ('0' + b as char) <==> a == b
    ensures ('0' + a as char) < 'Z'
  {}

  /** Behind the point: a proper beginning is the smaller number but the larger text; otherwise
      texts and numbers agree. */
  lemma {:induction false} FractionOrder(a: seq<Digit>, b: seq<Digit>)
    requires NoTrailingZero(a) && NoTrailingZero(b)
    ensures a < b ==> Value(a) < Value(b) && Before(Digits(b) + "Z", Digits(a) + "Z")
    ensures !(a <= b) && !(b <= a) ==> (Before(Digits(a) + "Z", Digits(b) + "Z") <==> Value(a) < Value(b))
    ensures !(a <= b) && !(b <= a) ==> Value(a) != Value(b)
  {
    ValueRange(a);
    ValueRange(b);
    var x, y := Digits(a) + "Z", Digits(b) + "Z";
    if a == [] {
      if b != [] { DigitChars(b[0], b[0]); }
    } else if b != [] {
      var c, d := a[1..], b[1..];
      ValueRange(c);
      ValueRange(d);
      DigitChars(a[0], b[0]);
      RestNoTrailingZero(a);
      RestNoTrailingZero(b);
      assert x[1..] == Digits(c) + "Z" && y[1..] == Digits(d) + "Z";
      if a[0] == b[0] {
        FractionOrder(c, d);
        assert a == [a[0]] + c && b == [b[0]] + d;
      }
    }
  }

  lemma {:induction false} BeforeWithPrefix(p: string, a: string, b: string)
    ensures Before(p + a, p + b) <==> Before(a, b)
  {
    if p == "" {
      assert p + a == a && p + b == b;
    } else {
      BeforeWithPrefix(p[1..], a, b);
      assert (p + a)[1..] == p[1..] + a && (p + b)[1..] == p[1..] + b;
    }
  }

  lemma {:induction false} BeforeExtends(p: string, q: string, a: string, b: string)
    requires |p| == |q| && Before(p, q)
    ensures Before(p + a, q + b)
  {
    assert p != "";
    if p[0] == q[0] {
      BeforeExtends(p[1..], q[1..], a, b);
      assert (p + a)[1..] == p[1..] + a && (q + b)[1..] == q[1..] + b;
    }
  }

  /** Within one second the comparison of texts is right exactly when the fractions do not clash. */
  lemma {:induction false} TailOrderExactly(a: seq<Digit>, b: seq<Digit>)
    requires NoTrailingZero(a) && NoTrailingZero(b)
    ensures (TextAtMost(Tail(a), Tail(b)) <==> Value(a) <= Value(b)) <==> !(a < b || b < a)
  {
    hide Value;
    BeforeIsOrder(Tail(a), Tail(b));
    FractionOrder(a, b);
    FractionOrder(b, a);
    assert a <= b <==> a < b || a == b;
    assert b <= a <==> b < a || a == b;
    if a == b {
    } else if a != [] && b != [] {
      BeforeWithPrefix(".", Digits(a) + "Z", Digits(b) + "Z");
      BeforeWithPrefix(".", Digits(b) + "Z", Digits(a) + "Z");
      assert Tail(a) == "." + (Digits(a) + "Z") && Tail(b) == "." + (Digits(b) + "Z");
    } else if a != [] {
      assert Tail(a)[0] == '.' && Tail(b) == "Z";
    } else if b != [] {
      assert Tail(b)[0] == '.' && Tail(a) == "Z";
    }
  }

  /** Comparing the stored texts agrees with comparing the instants exactly when the two are not
      in the same second with one fraction a proper beginning of the other (12:00:05Z against
      12:00:05.5Z, or .5 against .51). */
  lemma {:induction false} TextOrderExactly(stamp: Stamp, secs: set<int>, a: Instant, b: Instant)
    requires Calendar(stamp, secs) && a.sec in secs && b.sec in secs && Canonical(a) && Canonical(b)
    ensures (TextAtMost(Format(stamp, a), Format(stamp, b)) <==> NotAfter(a, b)) <==> !Clash(a, b)
  {
    hide Value, Tail;
    if a.sec == b.sec {
      TailOrderExactly(a.frac, b.frac);
      BeforeWithPrefix(stamp(a.sec), Tail(a.frac), Tail(b.frac));
      assert Format(stamp, a) == Format(stamp, b) <==> Tail(a.frac) == Tail(b.frac) by {
        assert Format(stamp, a)[|stamp(a.sec)|..] == Tail(a.frac) && Format(stamp, b)[|stamp(b.sec)|..] == Tail(b.frac);
      }
    } else {
      BeforeIsOrder(Format(stamp, a), Format(stamp, b));
      if a.sec < b.sec {
        BeforeExtends(stamp(a.sec), stamp(b.sec), Tail(a.frac), Tail(b.frac));
      } else {
        BeforeExtends(stamp(b.sec), stamp(a.sec), Tail(b.frac), Tail(a.frac));
      }
    }
  }

  /** A row half a second after the start of a window that starts on a whole second is lost. */
  lemma {:induction false} WholeSecondStartLosesRow(stamp: Stamp, sec: int)
    requires Calendar(stamp, {sec})
    ensures var from, row := Instant(sec, []), Instant(sec, [5]);
            NotAfter(from, row) && !TextAtMost(Format(stamp, from), Format(stamp, row))
  {
    var from, row := Instant(sec, []), Instant(sec, [5]);
    ValueRange(row.frac);
    TextOrderExactly(stamp, {sec}, from, row);
  }
}
