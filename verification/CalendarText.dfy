/** The whole seconds of RFC 3339 texts, years 0 to 9999: section 5.6 of RFC 3339 with 'T', in UTC. */
module CalendarText {
  import opened Text
  import opened TimeText

  // ----- The civil date of a day -----

  predicate Leap(y: nat) {
    y % 4 == 0 && (y % 100 != 0 || y % 400 == 0)
  }

  function YearDays(y: nat): nat {
    if Leap(y) then 366 else 365
  }

  function MonthDays(y: nat, m: nat): nat {
    if m == 2 then (if Leap(y) then 29 else 28) else if m == 4 || m == 6 || m == 9 || m == 11 then 30 else 31
  }

  /** The year of the day that many days behind the start of year y, and the days left in it. */
  function YearOf(day: nat, y: nat): (nat, nat)
    decreases day
  {
    if day < YearDays(y) then (y, day) else YearOf(day - YearDays(y), y + 1)
  }

  /** The same for months from m on. */
  function MonthOf(day: nat, y: nat, m: nat): (nat, nat)
    decreases 12 - m
  {
    if m >= 12 || day < MonthDays(y, m) then (m, day) else MonthOf(day - MonthDays(y, m), y, m + 1)
  }

  function DaysOfYears(y: nat, z: nat): nat
    decreases z - y
  {
    if y >= z then 0 else YearDays(y) + DaysOfYears(y + 1, z)
  }

  function DaysOfMonths(y: nat, m: nat, n: nat): nat
    decreases n - m
  {
    if m >= n then 0 else MonthDays(y, m) + DaysOfMonths(y, m + 1, n)
  }

  /** The date names the day: all years, months and days before it add up to it. */
  lemma {:induction false} YearOfIs(day: nat, y: nat)
    ensures var (z, rest) := YearOf(day, y); y <= z && rest < YearDays(z) && day == DaysOfYears(y, z) + rest
    decreases day
  {
    if day >= YearDays(y) { YearOfIs(day - YearDays(y), y + 1); }
  }

  lemma {:induction false} MonthOfIs(day: nat, y: nat, m: nat)
    requires 1 <= m <= 12 && day < DaysOfMonths(y, m, 13)
    ensures var (n, rest) := MonthOf(day, y, m);
            m <= n <= 12 && rest < MonthDays(y, n) && day == DaysOfMonths(y, m, n) + rest
    decreases 12 - m
  {
    hide MonthDays;
    if m < 12 && day >= MonthDays(y, m) {
      MonthOfIs(day - MonthDays(y, m), y, m + 1);
    } else if m == 12 {
      assert DaysOfMonths(y, 13, 13) == 0;
    }
  }

  lemma TwelveMonths(y: nat)
    ensures DaysOfMonths(y, 1, 13) == YearDays(y)
  {
    hide Leap;
    assert DaysOfMonths(y, 11, 13) == 61;
    assert DaysOfMonths(y, 9, 13) == 122;
    assert DaysOfMonths(y, 7, 13) == 184;
    assert DaysOfMonths(y, 5, 13) == 245;
    assert DaysOfMonths(y, 3, 13) == 306;
  }

  lemma MultiplesOf4(z: nat)
    ensures (z + 4) / 4 == (z + 3) / 4 + if z % 4 == 0 then 1 else 0
  {
    var q, r := z / 4, z % 4;
    assert z == 4 * q + r;
  }

  lemma MultiplesOf100(z: nat)
    ensures (z + 100) / 100 == (z + 99) / 100 + if z % 100 == 0 then 1 else 0
  {
    var q, r := z / 100, z % 100;
    assert z == 100 * q + r;
  }

  lemma MultiplesOf400(z: nat)
    ensures (z + 400) / 400 == (z + 399) / 400 + if z % 400 == 0 then 1 else 0
  {
    var q, r := z / 400, z % 400;
    assert z == 400 * q + r;
  }

  lemma {:induction false} OneMoreYear(y: nat, z: nat)
    requires y <= z
    ensures DaysOfYears(y, z + 1) == DaysOfYears(y, z) + YearDays(z)
    decreases z - y
  {
    hide YearDays;
    if y < z {
      OneMoreYear(y + 1, z);
    } else {
      assert DaysOfYears(z + 1, z + 1) == 0;
    }
  }

  /** The days before a year of the Gregorian calendar: 365 for each year, one more for each
      multiple of 4 that is not one of 100, or is one of 400. */
  lemma {:induction false} DaysBeforeYear(z: nat)
    ensures DaysOfYears(0, z) == 365 * z + (z + 3) / 4 - (z + 99) / 100 + (z + 399) / 400
  {
    if z > 0 {
      var y := z - 1;
      DaysBeforeYear(y);
      OneMoreYear(0, y);
      MultiplesOf4(y);
      MultiplesOf100(y);
      MultiplesOf400(y);
      LeapIs(y);
    }
  }

  lemma FourHundreds(y: nat)
    requires y % 400 == 0
    ensures y % 100 == 0
  {
    assert y == 100 * (4 * (y / 400));
  }

  lemma Hundreds(y: nat)
    requires y % 100 == 0
    ensures y % 4 == 0
  {
    assert y == 4 * (25 * (y / 100));
  }

  lemma LeapIs(y: nat)
    ensures YearDays(y) == 365 + (if y % 4 == 0 then 1 else 0) - (if y % 100 == 0 then 1 else 0) + if y % 400 == 0 then 1 else 0
    ensures Leap(y) <==> y % 400 == 0 || (y % 4 == 0 && y % 100 != 0)
  {
    if y % 400 == 0 { FourHundreds(y); }
    if y % 100 == 0 { Hundreds(y); }
  }

  lemma {:induction false} OneMoreMonth(y: nat, m: nat, n: nat)
    requires m <= n
    ensures DaysOfMonths(y, m, n + 1) == DaysOfMonths(y, m, n) + MonthDays(y, n)
    decreases n - m
  {
    hide MonthDays;
    if m < n {
      OneMoreMonth(y, m + 1, n);
    } else {
      assert DaysOfMonths(y, n + 1, n + 1) == 0;
    }
  }

  lemma {:induction false} MonthStart(y: nat, m: nat)
    requires 1 <= m <= 12
    ensures DaysOfMonths(y, 1, m) == [0, 31, 59, 90, 120, 151, 181, 212, 243, 273, 304, 334][m - 1] + if m > 2 && Leap(y) then 1 else 0
  {
    hide Leap, DaysOfMonths;
    if m > 1 {
      MonthStart(y, m - 1);
      OneMoreMonth(y, 1, m - 1);
    } else {
      NoMonths(y);
    }
  }

  lemma NoMonths(y: nat)
    ensures DaysOfMonths(y, 1, 1) == 0
  {}

  /** The days before a month. */
  lemma {:induction false} DaysBeforeMonth(y: nat, m: nat)
    requires 1 <= m <= 12
    ensures DaysOfMonths(y, 1, m) == [0, 31, 59, 90, 120, 151, 181, 212, 243, 273, 304, 334][m - 1]
                                     + if m > 2 && (y % 400 == 0 || (y % 4 == 0 && y % 100 != 0)) then 1 else 0
  {
    hide DaysOfMonths;
    MonthStart(y, m);
    LeapIs(y);
  }

  // ----- The text of a second -----

  predicate Less(a: seq<nat>, b: seq<nat>)
    requires |a| == |b|
  {
    a != [] && (a[0] < b[0] || (a[0] == b[0] && Less(a[1..], b[1..])))
  }

  const DAY: nat := 86400

  /** Year, month, day, hour, minute and second. */
  function Parts(s: nat): (r: seq<nat>)
    ensures |r| == 6
  {
    var (y, rest) := YearOf(s / DAY, 0);
    var (m, d) := MonthOf(rest, y, 1);
    var t := s % DAY;
    [y, m, d + 1, t / 3600, t % 3600 / 60, t % 60]
  }

  const WIDTHS: seq<nat> := [4, 2, 2, 2, 2, 2]
  const SEPARATORS: string := "--T::Z"

  function Pow10(w: nat): nat {
    if w == 0 then 1 else 10 * Pow10(w - 1)
  }

  /** The last w decimal digits. */
  function Pad(x: nat, w: nat): (r: string)
    ensures |r| == w
  {
    if w == 0 then "" else Pad(x / 10, w - 1) + ['0' + (x % 10) as char]
  }

  /** Numbers of these widths, each but the last followed by its separator. */
  function Spell(parts: seq<nat>, widths: seq<nat>, separators: string): string
    requires |parts| == |widths| == |separators|
  {
    if parts == [] then ""
    else if |parts| == 1 then Pad(parts[0], widths[0])
    else Pad(parts[0], widths[0]) + ([separators[0]] + Spell(parts[1..], widths[1..], separators[1..]))
  }

  function RFC3339(s: int): string {
    if s < 0 then "" else Spell(Parts(s), WIDTHS, SEPARATORS)
  }

  lemma {:induction false} PadReads(x: nat, w: nat)
    requires x < Pow10(w)
    ensures (forall c | c in Pad(x, w) :: IsDigit(c)) && Number(Pad(x, w)) == x
  {
    if w > 0 {
      var d, last := Pad(x / 10, w - 1), ['0' + (x % 10) as char];
      PadReads(x / 10, w - 1);
      assert Pad(x, w)[..w - 1] == d && Pad(x, w)[w - 1] == last[0];
    }
  }

  predicate FourDigitYear(s: int) {
    s >= 0 && YearOf(s / DAY, 0).0 <= 9999
  }

  lemma {:induction false} YearOrder(a: nat, b: nat, y: nat)
    requires a < b
    ensures var ((y1, r1), (y2, r2)) := (YearOf(a, y), YearOf(b, y)); y1 < y2 || (y1 == y2 && r1 < r2)
    decreases a
  {
    if a >= YearDays(y) {
      YearOrder(a - YearDays(y), b - YearDays(y), y + 1);
    } else if b >= YearDays(y) {
      YearOfIs(b - YearDays(y), y + 1);
    }
  }

  lemma {:induction false} MonthOrder(a: nat, b: nat, y: nat, m: nat)
    requires a < b && m <= 12
    ensures var ((m1, r1), (m2, r2)) := (MonthOf(a, y, m), MonthOf(b, y, m)); m1 < m2 || (m1 == m2 && r1 < r2)
    decreases 12 - m
  {
    hide MonthDays;
    if m < 12 {
      if a >= MonthDays(y, m) {
        MonthOrder(a - MonthDays(y, m), b - MonthDays(y, m), y, m + 1);
      } else if b >= MonthDays(y, m) {
        MonthGrows(b - MonthDays(y, m), y, m + 1);
      }
    }
  }

  lemma {:induction false} MonthGrows(a: nat, y: nat, m: nat)
    ensures MonthOf(a, y, m).0 >= m
    decreases 12 - m
  {
    if m < 12 && a >= MonthDays(y, m) { MonthGrows(a - MonthDays(y, m), y, m + 1); }
  }

  lemma ClockValue(t: nat)
    ensures t == 3600 * (t / 3600) + 60 * (t % 3600 / 60) + t % 60 && t % 3600 / 60 < 60 && t % 60 < 60
  {
    var r := t % 3600;
    assert t == 3600 * (t / 3600) + r;
    assert r == 60 * (r / 60) + r % 60;
    assert r % 60 == t % 60;
  }

  lemma LessOfThree(h: nat, i: nat, j: nat, h': nat, i': nat, j': nat)
    requires 3600 * h + 60 * i + j < 3600 * h' + 60 * i' + j' && i < 60 && j < 60 && i' < 60 && j' < 60
    ensures Less([h, i, j], [h', i', j'])
  {
    var x, z := [h, i, j], [h', i', j'];
    assert x[1..] == [i, j] && z[1..] == [i', j'];
    assert x[1..][1..] == [j] && z[1..][1..] == [j'];
    assert Less([j], [j']) <==> j < j';
  }

  lemma ClockOrder(a: nat, b: nat)
    requires a < b
    ensures Less([a / 3600, a % 3600 / 60, a % 60], [b / 3600, b % 3600 / 60, b % 60])
  {
    hide Less;
    ClockValue(a);
    ClockValue(b);
    LessOfThree(a / 3600, a % 3600 / 60, a % 60, b / 3600, b % 3600 / 60, b % 60);
  }

  /** Later seconds have later parts. */
  lemma {:induction false} PartsOrder(a: nat, b: nat)
    requires a < b
    ensures Less(Parts(a), Parts(b))
  {
    hide YearOf, MonthOf;
    var ((y1, r1), (y2, r2)) := (YearOf(a / DAY, 0), YearOf(b / DAY, 0));
    var ((m1, d1), (m2, d2)) := (MonthOf(r1, y1, 1), MonthOf(r2, y2, 1));
    var p, q := Parts(a), Parts(b);
    assert p[1..][0] == m1 && q[1..][0] == m2;
    assert p[1..][1..][0] == d1 + 1 && q[1..][1..][0] == d2 + 1;
    var x, z := a % DAY, b % DAY;
    assert p[1..][1..][1..] == [x / 3600, x % 3600 / 60, x % 60];
    assert q[1..][1..][1..] == [z / 3600, z % 3600 / 60, z % 60];
    if a / DAY < b / DAY {
      YearOrder(a / DAY, b / DAY, 0);
      if y1 == y2 {
        MonthOrder(r1, r2, y1, 1);
        if m1 == m2 { assert Less(p[1..][1..], q[1..][1..]); }
        assert Less(p[1..], q[1..]);
      }
    } else {
      ClockOrder(x, z);
      assert Less(p[1..][1..], q[1..][1..]);
      assert Less(p[1..], q[1..]);
    }
  }

  /** Every part fits its width. */
  lemma {:induction false} PartsFit(s: nat)
    requires FourDigitYear(s)
    ensures forall i | 0 <= i < 6 :: Parts(s)[i] < Pow10(WIDTHS[i])
  {
    var (y, rest) := YearOf(s / DAY, 0);
    YearOfIs(s / DAY, 0);
    TwelveMonths(y);
    MonthOfIs(rest, y, 1);
    assert Pow10(1) == 10 && Pow10(2) == 100 && Pow10(3) == 1000 && Pow10(4) == 10000;
  }

  lemma {:induction false} PadOrder(a: nat, b: nat, w: nat)
    requires a < b < Pow10(w)
    ensures Before(Pad(a, w), Pad(b, w))
  {
    var p, q := Pad(a / 10, w - 1), Pad(b / 10, w - 1);
    var c, d := ['0' + (a % 10) as char], ['0' + (b % 10) as char];
    if a / 10 < b / 10 {
      PadOrder(a / 10, b / 10, w - 1);
      BeforeExtends(p, q, c, d);
    } else {
      BeforeWithPrefix(p, c, d);
    }
  }

  lemma {:induction false} SpellOrder(a: seq<nat>, b: seq<nat>, widths: seq<nat>, separators: string)
    requires |a| == |b| == |widths| == |separators| && Less(a, b)
    requires forall i | 0 <= i < |b| :: a[i] < Pow10(widths[i]) && b[i] < Pow10(widths[i])
    ensures Before(Spell(a, widths, separators), Spell(b, widths, separators))
  {
    hide Pow10, Pad;
    var p, q := Pad(a[0], widths[0]), Pad(b[0], widths[0]);
    if |a| == 1 {
      assert a[1..] == [];
      PadOrder(a[0], b[0], widths[0]);
    } else {
      var sep := [separators[0]];
      var x, y := Spell(a[1..], widths[1..], separators[1..]), Spell(b[1..], widths[1..], separators[1..]);
      if a[0] < b[0] {
        PadOrder(a[0], b[0], widths[0]);
        BeforeExtends(p, q, sep + x, sep + y);
      } else {
        SpellOrder(a[1..], b[1..], widths[1..], separators[1..]);
        BeforeWithPrefix(sep, x, y);
        BeforeWithPrefix(p, sep + x, sep + y);
      }
    }
  }

  lemma SpellStep(x: nat, parts: seq<nat>, w: nat, widths: seq<nat>, c: char, separators: string)
    requires |parts| == |widths| == |separators| && parts != []
    ensures Spell([x] + parts, [w] + widths, [c] + separators) == Pad(x, w) + ([c] + Spell(parts, widths, separators))
  {
    assert ([x] + parts)[1..] == parts && ([w] + widths)[1..] == widths && ([c] + separators)[1..] == separators;
  }

  lemma ClockIs(h: nat, i: nat, n: nat)
    ensures Spell([h, i, n], [2, 2, 2], "::Z") == Pad(h, 2) + (":" + (Pad(i, 2) + (":" + Pad(n, 2))))
  {
    assert Spell([n], [2], "Z") == Pad(n, 2);
    hide Pad, Spell;
    SpellStep(i, [n], 2, [2], ':', "Z");
    SpellStep(h, [i, n], 2, [2, 2], ':', ":Z");
    assert [i] + [n] == [i, n] && [2] + [2] == [2, 2] && [':'] + "Z" == ":Z";
    assert [h] + [i, n] == [h, i, n] && [2] + [2, 2] == [2, 2, 2] && [':'] + ":Z" == "::Z";
  }

  lemma SpellIs(p: seq<nat>)
    requires |p| == 6
    ensures Spell(p, WIDTHS, SEPARATORS)
            == Pad(p[0], 4) + ("-" + (Pad(p[1], 2) + ("-" + (Pad(p[2], 2) + ("T" + (Pad(p[3], 2) + (":" + (Pad(p[4], 2) + (":" + Pad(p[5], 2))))))))))
  {
    hide Pad, Spell;
    ClockIs(p[3], p[4], p[5]);
    var clock := [p[3], p[4], p[5]];
    SpellStep(p[2], clock, 2, [2, 2, 2], 'T', "::Z");
    SpellStep(p[1], [p[2]] + clock, 2, [2] + [2, 2, 2], '-', ['T'] + "::Z");
    SpellStep(p[0], [p[1]] + ([p[2]] + clock), 4, [2] + ([2] + [2, 2, 2]), '-', ['-'] + (['T'] + "::Z"));
    assert p == [p[0]] + ([p[1]] + ([p[2]] + clock));
    assert WIDTHS == [4] + ([2] + ([2] + [2, 2, 2])) && SEPARATORS == ['-'] + (['-'] + (['T'] + "::Z"));
  }

  /** Reading a text of the form year-month-dayThour:minute:second gives the second back: the days
      before the date, and the time of day. */
  lemma {:induction false} RFC3339Reads(s: int) returns (year: string, month: string, day: string, hour: string, minute: string, second: string)
    requires FourDigitYear(s)
    ensures RFC3339(s) == year + ("-" + (month + ("-" + (day + ("T" + (hour + (":" + (minute + (":" + second)))))))))
    ensures |year| == 4 && |month| == |day| == |hour| == |minute| == |second| == 2
    ensures forall c | c in year + month + day + hour + minute + second :: IsDigit(c)
    ensures 1 <= Number(month) <= 12 && 1 <= Number(day) <= MonthDays(Number(year), Number(month))
    ensures Number(hour) < 24 && Number(minute) < 60 && Number(second) < 60
    ensures s == 86400 * (DaysOfYears(0, Number(year)) + DaysOfMonths(Number(year), 1, Number(month)) + Number(day) - 1)
                 + 3600 * Number(hour) + 60 * Number(minute) + Number(second)
  {
    hide Spell, Pad, Pow10, DaysOfYears, DaysOfMonths, MonthDays, YearOf, MonthOf;
    var p := Parts(s);
    SpellIs(p);
    PartsFit(s);
    year, month, day := Pad(p[0], 4), Pad(p[1], 2), Pad(p[2], 2);
    hour, minute, second := Pad(p[3], 2), Pad(p[4], 2), Pad(p[5], 2);
    assert WIDTHS[0] == 4 && WIDTHS[1] == WIDTHS[2] == WIDTHS[3] == WIDTHS[4] == WIDTHS[5] == 2;
    PadReads(p[0], 4);
    PadReads(p[1], 2);
    PadReads(p[2], 2);
    PadReads(p[3], 2);
    PadReads(p[4], 2);
    PadReads(p[5], 2);
    PartsAdd(s);
  }

  lemma {:induction false} PartsAdd(s: nat)
    ensures var p := Parts(s);
            && 1 <= p[1] <= 12 && 1 <= p[2] <= MonthDays(p[0], p[1]) && p[3] < 24 && p[4] < 60 && p[5] < 60
            && s == 86400 * (DaysOfYears(0, p[0]) + DaysOfMonths(p[0], 1, p[1]) + p[2] - 1) + 3600 * p[3] + 60 * p[4] + p[5]
  {
    hide DaysOfYears, DaysOfMonths, MonthDays, YearOf, MonthOf, YearDays;
    var (y, rest) := YearOf(s / DAY, 0);
    YearOfIs(s / DAY, 0);
    TwelveMonths(y);
    MonthOfIs(rest, y, 1);
    var (m, d) := MonthOf(rest, y, 1);
    assert Parts(s)[0] == y && Parts(s)[1] == m && Parts(s)[2] == d + 1;
    ClockValue(s % DAY);
    assert s == DAY * (s / DAY) + s % DAY;
  }

  lemma {:induction false} YearsGrow(z: nat, z': nat)
    requires z <= z'
    ensures DaysOfYears(0, z) <= DaysOfYears(0, z')
    decreases z' - z
  {
    hide YearDays;
    if z < z' {
      OneMoreYear(0, z);
      YearsGrow(z + 1, z');
    }
  }

  /** Years 0 to 9999 are the first 3652425 days. */
  lemma {:induction false} FourDigitYearExactly(s: int)
    ensures FourDigitYear(s) <==> 0 <= s < 86400 * 3652425
  {
    hide DaysOfYears, YearOf;
    if s >= 0 {
      var (y, rest) := YearOf(s / DAY, 0);
      YearOfIs(s / DAY, 0);
      DaysBeforeYear(10000);
      assert DaysOfYears(0, 10000) == 3652425;
      OneMoreYear(0, y);
      assert s == 86400 * (s / 86400) + s % 86400;
      if y <= 9999 { YearsGrow(y + 1, 10000); } else { YearsGrow(10000, y); }
    }
  }

  /** The texts of whole seconds are 19 characters long and ordered like the seconds. */
  lemma {:induction false} RFC3339IsCalendar(secs: set<int>)
    requires forall s | s in secs :: FourDigitYear(s)
    ensures Calendar(RFC3339, secs)
  {
    hide Spell, Parts, Before, Less, Pow10;
    forall s | s in secs ensures |RFC3339(s)| == 19 { SpellIs(Parts(s)); }
    forall s, t | s in secs && t in secs && s < t ensures Before(RFC3339(s), RFC3339(t)) {
      PartsOrder(s, t);
      PartsFit(s);
      PartsFit(t);
      SpellOrder(Parts(s), Parts(t), WIDTHS, SEPARATORS);
    }
  }

  /** So for the texts the store writes, in years 0 to 9999: comparing them agrees with comparing
      the instants exactly when the fractions of one second do not clash. */
  lemma {:induction false} StoredOrderExactly(a: Instant, b: Instant)
    requires FourDigitYear(a.sec) && FourDigitYear(b.sec) && Canonical(a) && Canonical(b)
    ensures (TextAtMost(Format(RFC3339, a), Format(RFC3339, b)) <==> NotAfter(a, b)) <==> !Clash(a, b)
  {
    hide Value, RFC3339, FourDigitYear, Canonical, Format;
    RFC3339IsCalendar({a.sec, b.sec});
    TextOrderExactly(RFC3339, {a.sec, b.sec}, a, b);
  }
}
