/** The string functions of Go's standard library that the modelled code calls. */
module Text {

  /** Unicode White_Space, as strings.TrimSpace has it. */
  predicate IsSpace(c: char) {
    c == ' ' || ('\t' <= c <= '\r') || c == '\U{0085}' || c == '\U{00A0}' || c == '\U{1680}'
    || ('\U{2000}' <= c <= '\U{200A}') || c == '\U{2028}' || c == '\U{2029}' || c == '\U{202F}'
    || c == '\U{205F}' || c == '\U{3000}'
  }

  /** The white-space characters one by one. */
  lemma SpacesAre(c: char)
    ensures IsSpace(c) <==> c in "\t\n\U{000B}\U{000C}\r \U{0085}\U{00A0}\U{1680}\U{2000}\U{2001}\U{2002}\U{2003}\U{2004}"
                                 + "\U{2005}\U{2006}\U{2007}\U{2008}\U{2009}\U{200A}\U{2028}\U{2029}\U{202F}\U{205F}\U{3000}"
  {}

  function TrimLeft(s: string): string {
    if s != "" && IsSpace(s[0]) then TrimLeft(s[1..]) else s
  }

  function TrimRight(s: string): string {
    if s != "" && IsSpace(s[|s| - 1]) then TrimRight(s[..|s| - 1]) else s
  }

  /** strings.TrimSpace */
  function TrimSpace(s: string): string {
    TrimRight(TrimLeft(s))
  }

  /** No white space at either end. */
  predicate Trimmed(s: string) {
    s == "" || (!IsSpace(s[0]) && !IsSpace(s[|s| - 1]))
  }

  lemma {:induction false} TrimRightFixes(s: string)
    ensures TrimRight(s) == s <==> s == "" || !IsSpace(s[|s| - 1])
    ensures |TrimRight(s)| <= |s|
    ensures s != "" && !IsSpace(s[0]) ==> TrimRight(s) != "" && TrimRight(s)[0] == s[0]
  {
    if s != "" && IsSpace(s[|s| - 1]) { TrimRightFixes(s[..|s| - 1]); }
  }

  lemma {:induction false} TrimLeftFixes(s: string)
    ensures TrimLeft(s) == s <==> s == "" || !IsSpace(s[0])
    ensures TrimLeft(s) == s || |TrimLeft(s)| < |s|
  {
    if s != "" && IsSpace(s[0]) { TrimLeftFixes(s[1..]); }
  }

  /** TrimSpace leaves a string alone exactly when it is trimmed. */
  lemma {:induction false} TrimSpaceFixes(s: string)
    ensures TrimSpace(s) == s <==> Trimmed(s)
  {
    TrimLeftFixes(s);
    TrimRightFixes(TrimLeft(s));
    TrimRightFixes(s);
  }

  lemma {:induction false} TrimRightParts(s: string, c: char)
    ensures TrimRight(s) == "" || !IsSpace(TrimRight(s)[|TrimRight(s)| - 1])
    ensures TrimRight(s) != "" ==> TrimRight(s)[0] == s[0]
    ensures c in TrimRight(s) ==> c in s
    ensures c in s && !IsSpace(c) ==> c in TrimRight(s)
  {
    if s != "" && IsSpace(s[|s| - 1]) {
      assert s == s[..|s| - 1] + [s[|s| - 1]];
      TrimRightParts(s[..|s| - 1], c);
    }
  }

  lemma {:induction false} TrimLeftParts(s: string, c: char)
    ensures TrimLeft(s) == "" || !IsSpace(TrimLeft(s)[0])
    ensures c in TrimLeft(s) ==> c in s
    ensures c in s && !IsSpace(c) ==> c in TrimLeft(s)
  {
    if s != "" && IsSpace(s[0]) {
      assert s == [s[0]] + s[1..];
      TrimLeftParts(s[1..], c);
    }
  }

  /** TrimSpace gives a trimmed string; it adds no character and loses white space only. */
  lemma {:induction false} TrimSpaceTrims(s: string, c: char)
    ensures Trimmed(TrimSpace(s))
    ensures c in TrimSpace(s) ==> c in s
    ensures c in s && !IsSpace(c) ==> c in TrimSpace(s)
  {
    TrimLeftParts(s, c);
    TrimRightParts(TrimLeft(s), c);
  }

  /** What TrimSpace gives: the text between the white space at both ends. */
  lemma {:induction false} TrimSpaceExactly(left: string, mid: string, right: string)
    requires (forall c | c in left :: IsSpace(c)) && forall c | c in right :: IsSpace(c)
    requires mid != "" ==> !IsSpace(mid[0]) && !IsSpace(mid[|mid| - 1])
    ensures TrimSpace(left + mid + right) == mid
  {
    hide IsSpace;
    TrimLeftGives(left, mid + right);
    assert left + mid + right == left + (mid + right);
    if mid == "" {
      assert mid + right == right;
      assert right == right + "";
      TrimLeftGives(right, "");
      TrimLeftStops(right);
    } else {
      TrimRightGives(mid, right);
    }
  }

  lemma {:induction false} TrimLeftGives(left: string, rest: string)
    requires forall c | c in left :: IsSpace(c)
    ensures TrimLeft(left + rest) == TrimLeft(rest)
  {
    hide IsSpace;
    if left == "" {
      assert left + rest == rest;
    } else {
      assert left[0] in left && (left + rest)[1..] == left[1..] + rest;
      TrimLeftGives(left[1..], rest);
    }
  }

  lemma {:induction false} TrimLeftStops(blank: string)
    requires forall c | c in blank :: IsSpace(c)
    ensures TrimSpace(blank) == ""
  {
    hide IsSpace;
    TrimLeftGives(blank, "");
    assert blank + "" == blank;
  }

  lemma {:induction false} TrimRightGives(mid: string, right: string)
    requires (forall c | c in right :: IsSpace(c)) && mid != "" && !IsSpace(mid[|mid| - 1])
    ensures TrimRight(mid + right) == mid
  {
    hide IsSpace;
    if right == "" {
      assert mid + right == mid;
    } else {
      assert right[|right| - 1] in right && (mid + right)[..|mid + right| - 1] == mid + right[..|right| - 1];
      TrimRightGives(mid, right[..|right| - 1]);
    }
  }

  /** strings.TrimRight(s, "/") */
  function TrimSlashes(s: string): (r: string)
    ensures r <= s && (r == "" || r[|r| - 1] != '/')
    ensures forall i | |r| <= i < |s| :: s[i] == '/'
  {
    if s != "" && s[|s| - 1] == '/' then TrimSlashes(s[..|s| - 1]) else s
  }

  /** strings.HasPrefix */
  predicate HasPrefix(s: string, p: string) {
    p <= s
  }

  /** Lexicographic order by code point, which is Go's order of UTF-8 strings. */
  predicate Before(a: string, b: string) {
    b != [] && (a == [] || a[0] < b[0] || (a[0] == b[0] && Before(a[1..], b[1..])))
  }

  /** The first difference is at i, and a is smaller there. */
  predicate SmallerAt(a: string, b: string, i: nat) {
    i < |a| && i < |b| && a[..i] == b[..i] && a[i] < b[i]
  }

  lemma SmallerLater(a: string, b: string, i: nat)
    requires a != "" && b != ""
    ensures SmallerAt(a, b, i + 1) <==> a[0] == b[0] && SmallerAt(a[1..], b[1..], i)
  {
    if i < |a| - 1 && i < |b| - 1 {
      assert a[..i + 1] == [a[0]] + a[1..][..i] && b[..i + 1] == [b[0]] + b[1..][..i];
      assert a[..i + 1] == b[..i + 1] ==> a[..i + 1][0] == b[..i + 1][0] && a[..i + 1][1..] == b[..i + 1][1..];
      assert a[1..][..i] == a[..i + 1][1..] && b[1..][..i] == b[..i + 1][1..];
    }
  }

  /** That is: a proper beginning, or smaller at the first difference. */
  lemma {:induction false} BeforeExactly(a: string, b: string)
    ensures Before(a, b) <==> a < b || exists i: nat :: SmallerAt(a, b, i)
  {
    if a != "" && b != "" {
      var c, d := a[1..], b[1..];
      assert a == [a[0]] + c && b == [b[0]] + d;
      assert a < b <==> a[0] == b[0] && c < d;
      BeforeExactly(c, d);
      if i: nat :| SmallerAt(c, d, i) { SmallerLater(a, b, i); }
      if i: nat :| SmallerAt(a, b, i) && i > 0 { SmallerLater(a, b, i - 1); }
      assert SmallerAt(a, b, 0) <==> a[0] < b[0];
    }
  }

  lemma BeforeIsOrder(a: string, b: string)
    ensures !(Before(a, b) && Before(b, a))
    ensures a != b ==> Before(a, b) || Before(b, a)
  {
    if a != [] && b != [] && a[0] == b[0] {
      BeforeIsOrder(a[1..], b[1..]);
      assert a == [a[0]] + a[1..] && b == [b[0]] + b[1..];
    }
  }

  lemma BeforeChains(a: string, b: string, c: string)
    requires Before(a, b) && Before(b, c)
    ensures Before(a, c)
  {
    if a != [] && a[0] == b[0] == c[0] {
      BeforeChains(a[1..], b[1..], c[1..]);
    }
  }

  // ----- Decimal numbers -----

  predicate IsDigit(c: char) {
    '0' <= c <= '9'
  }

  /** The number decimal digits stand for. */
  function Number(digits: string): nat
    requires forall c | c in digits :: IsDigit(c)
  {
    if digits == "" then 0
    else
      assert IsDigit(digits[|digits| - 1]);
      10 * Number(digits[..|digits| - 1]) + (digits[|digits| - 1] - '0') as nat
  }

  /** strings.Join, and join of JavaScript. */
  function Join(parts: seq<string>, sep: string): string {
    if parts == [] then "" else if |parts| == 1 then parts[0] else parts[0] + (sep + Join(parts[1..], sep))
  }
}
