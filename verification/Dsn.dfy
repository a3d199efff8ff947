/** Printing and parsing key=value connection strings (internal/db/database.go). */
module Dsn {
  import opened Common
  import opened Text

  type KV = map<string, string>

  // ----- Splitting -----

  /** The fields of the rest of a string, with cur collected so far. */
  function Fields(s: string, cur: string, inQuote: bool): seq<string> {
    if s == "" then (if cur != "" then [cur] else [])
    else if s[0] == '\'' then Fields(s[1..], cur + [s[0]], !inQuote)
    else if s[0] == ' ' && !inQuote then (if cur != "" then [cur] else []) + Fields(s[1..], "", false)
    else Fields(s[1..], cur + [s[0]], inQuote)
  }

  method SplitDSNFields(dsn: string) returns (fields: seq<string>)
    ensures fields == Fields(dsn, "", false)
  {
    fields := [];
    var cur := "";
    var inQuote := false;
    for i := 0 to |dsn|
      invariant fields + Fields(dsn[i..], cur, inQuote) == Fields(dsn, "", false)
    {
      var r := dsn[i];
      assert dsn[i..][1..] == dsn[i + 1..];
      if r == '\'' {
        inQuote := !inQuote;
        cur := cur + [r];
      } else if r == ' ' && !inQuote {
        if cur != "" {
          fields := fields + [cur];
          cur := "";
        }
      } else {
        cur := cur + [r];
      }
    }
    if cur != "" { fields := fields + [cur]; }
  }

  function Quotes(s: string): nat {
    multiset(s)['\'']
  }

  /** Where quotes open and close in turn, every space of p stands inside them. */
  ghost predicate SpacesInside(p: string, inQuote: bool) {
    forall i | 0 <= i < |p| && p[i] == ' ' :: Quotes(p[..i]) % 2 == if inQuote then 0 else 1
  }

  lemma QuotesMore(c: char, s: string)
    ensures Quotes([c] + s) == Quotes(s) + if c == '\'' then 1 else 0
  {}

  lemma InsideRest(p: string, inQuote: bool)
    requires p != "" && SpacesInside(p, inQuote)
    ensures SpacesInside(p[1..], if p[0] == '\'' then !inQuote else inQuote)
    ensures Quotes(p) == Quotes(p[1..]) + if p[0] == '\'' then 1 else 0
    ensures p[0] == ' ' ==> inQuote
  {
    hide Quotes;
    assert p == [p[0]] + p[1..];
    QuotesMore(p[0], p[1..]);
    assert p[..0] == "" && Quotes("") == 0 by { NoQuotes(); }
    forall i | 0 <= i < |p[1..]| && p[1..][i] == ' '
      ensures Quotes(p[1..][..i]) % 2 == if (if p[0] == '\'' then !inQuote else inQuote) then 0 else 1
    {
      assert p[..i + 1] == [p[0]] + p[1..][..i] && p[i + 1] == ' ';
      QuotesMore(p[0], p[1..][..i]);
    }
  }

  /** Such a text is collected as it is. */
  lemma {:induction false} Collected(p: string, rest: string, cur: string, inQuote: bool)
    requires SpacesInside(p, inQuote)
    ensures Fields(p + rest, cur, inQuote) == Fields(rest, cur + p, if Quotes(p) % 2 == 1 then !inQuote else inQuote)
  {
    hide SpacesInside, Quotes;
    if p == "" {
      assert p + rest == rest && cur + p == cur && Quotes(p) == 0 by { NoQuotes(); }
    } else {
      InsideRest(p, inQuote);
      assert (p + rest)[0] == p[0] && (p + rest)[1..] == p[1..] + rest;
      Collected(p[1..], rest, cur + [p[0]], if p[0] == '\'' then !inQuote else inQuote);
      assert cur + [p[0]] + p[1..] == cur + p;
    }
  }

  lemma NoQuotes()
    ensures Quotes("") == 0
  {}

  lemma {:induction false} GapSkipped(gap: string, rest: string)
    requires forall c | c in gap :: c == ' '
    ensures Fields(gap + rest, "", false) == Fields(rest, "", false)
  {
    if gap == "" {
      assert gap + rest == rest;
    } else {
      assert forall c | c in gap[1..] :: c in gap;
      assert gap[0] in gap && (gap + rest)[0] == ' ' && (gap + rest)[1..] == gap[1..] + rest;
      GapSkipped(gap[1..], rest);
    }
  }

  /** The fields are what spaces outside quotes separate: a field behind a run of spaces, ended by
      a space where its quotes are closed, or by the end of the text. */
  lemma {:induction false} FieldsExactly(gap: string, f: string, rest: string)
    requires (forall c | c in gap :: c == ' ') && f != ""
    requires forall i | 0 <= i < |f| && f[i] == ' ' :: multiset(f[..i])['\''] % 2 == 1
    ensures multiset(f)['\''] % 2 == 0 ==> Fields(gap + f + " " + rest, "", false) == [f] + Fields(rest, "", false)
    ensures Fields(gap + f, "", false) == [f] && Fields(gap, "", false) == []
  {
    hide Fields;
    assert SpacesInside(f, false) by {
      forall i | 0 <= i < |f| && f[i] == ' ' ensures Quotes(f[..i]) % 2 == 1 {}
    }
    assert gap + f + " " + rest == gap + (f + (" " + rest));
    GapSkipped(gap, f + (" " + rest));
    Collected(f, " " + rest, "", false);
    assert "" + f == f;
    FieldEnds(f, rest);
    GapSkipped(gap, f);
    assert f == f + "" && gap == gap + "";
    Collected(f, "", "", false);
    GapSkipped(gap, "");
  }

  lemma FieldEnds(f: string, rest: string)
    requires f != ""
    ensures Fields(" " + rest, f, false) == [f] + Fields(rest, "", false)
    ensures Fields("", f, false) == Fields("", f, true) == [f] && Fields("", "", false) == []
  {
    assert (" " + rest)[1..] == rest;
  }

  // ----- Parsing -----

  predicate Has(s: string, c: char) {
    c in s
  }

  /** strings.IndexByte, None for -1. */
  function IndexOf(s: string, c: char): (r: Option<nat>)
    ensures r.Some? ==> r.value < |s| && s[r.value] == c && c !in s[..r.value]
    ensures r.None? ==> c !in s
  {
    if s == "" then None
    else if s[0] == c then Some(0)
    else
      match IndexOf(s[1..], c)
      case None => None
      case Some(i) =>
        assert s[..i + 1] == [s[0]] + s[1..][..i];
        Some(i + 1)
  }

  /** strings.ReplaceAll(s, "''", "'"): pairs from the left. */
  function Undouble(s: string): string {
    if s == "" then ""
    else if |s| >= 2 && s[0] == '\'' && s[1] == '\'' then "'" + Undouble(s[2..])
    else [s[0]] + Undouble(s[1..])
  }

  function QuoteRun(n: nat): (r: string)
    ensures |r| == n && forall c | c in r :: c == '\''
  {
    seq(n, _ => '\'')
  }

  lemma UndoubleStep(c: char, s: string)
    ensures Undouble("") == ""
    ensures c != '\'' || s == "" || s[0] != '\'' ==> Undouble([c] + s) == [c] + Undouble(s)
    ensures Undouble("''" + s) == "'" + Undouble(s)
  {
    assert ([c] + s)[1..] == s && ("''" + s)[2..] == s;
  }

  /** Quotes are taken in pairs from the left, nothing else changes. */
  lemma {:induction false} UndoubleExactly(n: nat, rest: string)
    requires rest == "" || rest[0] != '\''
    ensures Undouble(QuoteRun(n) + rest) == QuoteRun((n + 1) / 2) + Undouble(rest)
    ensures rest != "" ==> Undouble(rest) == [rest[0]] + Undouble(rest[1..])
  {
    hide Undouble;
    if rest != "" {
      UndoubleStep(rest[0], rest[1..]);
      assert rest == [rest[0]] + rest[1..];
    }
    if n == 0 {
      assert QuoteRun(0) + rest == rest && QuoteRun(0) + Undouble(rest) == Undouble(rest);
    } else if n == 1 {
      UndoubleStep('\'', rest);
      assert QuoteRun(1) == ['\''];
    } else {
      var more := QuoteRun(n - 2) + rest;
      UndoubleStep('\'', more);
      UndoubleExactly(n - 2, rest);
      assert QuoteRun(n) + rest == "''" + more && QuoteRun((n + 1) / 2) == "'" + QuoteRun((n - 1) / 2);
    }
  }

  function Unquote(v: string): string {
    if |v| >= 2 && v[0] == '\'' && v[|v| - 1] == '\'' then Undouble(v[1..|v| - 1]) else v
  }

  function ParseField(field: string): Option<(string, string)> {
    match IndexOf(field, '=')
    case None => None
    case Some(i) => Some((TrimSpace(field[..i]), Unquote(TrimSpace(field[i + 1..]))))
  }

  lemma EqualsIsNoSpace()
    ensures !IsSpace('=')
  {}

  /** A field is key=value at its first '=', with white space around both dropped and a quoted
      value unquoted. */
  lemma {:induction false} ParseFieldExactly(a: string, k: string, b: string, c: string, v: string, d: string)
    requires (forall x | x in a + b + c + d :: IsSpace(x)) && '=' !in k
    requires k != "" ==> !IsSpace(k[0]) && !IsSpace(k[|k| - 1])
    requires v != "" ==> !IsSpace(v[0]) && !IsSpace(v[|v| - 1])
    ensures |v| >= 2 && v[0] == '\'' == v[|v| - 1] ==> ParseField(a + k + b + "=" + c + v + d) == Some((k, Undouble(v[1..|v| - 1])))
    ensures |v| < 2 || v[0] != '\'' || v[|v| - 1] != '\'' ==> ParseField(a + k + b + "=" + c + v + d) == Some((k, v))
  {
    hide IndexOf, TrimSpace, Undouble, IsSpace;
    EqualsIsNoSpace();
    var key, val := a + k + b, c + v + d;
    assert forall x | x in a :: x in a + b + c + d;
    assert forall x | x in b :: x in a + b + c + d;
    assert forall x | x in c :: x in a + b + c + d;
    assert forall x | x in d :: x in a + b + c + d;
    assert '=' !in key;
    IndexAt(key, val, '=');
    var f := key + ['='] + val;
    assert f == a + k + b + "=" + c + v + d && f[..|key|] == key && f[|key| + 1..] == val;
    TrimSpaceExactly(a, k, b);
    TrimSpaceExactly(c, v, d);
  }

  /** The fields as a map, later ones winning; None if one has no '='. */
  function ParseFields(fields: seq<string>): Option<KV> {
    if fields == [] then Some(map[])
    else
      match (ParseFields(fields[..|fields| - 1]), ParseField(fields[|fields| - 1]))
      case (Some(kv), Some((k, v))) => Some(kv[k := v])
      case _ => None
  }

  /** There is no map exactly when a field has no '='; the map's keys are the fields'. */
  lemma {:induction false} ParseFieldsExactly(fields: seq<string>, k: string)
    ensures ParseFields(fields).None? <==> exists f :: f in fields && '=' !in f
    ensures ParseFields(fields).Some? ==>
              (k in ParseFields(fields).value <==> exists f :: f in fields && ParseField(f).Some? && ParseField(f).value.0 == k)
  {
    if fields != [] {
      var rest, g := fields[..|fields| - 1], fields[|fields| - 1];
      assert ParseField(g).None? <==> '=' !in g;
      hide IndexOf, ParseField;
      assert forall f :: f in fields <==> f in rest || f == g;
      ParseFieldsExactly(rest, k);
    }
  }

  /** Of several fields with one key the last one counts. */
  lemma {:induction false} LaterWins(before: seq<string>, f: string, after: seq<string>)
    requires ParseFields(before + [f] + after).Some? && ParseField(f).Some?
    requires forall g | g in after :: ParseField(g).Some? ==> ParseField(g).value.0 != ParseField(f).value.0
    ensures ParseField(f).value.0 in ParseFields(before + [f] + after).value
    ensures ParseFields(before + [f] + after).value[ParseField(f).value.0] == ParseField(f).value.1
  {
    hide ParseField;
    var all := before + [f] + after;
    if after == [] {
      assert all == before + [f];
    } else {
      var g, rest := after[|after| - 1], after[..|after| - 1];
      assert g in after && forall x | x in rest :: x in after;
      assert all[..|all| - 1] == before + [f] + rest && all[|all| - 1] == g;
      LaterWins(before, f, rest);
    }
  }

  function ParseText(dsn: string): Option<KV> {
    ParseFields(Fields(dsn, "", false))
  }

  // ----- Printing -----

  predicate NeedsQuote(v: string) {
    Has(v, ' ') || Has(v, '\'') || Has(v, '\\')
  }

  /** strings.ReplaceAll(v, "'", "''") */
  function Double(v: string): string {
    if v == "" then "" else (if v[0] == '\'' then "''" else [v[0]]) + Double(v[1..])
  }

  function PrintValue(v: string): string {
    if NeedsQuote(v) then "'" + Double(v) + "'" else v
  }

  function PrintField(k: string, v: string): string {
    k + "=" + PrintValue(v)
  }

  /** A printed value is quoted, its quotes doubled, exactly when it holds a space, a quote or a
      backslash. */
  lemma PrintFieldExactly(k: string, v: string)
    ensures ' ' in v || '\'' in v || '\\' in v ==> PrintField(k, v) == k + "=" + ("'" + Double(v) + "'")
    ensures ' ' !in v && '\'' !in v && '\\' !in v ==> PrintField(k, v) == k + "=" + v
  {
    hide Double;
  }

  lemma DoubleStep(c: char, s: string)
    ensures Double([c] + s) == (if c == '\'' then "''" else [c]) + Double(s) && Double("") == ""
  {
    assert ([c] + s)[1..] == s;
  }

  /** Every quote of a text becomes two, nothing else changes. */
  lemma {:induction false} DoubleExactly(a: string, b: string)
    ensures Double(a + "'" + b) == Double(a) + "''" + Double(b)
    ensures '\'' !in a ==> Double(a) == a
  {
    hide Double;
    if a == "" {
      DoubleStep('\'', b);
      assert a + "'" + b == ['\''] + b && "" + "''" + Double(b) == "''" + Double(b);
    } else {
      var c, t := a[0], a[1..];
      DoubleExactly(t, b);
      DoubleStep(c, t);
      DoubleStep(c, t + "'" + b);
      assert a == [c] + t && a + "'" + b == [c] + (t + "'" + b);
    }
  }

  function Parts(kv: KV, order: seq<string>): seq<string>
    requires forall k | k in order :: k in kv
  {
    seq(|order|, i requires 0 <= i < |order| => PrintField(order[i], kv[order[i]]))
  }

  /** An order in which a loop over the map may see its keys. */
  ghost predicate IsOrder(order: seq<string>, kv: KV) {
    NoDup(order) && Elements(order) == kv.Keys && forall k | k in order :: k in kv
  }

  ghost predicate Prints(kv: KV, s: string) {
    exists order :: IsOrder(order, kv) && s == Join(Parts(kv, order), " ")
  }

  /** The printing half of pgAdminDSN and postgresURLToKV. */
  method PrintKV(kv: KV) returns (s: string)
    ensures Prints(kv, s)
  {
    var parts: seq<string> := [];
    var rest := kv.Keys;
    ghost var order: seq<string> := [];
    while rest != {}
      invariant rest <= kv.Keys && Elements(order) == kv.Keys - rest && NoDup(order)
      invariant (forall k | k in order :: k in kv) && parts == Parts(kv, order)
    {
      var k :| k in rest;
      var v := kv[k];
      if NeedsQuote(v) { v := "'" + Double(v) + "'"; }
      parts := parts + [k + "=" + v];
      assert k !in Elements(order);
      ElementsAppend(order, k);
      order := order + [k];
      rest := rest - {k};
    }
    s := Join(parts, " ");
    assert IsOrder(order, kv);
  }

  // ----- Round trip -----

  /** Keys that survive printing and splitting. */
  predicate GoodKey(k: string) {
    !Has(k, '=') && !Has(k, '\'') && !Has(k, ' ') && Trimmed(k)
  }

  ghost predicate GoodKeys(kv: KV) {
    forall k | k in kv :: GoodKey(k)
  }

  lemma {:induction false} UndoubleDouble(v: string)
    ensures Undouble(Double(v)) == v
  {
    if v != "" {
      UndoubleDouble(v[1..]);
      if v[0] == '\'' {
        assert Double(v)[2..] == Double(v[1..]);
      } else {
        assert Double(v)[1..] == Double(v[1..]);
      }
    }
  }

  /** Outside quotes a text without quotes and spaces is collected as it is. */
  lemma {:induction false} PlainCollected(p: string, rest: string, cur: string)
    requires !Has(p, '\'') && !Has(p, ' ')
    ensures Fields(p + rest, cur, false) == Fields(rest, cur + p, false)
  {
    if p == "" {
      assert p + rest == rest && cur + p == cur;
    } else {
      assert (p + rest)[0] == p[0] && (p + rest)[1..] == p[1..] + rest;
      PlainCollected(p[1..], rest, cur + [p[0]]);
      assert cur + [p[0]] + p[1..] == cur + p;
    }
  }

  lemma QuoteToggles(s: string, cur: string, inQuote: bool)
    ensures Fields("'" + s, cur, inQuote) == Fields(s, cur + "'", !inQuote)
  {
    assert ("'" + s)[1..] == s;
  }

  lemma QuotedKept(c: char, s: string, cur: string)
    requires c != '\''
    ensures Fields([c] + s, cur, true) == Fields(s, cur + [c], true)
  {
    assert ([c] + s)[1..] == s;
  }

  lemma PairKept(s: string, cur: string)
    ensures Fields("''" + s, cur, true) == Fields(s, cur + "''", true)
  {
    hide Fields;
    assert "''" + s == "'" + ("'" + s) && cur + "'" + "'" == cur + "''";
    QuoteToggles("'" + s, cur, true);
    QuoteToggles(s, cur + "'", false);
  }

  /** Inside quotes a doubled text is collected as it is: each pair of quotes toggles twice. */
  lemma {:induction false} DoubledCollected(v: string, rest: string, cur: string)
    ensures Fields(Double(v) + rest, cur, true) == Fields(rest, cur + Double(v), true)
  {
    hide Fields;
    if v == "" {
      assert Double(v) + rest == rest && cur + Double(v) == cur;
    } else {
      var c, d := if v[0] == '\'' then "''" else [v[0]], Double(v[1..]);
      DoubledCollected(v[1..], rest, cur + c);
      if v[0] == '\'' { PairKept(d + rest, cur); } else { QuotedKept(v[0], d + rest, cur); }
      assert Double(v) + rest == c + (d + rest) && cur + c + d == cur + Double(v);
    }
  }

  lemma {:induction false} QuotedCollected(v: string, rest: string, cur: string)
    ensures Fields("'" + Double(v) + "'" + rest, cur, false) == Fields(rest, cur + "'" + Double(v) + "'", false)
  {
    hide Double, Fields;
    var tail := Double(v) + ("'" + rest);
    assert "'" + Double(v) + "'" + rest == "'" + tail;
    QuoteToggles(tail, cur, false);
    DoubledCollected(v, "'" + rest, cur + "'");
    QuoteToggles(rest, cur + "'" + Double(v), true);
  }

  /** A printed field is collected whole. */
  lemma {:induction false} FieldCollected(k: string, v: string, rest: string)
    requires GoodKey(k)
    ensures Fields(PrintField(k, v) + rest, "", false) == Fields(rest, PrintField(k, v), false)
  {
    hide Double, Fields;
    var key := k + "=";
    assert "" + key == key;
    if NeedsQuote(v) {
      var shown := "'" + Double(v) + "'";
      assert PrintField(k, v) + rest == key + (shown + rest);
      PlainCollected(key, shown + rest, "");
      QuotedCollected(v, rest, key);
      assert key + "'" + Double(v) + "'" == PrintField(k, v);
    } else {
      PlainCollected(PrintField(k, v), rest, "");
      assert "" + PrintField(k, v) == PrintField(k, v);
    }
  }

  lemma PartsStep(kv: KV, order: seq<string>)
    requires order != [] && forall k | k in order :: k in kv
    ensures Parts(kv, order) == [PrintField(order[0], kv[order[0]])] + Parts(kv, order[1..])
  {
    hide PrintField;
  }

  /** A space outside quotes ends the field collected. */
  lemma SpaceEnds(field: string, rest: string)
    requires field != ""
    ensures Fields(" " + rest, field, false) == [field] + Fields(rest, "", false)
    ensures Fields("", field, false) == [field]
  {
    assert (" " + rest)[1..] == rest;
  }

  lemma JoinStep(p: string, more: seq<string>)
    ensures Join([p] + more, " ") == if more == [] then p else p + (" " + Join(more, " "))
  {
    assert ([p] + more)[1..] == more;
  }

  lemma {:induction false} SplitJoined(kv: KV, order: seq<string>)
    requires (forall k | k in order :: k in kv) && GoodKeys(kv)
    ensures Fields(Join(Parts(kv, order), " "), "", false) == Parts(kv, order)
  {
    if order != [] {
      hide Fields, Join, Parts, PrintField, GoodKey;
      var k := order[0];
      var p, more := PrintField(k, kv[k]), Parts(kv, order[1..]);
      FieldNotEmpty(k, kv[k]);
      PartsStep(kv, order);
      JoinStep(p, more);
      SplitJoined(kv, order[1..]);
      SpaceEnds(p, Join(more, " "));
      FieldCollected(k, kv[k], if more == [] then "" else " " + Join(more, " "));
      assert p + "" == p;
    }
  }

  lemma FieldNotEmpty(k: string, v: string)
    ensures PrintField(k, v) != ""
  {}

  lemma {:induction false} IndexAt(k: string, x: string, c: char)
    requires c !in k
    ensures IndexOf(k + [c] + x, c) == Some(|k|)
  {
    var s := k + [c] + x;
    if k != "" {
      assert s[0] == k[0] && s[1..] == k[1..] + [c] + x;
      IndexAt(k[1..], x, c);
    }
  }

  /** What parsing makes of a printed value. */
  function Reread(v: string): string {
    if NeedsQuote(v) then v else TrimSpace(v)
  }

  lemma {:induction false} ParsePrinted(k: string, v: string)
    requires GoodKey(k)
    ensures ParseField(PrintField(k, v)) == Some((k, Reread(v)))
  {
    var f, shown := PrintField(k, v), PrintValue(v);
    IndexAt(k, shown, '=');
    assert f == k + ['='] + shown && f[..|k|] == k && f[|k| + 1..] == shown;
    TrimSpaceFixes(k);
    if NeedsQuote(v) {
      assert shown[0] == '\'' && shown[|shown| - 1] == '\'';
      TrimSpaceFixes(shown);
      assert shown[1..|shown| - 1] == Double(v);
      UndoubleDouble(v);
    } else {
      TrimSpaceTrims(v, '\'');
      assert TrimSpace(v) != "" ==> TrimSpace(v)[0] in TrimSpace(v);
    }
  }

  function RereadAll(kv: KV): KV {
    map k | k in kv :: Reread(kv[k])
  }

  lemma LastPart(kv: KV, order: seq<string>)
    requires order != [] && (forall k | k in order :: k in kv) && order[|order| - 1] !in order[..|order| - 1]
    ensures var n := |order| - 1; var k := order[n];
            (forall x | x in order[..n] :: x in kv - {k}) && Parts(kv, order) == Parts(kv - {k}, order[..n]) + [PrintField(k, kv[k])]
  {
    hide PrintField;
  }

  lemma WithoutKey(kv: KV, k: string)
    requires k in kv
    ensures RereadAll(kv) == RereadAll(kv - {k})[k := Reread(kv[k])]
  {
    hide Reread;
  }

  /** The last key of an order, taken away. */
  lemma {:induction false} LastOfOrder(kv: KV, order: seq<string>)
    requires IsOrder(order, kv) && order != []
    ensures var n := |order| - 1; var k := order[n];
            && k in kv && IsOrder(order[..n], kv - {k})
            && Parts(kv, order) == Parts(kv - {k}, order[..n]) + [PrintField(k, kv[k])]
            && RereadAll(kv) == RereadAll(kv - {k})[k := Reread(kv[k])]
  {
    hide PrintField, Reread, RereadAll, Parts;
    var n := |order| - 1;
    var k := order[n];
    assert order == order[..n] + [k];
    ElementsAppend(order[..n], k);
    assert k !in Elements(order[..n]);
    assert forall x :: x in order[..n] <==> x in Elements(order[..n]);
    LastPart(kv, order);
    WithoutKey(kv, k);
  }

  /** A map printed in any order and parsed again, value by value. */
  lemma {:induction false} PrintThenParse(kv: KV, order: seq<string>)
    requires IsOrder(order, kv) && GoodKeys(kv)
    ensures ParseFields(Parts(kv, order)) == Some(RereadAll(kv))
  {
    hide GoodKey, Reread, PrintField, ParseField, Elements;
    if order == [] {
      assert kv == map[] by { NoKeys(kv); }
    } else {
      var n := |order| - 1;
      var k := order[n];
      LastOfOrder(kv, order);
      PrintThenParse(kv - {k}, order[..n]);
      ParsePrinted(k, kv[k]);
      assert Parts(kv, order)[..n] == Parts(kv - {k}, order[..n]);
    }
  }

  lemma NoKeys(kv: KV)
    ensures IsOrder([], kv) ==> kv == map[]
  {}

  /** Whatever order it was printed in, a map is read back value by value. */
  lemma {:induction false} PrintedReads(kv: KV, s: string)
    requires Prints(kv, s) && GoodKeys(kv)
    ensures ParseText(s) == Some(RereadAll(kv))
  {
    hide Parts, ParseFields, Fields, Join, GoodKeys, RereadAll;
    var order :| IsOrder(order, kv) && s == Join(Parts(kv, order), " ");
    SplitJoined(kv, order);
    PrintThenParse(kv, order);
  }

  /** Parsing undoes printing exactly when every value is quoted by the printer or trimmed. */
  lemma {:induction false} RoundTripExactly(kv: KV, s: string)
    requires Prints(kv, s) && GoodKeys(kv)
    ensures ParseText(s) == Some(kv)
            <==> forall k | k in kv :: ' ' in kv[k] || '\'' in kv[k] || '\\' in kv[k] || TrimSpace(kv[k]) == kv[k]
  {
    hide ParseText, Prints, TrimSpace;
    PrintedReads(kv, s);
    if RereadAll(kv) == kv {
      assert forall k | k in kv :: RereadAll(kv)[k] == kv[k];
    }
  }

  // ----- The maintenance connection -----

  /** strings.Contains(s, "://") */
  predicate HasScheme(s: string) {
    exists i | 0 <= i < |s| :: SchemeAt(s, i)
  }

  predicate SchemeAt(s: string, i: nat) {
    i + 2 < |s| && s[i] == ':' && s[i + 1] == '/' && s[i + 2] == '/'
  }

  lemma {:induction false} HasSchemeExactly(s: string)
    ensures HasScheme(s) <==> exists a, b :: s == a + "://" + b
  {
    if HasScheme(s) {
      var i :| 0 <= i < |s| && SchemeAt(s, i);
      assert s == s[..i] + "://" + s[i + 3..];
    }
    if a, b :| s == a + "://" + b {
      assert SchemeAt(s, |a|);
    }
  }

  /** parsePostgresKV: a URL is first parsed (url is what that gives) and printed as key=value. */
  ghost predicate Parses(dsn: string, url: Option<KV>, r: Option<KV>) {
    if HasScheme(dsn) then
      match url
      case None => r.None?
      case Some(kv) => exists s :: Prints(kv, s) && r == ParseText(s)
    else r == ParseText(dsn)
  }

  /** The loop of parsePostgresKV. */
  method ParseEach(fields: seq<string>) returns (r: Option<KV>)
    ensures r == ParseFields(fields)
  {
    hide TrimSpace, Undouble;
    var kv: KV := map[];
    for i := 0 to |fields|
      invariant ParseFields(fields[..i]) == Some(kv)
    {
      assert fields[..i + 1][..i] == fields[..i];
      var idx := IndexOf(fields[i], '=');
      if idx.None? {
        OneBadField(fields, i + 1);
        return None;
      }
      var key, val := TrimSpace(fields[i][..idx.value]), TrimSpace(fields[i][idx.value + 1..]);
      if |val| >= 2 && val[0] == '\'' && val[|val| - 1] == '\'' {
        val := val[1..|val| - 1];
        val := Undouble(val);
      }
      kv := kv[key := val];
    }
    assert fields[..|fields|] == fields;
    r := Some(kv);
  }

  method ParsePostgresKV(dsn: string, url: Option<KV>) returns (r: Option<KV>)
    ensures Parses(dsn, url, r)
    ensures !HasScheme(dsn) ==> r == ParseText(dsn)
    ensures HasScheme(dsn) && url.None? ==> r.None?
    ensures HasScheme(dsn) && url.Some? ==> exists s :: Prints(url.value, s) && r == ParseText(s)
  {
    var text := dsn;
    if HasScheme(dsn) {
      if url.None? { return None; }
      text := PrintKV(url.value);
    }
    var fields := SplitDSNFields(text);
    r := ParseEach(fields);
  }

  lemma {:induction false} OneBadField(fields: seq<string>, i: nat)
    requires i <= |fields| && ParseFields(fields[..i]).None?
    ensures ParseFields(fields).None?
  {
    if i == |fields| {
      assert fields[..i] == fields;
    } else {
      assert fields[..|fields| - 1][..i] == fields[..i];
      OneBadField(fields[..|fields| - 1], i);
    }
  }

  /** The options of a connection, pointed at the maintenance database. */
  function AdminKV(kv: KV): KV {
    (kv - {"dbname", "database"})["dbname" := "postgres"]
  }

  lemma AdminKVExactly(kv: KV)
    ensures var to := AdminKV(kv);
            && to.Keys == kv.Keys - {"database"} + {"dbname"} && to["dbname"] == "postgres"
            && forall k | k in kv && k != "dbname" && k != "database" :: to[k] == kv[k]
  {}

  method PgAdminDSN(dsn: string, url: Option<KV>) returns (r: Option<string>)
    ensures exists kv :: Parses(dsn, url, kv) && if kv.None? then r.None? else r.Some? && Prints(AdminKV(kv.value), r.value)
  {
    var parsed := ParsePostgresKV(dsn, url);
    if parsed.None? { return None; }
    var kv := parsed.value;
    kv := kv - {"dbname"};
    kv := kv - {"database"};
    kv := kv["dbname" := "postgres"];
    assert kv == AdminKV(parsed.value);
    var s := PrintKV(kv);
    r := Some(s);
  }

  method PgDatabaseName(dsn: string, url: Option<KV>) returns (r: Option<string>)
    ensures exists kv :: Parses(dsn, url, kv) && (r.None? <==> kv.None?)
                         && (kv.Some? && "dbname" in kv.value && kv.value["dbname"] != "" ==> r.value == kv.value["dbname"])
                         && (kv.Some? && ("dbname" !in kv.value || kv.value["dbname"] == "") ==>
                               r.value == if "database" in kv.value then kv.value["database"] else "")
  {
    var kv := ParsePostgresKV(dsn, url);
    if kv.None? { return None; }
    if "dbname" in kv.value && kv.value["dbname"] != "" { return Some(kv.value["dbname"]); }
    return Some(if "database" in kv.value then kv.value["database"] else "");
  }

  /** A space in a field stands behind a quote. */
  predicate SpacesQuoted(f: string) {
    f == "" || f[0] == '\'' || (f[0] != ' ' && SpacesQuoted(f[1..]))
  }

  lemma {:induction false} SpacesQuotedMore(f: string, c: char)
    requires SpacesQuoted(f) && (c == ' ' ==> Has(f, '\''))
    ensures SpacesQuoted(f + [c])
  {
    if f != "" && f[0] != '\'' {
      SpacesQuotedMore(f[1..], c);
      assert (f + [c])[1..] == f[1..] + [c];
    }
  }

  lemma {:induction false} SplitQuotesSpaces(s: string, cur: string, inQuote: bool)
    requires SpacesQuoted(cur) && (inQuote ==> Has(cur, '\''))
    ensures forall f | f in Fields(s, cur, inQuote) :: SpacesQuoted(f)
  {
    if s != "" {
      if s[0] == '\'' {
        SpacesQuotedMore(cur, s[0]);
        SplitQuotesSpaces(s[1..], cur + [s[0]], !inQuote);
      } else if s[0] == ' ' && !inQuote {
        SplitQuotesSpaces(s[1..], "", false);
      } else {
        SpacesQuotedMore(cur, s[0]);
        SplitQuotesSpaces(s[1..], cur + [s[0]], inQuote);
      }
    }
  }

  lemma {:induction false} NoQuoteNoSpace(f: string, i: nat)
    requires SpacesQuoted(f) && i <= |f| && !Has(f[..i], '\'')
    ensures !Has(f[..i], ' ')
  {
    if i > 0 {
      assert f[0] == f[..i][0];
      assert f[..i][1..] == f[1..][..i - 1];
      NoQuoteNoSpace(f[1..], i - 1);
      assert f[..i] == [f[0]] + f[1..][..i - 1];
    }
  }

  /** The keys of a parsed string hold no '=', are trimmed, and hold a space only behind a quote:
      they print well exactly when they hold no quote. */
  lemma {:induction false} ParsedKeys(fields: seq<string>, kv: KV)
    requires ParseFields(fields) == Some(kv) && forall f | f in fields :: SpacesQuoted(f)
    ensures forall k | k in kv :: GoodKey(k) <==> !Has(k, '\'')
  {
    if fields != [] {
      var f := fields[|fields| - 1];
      ParsedKeys(fields[..|fields| - 1], ParseFields(fields[..|fields| - 1]).value);
      var i := IndexOf(f, '=').value;
      TrimSpaceTrims(f[..i], '=');
      TrimSpaceTrims(f[..i], '\'');
      TrimSpaceTrims(f[..i], ' ');
      if !Has(TrimSpace(f[..i]), '\'') { NoQuoteNoSpace(f, i); }
    }
  }

  lemma {:induction false} NoSchemeGlued(a: string, c: char, b: string)
    requires !HasScheme(a) && !HasScheme(b) && c != ':' && c != '/'
    ensures !HasScheme(a + [c] + b)
  {
    var s := a + [c] + b;
    forall i | 0 <= i < |s| ensures !SchemeAt(s, i) {
      assert i < |a| ==> !SchemeAt(a, i);
      assert i > |a| ==> !SchemeAt(b, i - |a| - 1);
    }
  }

  lemma {:induction false} NoSchemeDoubled(v: string)
    requires !HasScheme(v)
    ensures !HasScheme(Double(v))
  {
    if v != "" {
      var d, all := Double(v[1..]), Double(v);
      forall i | 0 <= i < |v[1..]| ensures !SchemeAt(v[1..], i) {
        assert !SchemeAt(v, i + 1);
      }
      NoSchemeDoubled(v[1..]);
      if v[0] == '\'' {
        assert all == ['\''] + ['\''] + d;
        NoSchemeGlued(['\''], '\'', d);
      } else {
        assert all == [v[0]] + d && !SchemeAt(v, 0) && !SchemeAt(all, 0);
        forall i | 1 <= i < |all| ensures !SchemeAt(all, i) {
          assert !SchemeAt(d, i - 1);
        }
      }
    }
  }

  ghost predicate NoSchemes(kv: KV) {
    forall k | k in kv :: !HasScheme(k) && !HasScheme(kv[k])
  }

  lemma {:induction false} NoSchemeInField(k: string, v: string)
    requires !HasScheme(k) && !HasScheme(v)
    ensures !HasScheme(PrintField(k, v))
  {
    NoSchemeDoubled(v);
    NoSchemeGlued("", '\'', Double(v));
    NoSchemeGlued("" + ['\''] + Double(v), '\'', "");
    assert "'" + Double(v) + "'" == "" + ['\''] + Double(v) + ['\''] + "";
    NoSchemeGlued(k, '=', PrintValue(v));
    assert PrintField(k, v) == k + ['='] + PrintValue(v);
  }

  /** A printed map is not mistaken for a URL. */
  lemma {:induction false} NoSchemePrinted(kv: KV, order: seq<string>)
    requires (forall k | k in order :: k in kv) && NoSchemes(kv)
    ensures !HasScheme(Join(Parts(kv, order), " "))
  {
    hide HasScheme, PrintField;
    if order == [] {
      NoSchemeEmpty();
    } else {
      var k := order[0];
      NoSchemeInField(k, kv[k]);
      NoSchemePrinted(kv, order[1..]);
      assert Parts(kv, order)[1..] == Parts(kv, order[1..]);
      if |order| > 1 {
        NoSchemeGlued(PrintField(k, kv[k]), ' ', Join(Parts(kv, order[1..]), " "));
        assert Join(Parts(kv, order), " ") == PrintField(k, kv[k]) + [' '] + Join(Parts(kv, order[1..]), " ");
      }
    }
  }

  lemma NoSchemeEmpty()
    ensures !HasScheme("")
  {}

  /** The maintenance DSN read back: it is not a URL, it names "postgres", and every other
      option is unchanged exactly when its value is quoted by the printer or trimmed. */
  lemma {:induction false} AdminReadBack(kv: KV, admin: string)
    requires GoodKeys(kv) && NoSchemes(kv) && Prints(AdminKV(kv), admin)
    ensures !HasScheme(admin) && ParseText(admin).Some?
    ensures "dbname" in ParseText(admin).value && ParseText(admin).value["dbname"] == "postgres"
    ensures ParseText(admin) == Some(AdminKV(kv))
            <==> forall k | k in kv && k != "dbname" && k != "database" ::
                   ' ' in kv[k] || '\'' in kv[k] || '\\' in kv[k] || TrimSpace(kv[k]) == kv[k]
  {
    hide HasScheme, ParseText, Prints, GoodKey, Reread, TrimSpace;
    var to := AdminKV(kv);
    PostgresIsPlain();
    assert GoodKeys(to) && NoSchemes(to);
    assert forall k | k in kv && k != "dbname" && k != "database" :: k in to && to[k] == kv[k];
    assert forall k | k in to && k != "dbname" :: k in kv && k != "database" && to[k] == kv[k];
    assert to["dbname"] == "postgres";
    RoundTripExactly(to, admin);
    PrintedReads(to, admin);
    PrintedIsNoURL(to, admin);
  }

  lemma PrintedIsNoURL(kv: KV, s: string)
    requires Prints(kv, s) && NoSchemes(kv)
    ensures !HasScheme(s)
  {
    hide HasScheme, Join, Parts, NoSchemes;
    var order :| IsOrder(order, kv) && s == Join(Parts(kv, order), " ");
    NoSchemePrinted(kv, order);
  }

  lemma PostgresIsPlain()
    ensures GoodKey("dbname") && !HasScheme("dbname") && !HasScheme("postgres")
    ensures TrimSpace("postgres") == "postgres" && Reread("postgres") == "postgres"
  {
    var p := "postgres";
    assert p[0] == 'p' && p[|p| - 1] == 's';
    TrimSpaceFixes(p);
  }

  /** The same for the DSN pgAdminDSN was given: a key=value string whose keys hold no quote. */
  lemma {:induction false} AdminOfText(dsn: string, kv: KV, admin: string)
    requires !HasScheme(dsn) && ParseText(dsn) == Some(kv) && Prints(AdminKV(kv), admin)
    requires NoSchemes(kv) && forall k | k in kv :: !Has(k, '\'')
    ensures Parses(admin, None, ParseText(admin)) && ParseText(admin).Some?
    ensures "dbname" in ParseText(admin).value && ParseText(admin).value["dbname"] == "postgres"
    ensures ParseText(admin) == Some(AdminKV(kv))
            <==> forall k | k in kv && k != "dbname" && k != "database" ::
                   ' ' in kv[k] || '\'' in kv[k] || '\\' in kv[k] || TrimSpace(kv[k]) == kv[k]
  {
    SplitQuotesSpaces(dsn, "", false);
    ParsedKeys(Fields(dsn, "", false), kv);
    AdminReadBack(kv, admin);
  }
}
