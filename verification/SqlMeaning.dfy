/** What SQL conditions mean on a row of the requests table, their placeholders filled with the
    arguments in order. */
module SqlMeaning {
  import opened Common
  import opened TimeText
  import opened SqlText

  // ----- The engines -----

  /** Postgres compares instants, is case sensitive in LIKE and has '\' as its escape; SQLite
      compares the stored texts and folds ASCII letters. */
  datatype Engine = Postgres | SQLite(stamp: Stamp)

  function Fold(e: Engine, c: char): char {
    if e.SQLite? && 'A' <= c <= 'Z' then c - 'A' + 'a' else c
  }

  /** LIKE: '%' is any text, '_' any character. */
  predicate Like(e: Engine, p: string, s: string)
    decreases |p| + |s|
  {
    if p == "" then s == ""
    else if p[0] == '%' then Like(e, p[1..], s) || (s != "" && Like(e, p, s[1..]))
    else if p[0] == '_' then s != "" && Like(e, p[1..], s[1..])
    else if e.Postgres? && p[0] == '\\' && |p| > 1 then s != "" && p[1] == s[0] && Like(e, p[2..], s[1..])
    else s != "" && Fold(e, p[0]) == Fold(e, s[0]) && Like(e, p[1..], s[1..])
  }

  // ----- Values -----

  datatype Arg = Str(s: string) | Num(n: int) | Time(t: Instant) | Flag(b: bool)

  /** filterTimeArg, and createdAtValue for the stored column. */
  function TimeArg(e: Engine, t: Instant): Arg {
    match e
    case Postgres => Time(t)
    case SQLite(stamp) => Str(Format(stamp, t))
  }

  predicate ValueAtMost(a: Arg, b: Arg) {
    match (a, b)
    case (Num(m), Num(n)) => m <= n
    case (Time(s), Time(t)) => NotAfter(s, t)
    case (Str(s), Str(t)) => TextAtMost(s, t)
    case _ => false
  }

  predicate AtMost(e: Engine, a: Instant, b: Instant) {
    ValueAtMost(TimeArg(e, a), TimeArg(e, b))
  }

  predicate Compare(e: Engine, op: string, a: Arg, b: Arg) {
    match op
    case "=" => a == b
    case "!=" => a != b
    case "LIKE" => a.Str? && b.Str? && Like(e, b.s, a.s)
    case "<=" => ValueAtMost(a, b)
    case ">=" => ValueAtMost(b, a)
    case ">" => ValueAtMost(b, a) && a != b
    case _ => false
  }

  /** The number a decimal numeral writes. */
  function NumberOf(w: string): int {
    if w == "" then 0 else 10 * NumberOf(w[..|w| - 1]) + (w[|w| - 1] as int - '0' as int)
  }

  /** A literal: the empty text or a number. */
  function Literal(w: string): Arg {
    if w == "''" then Str("") else Num(NumberOf(w))
  }

  // ----- Rows -----

  datatype TextCol = Id | Method | Path | Query | ClientIP | BackendURL | Model | ErrorText | UserAgent

  /** A row of the requests table. */
  datatype Row = Row(
    texts: map<TextCol, string>, // the text columns that are not NULL
    createdAt: Instant,
    isStreaming: bool,
    statusCode: int,
    totalTokens: int)

  function TextOf(row: Row, col: TextCol): Option<Arg> {
    if col in row.texts then Some(Str(row.texts[col])) else None
  }

  /** The value of the column of that name; None for NULL. */
  function Column(e: Engine, row: Row, name: string): Option<Arg> {
    match name
    case "id" => TextOf(row, Id)
    case "method" => TextOf(row, Method)
    case "path" => TextOf(row, Path)
    case "query" => TextOf(row, Query)
    case "client_ip" => TextOf(row, ClientIP)
    case "backend_url" => TextOf(row, BackendURL)
    case "model" => TextOf(row, Model)
    case "error_text" => TextOf(row, ErrorText)
    case "user_agent" => TextOf(row, UserAgent)
    case "created_at" => Some(TimeArg(e, row.createdAt))
    case "is_streaming" => Some(Flag(row.isStreaming))
    case "status_code" => Some(Num(row.statusCode))
    case "total_tokens" => Some(Num(row.totalTokens))
    case _ => None
  }

  // ----- Conditions -----

  /** How many arguments a comparison, a condition, a conjunction take: one for each '?'. */
  function Holes(t: Test): nat {
    if t.operand == "?" then 1 else 0
  }

  function HolesIn(c: Clause): nat {
    if c == [] then 0 else Holes(c[0]) + HolesIn(c[1..])
  }

  function HolesOf(cs: seq<Clause>): nat {
    if cs == [] then 0 else HolesIn(cs[0]) + HolesOf(cs[1..])
  }

  /** NULL makes a comparison not true, and nothing is negated, so not true and false need no
      telling apart. */
  predicate Passes(e: Engine, t: Test, args: seq<Arg>, row: Row)
    requires |args| == Holes(t)
  {
    var value := Column(e, row, t.col);
    value.Some? && Compare(e, t.op, value.value, if t.operand == "?" then args[0] else Literal(t.operand))
  }

  /** One of the comparisons passes, each with its own share of the arguments. */
  predicate Holds(e: Engine, c: Clause, args: seq<Arg>, row: Row)
    requires |args| == HolesIn(c)
  {
    c != [] && (Passes(e, c[0], args[..Holes(c[0])], row) || Holds(e, c[1..], args[Holes(c[0])..], row))
  }

  /** Every condition holds, each with its own share of the arguments, which are used up exactly. */
  predicate Selects(e: Engine, cs: seq<Clause>, args: seq<Arg>, row: Row)
    requires |args| == HolesOf(cs)
  {
    cs == [] || (Holds(e, cs[0], args[..HolesIn(cs[0])], row) && Selects(e, cs[1..], args[HolesIn(cs[0])..], row))
  }

  lemma {:induction false} HolesConcat(a: seq<Clause>, b: seq<Clause>)
    ensures HolesOf(a + b) == HolesOf(a) + HolesOf(b)
  {
    if a == [] {
      assert a + b == b;
    } else {
      assert (a + b)[1..] == a[1..] + b;
      HolesConcat(a[1..], b);
    }
  }

  /** Conjunctions one after the other, with their arguments one after the other, are their conjunction. */
  lemma {:induction false} SelectsConcat(e: Engine, a: seq<Clause>, x: seq<Arg>, b: seq<Clause>, y: seq<Arg>, row: Row)
    requires |x| == HolesOf(a) && |y| == HolesOf(b)
    ensures HolesOf(a + b) == |x + y|
    ensures Selects(e, a + b, x + y, row) <==> Selects(e, a, x, row) && Selects(e, b, y, row)
  {
    hide Holds, HolesIn;
    HolesConcat(a, b);
    if a == [] {
      assert a + b == b && x + y == y;
    } else {
      var n := HolesIn(a[0]);
      assert (a + b)[1..] == a[1..] + b && (x + y)[..n] == x[..n] && (x + y)[n..] == x[n..] + y;
      SelectsConcat(e, a[1..], x[n..], b, y, row);
    }
  }

  lemma SelectsOne(e: Engine, c: Clause, args: seq<Arg>, row: Row)
    requires |args| == HolesIn(c)
    ensures HolesOf([c]) == |args|
    ensures Selects(e, [c], args, row) <==> Holds(e, c, args, row)
  {
    hide Holds, HolesIn;
    var cs := [c];
    assert cs[1..] == [] && args[..|args|] == args;
  }

  lemma HoldsOne(e: Engine, t: Test, args: seq<Arg>, row: Row)
    requires |args| == Holes(t)
    ensures HolesIn([t]) == |args|
    ensures Holds(e, [t], args, row) <==> Passes(e, t, args, row)
  {
    hide Passes;
    var c := [t];
    assert c[1..] == [] && args[..|args|] == args;
  }

  lemma HoldsMore(e: Engine, t: Test, more: Clause, x: seq<Arg>, y: seq<Arg>, row: Row)
    requires |x| == Holes(t) && |y| == HolesIn(more)
    ensures HolesIn([t] + more) == |x + y|
    ensures Holds(e, [t] + more, x + y, row) <==> Passes(e, t, x, row) || Holds(e, more, y, row)
  {
    hide Passes;
    var c := [t] + more;
    assert c[1..] == more && (x + y)[..|x|] == x && (x + y)[|x|..] == y;
  }
}
