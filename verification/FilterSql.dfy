/** The request filter as SQL conditions with positional arguments (internal/store/store.go,
    appendRequestFilterSQL). */
module FilterSql {
  import opened Common
  import opened TimeText
  import opened CalendarText
  import opened SqlText
  import opened SqlMeaning

  // ----- The filter -----

  /** An empty text, a status of 0 or less, no time and no flag mean: not set. */
  datatype Filter = Filter(
    path: string, model: string, httpMethod: string, backend: string, clientIP: string, userAgent: string,
    search: string, statusCode: int, timeFrom: Option<Instant>, timeTo: Option<Instant>, streaming: Option<bool>,
    errorsOnly: bool, withTokens: bool, chatCompletionsOnly: bool)

  /** The text holds x somewhere, letters compared as the engine compares them. */
  predicate ContainsAt(e: Engine, s: string, x: string, i: nat) {
    i + |x| <= |s| && forall k | 0 <= k < |x| :: Fold(e, s[i + k]) == Fold(e, x[k])
  }

  ghost predicate Contains(e: Engine, s: string, x: string) {
    exists i: nat :: ContainsAt(e, s, x, i)
  }

  predicate Equal(row: Row, col: TextCol, x: string) {
    col in row.texts && row.texts[col] == x
  }

  /** The text column matches the pattern made of x. */
  predicate Mentions(e: Engine, row: Row, col: TextCol, x: string) {
    col in row.texts && Like(e, "%" + x + "%", row.texts[col])
  }

  predicate IsErrorRow(row: Row) {
    row.statusCode >= 400 || (ErrorText in row.texts && row.texts[ErrorText] != "")
  }

  const SEARCHED: seq<TextCol> := [Id, Path, Query, ClientIP, Model, ErrorText]

  const FIELDS: nat := 14

  /** What the k-th field of the filter asks of a row; a field that is not set asks nothing. */
  ghost predicate Asks(e: Engine, f: Filter, k: nat, row: Row) {
    match k
    case 0 => f.chatCompletionsOnly ==> Equal(row, Method, "POST") && Equal(row, Path, "/v1/chat/completions")
    case 1 => f.path != "" ==> Mentions(e, row, Path, f.path)
    case 2 => f.model != "" ==> Mentions(e, row, Model, f.model)
    case 3 => f.httpMethod != "" ==> Equal(row, Method, f.httpMethod)
    case 4 => f.backend != "" ==> Equal(row, BackendURL, f.backend)
    case 5 => f.clientIP != "" ==> Mentions(e, row, ClientIP, f.clientIP)
    case 6 => f.userAgent != "" ==> Mentions(e, row, UserAgent, f.userAgent)
    case 7 => f.statusCode > 0 ==> row.statusCode == f.statusCode
    case 8 => f.timeFrom.Some? ==> AtMost(e, f.timeFrom.value, row.createdAt)
    case 9 => f.timeTo.Some? ==> AtMost(e, row.createdAt, f.timeTo.value)
    case 10 => f.streaming.Some? ==> row.isStreaming == f.streaming.value
    case 11 => f.errorsOnly ==> IsErrorRow(row)
    case 12 => f.withTokens ==> row.totalTokens > 0
    case 13 => f.search != "" ==> exists col | col in SEARCHED :: Mentions(e, row, col, f.search)
    case _ => true
  }

  ghost predicate Means(e: Engine, f: Filter, row: Row) {
    forall k | 0 <= k < FIELDS :: Asks(e, f, k, row)
  }

  // ----- Placeholders -----

  /** The driver binds the k-th argument to the k-th '?'. */
  function Placeholders(query: string): nat {
    multiset(query)['?']
  }

  lemma NotAsked(text: string)
    requires '?' !in text
    ensures Placeholders(text) == 0
  {}

  lemma PlaceholdersConcat(a: string, b: string)
    ensures Placeholders(a + b) == Placeholders(a) + Placeholders(b)
  {}

  lemma FewPlaceholders()
    ensures Placeholders("?") == 1 && Placeholders(" ") == 0 && Placeholders("(") == 0 && Placeholders(")") == 0
    ensures Placeholders(Spaced("AND")) == 0 && Placeholders(Spaced("OR")) == 0
  {
    NotAsked(" ");
    NotAsked("(");
    NotAsked(")");
    NotAsked(Spaced("AND"));
    NotAsked(Spaced("OR"));
  }

  /** Only an operand may be a placeholder. */
  ghost predicate Clean(t: Test) {
    Written(t) && '?' !in t.col && '?' !in t.op && (t.operand == "?" || '?' !in t.operand)
  }

  lemma TestPlaceholders(t: Test)
    requires Clean(t)
    ensures Placeholders(TestText(t)) == Holes(t)
  {
    hide Placeholders, Written;
    FewPlaceholders();
    NotAsked(t.col);
    NotAsked(t.op);
    if t.operand != "?" { NotAsked(t.operand); }
    PlaceholdersConcat(t.col, " ");
    PlaceholdersConcat(t.col + " ", t.op);
    PlaceholdersConcat(t.col + " " + t.op, " ");
    PlaceholdersConcat(t.col + " " + t.op + " ", t.operand);
  }

  lemma {:induction false} OrsPlaceholders(tests: Clause)
    requires tests != [] && forall t | t in tests :: Clean(t)
    ensures Placeholders(Ors(tests)) == HolesIn(tests)
  {
    hide Placeholders, Clean, Spaced, TestText;
    TestPlaceholders(tests[0]);
    if |tests| > 1 {
      var more := Ors(tests[1..]);
      OrsPlaceholders(tests[1..]);
      FewPlaceholders();
      PlaceholdersConcat(Spaced("OR"), more);
      PlaceholdersConcat(TestText(tests[0]), Spaced("OR") + more);
    } else {
      assert tests[1..] == [];
    }
  }

  // ----- What a piece of the query says -----

  /** The conditions of a text, with these arguments, ask exactly what m does. */
  ghost predicate Says(e: Engine, text: string, args: seq<Arg>, m: Row -> bool) {
    && Apart(text) && Read(text).Some?
    && |args| == HolesOf(Read(text).value) == Placeholders(text)
    && forall row :: Selects(e, Read(text).value, args, row) <==> m(row)
  }

  lemma {:induction false} SaysBoth(e: Engine, a: string, x: seq<Arg>, m: Row -> bool, b: string, y: seq<Arg>, n: Row -> bool)
    requires Says(e, a, x, m) && Says(e, b, y, n)
    ensures Says(e, a + b, x + y, row => m(row) && n(row))
  {
    hide Placeholders, Read, Selects, HolesOf;
    ReadConcat(a, b);
    PlaceholdersConcat(a, b);
    HolesConcat(Read(a).value, Read(b).value);
    assert a != "" ==> (a + b)[0] == a[0];
    assert a == "" ==> a + b == b;
    forall row ensures Selects(e, Read(a + b).value, x + y, row) <==> m(row) && n(row) {
      SelectsConcat(e, Read(a).value, x, Read(b).value, y, row);
    }
  }

  lemma {:induction false} SaysNothing(e: Engine)
    ensures Says(e, "", [], row => true)
  {}

  lemma {:induction false} SaysTest(e: Engine, t: Test, args: seq<Arg>, m: Row -> bool)
    requires Clean(t) && |args| == Holes(t) && forall row :: Passes(e, t, args, row) <==> m(row)
    ensures Says(e, One(t), args, m)
  {
    hide Placeholders, Passes, Read, TestText, Selects, Holds, HolesIn, HolesOf, Spaced, Written;
    ReadOne(t);
    TestPlaceholders(t);
    FewPlaceholders();
    PlaceholdersConcat(Spaced("AND"), TestText(t));
    SpacedApart("AND", TestText(t));
    forall row ensures HolesOf([[t]]) == |args| && (Selects(e, [[t]], args, row) <==> m(row)) {
      HoldsOne(e, t, args, row);
      SelectsOne(e, [t], args, row);
    }
    OneHole(t);
  }

  lemma OneHole(t: Test)
    ensures HolesOf([[t]]) == Holes(t)
  {
    var c: Clause := [t];
    var cs: seq<Clause> := [c];
    assert c[1..] == [] && cs[1..] == [];
    assert HolesIn(c) == Holes(t);
  }

  lemma {:induction false} SaysEither(e: Engine, tests: Clause, open: string, close: string, args: seq<Arg>, m: Row -> bool)
    requires tests != [] && forall t | t in tests :: Clean(t)
    requires (forall c | c in open :: Blank(c)) && forall c | c in close :: Blank(c)
    requires |args| == HolesIn(tests) && forall row :: Holds(e, tests, args, row) <==> m(row)
    ensures Says(e, Either(tests, open, close), args, m)
  {
    hide Placeholders, Read, Selects, Holds, HolesIn, HolesOf, Spaced, Clean, Ors;
    assert forall t | t in tests :: Written(t) by { assert forall t | t in tests :: Clean(t); CleanWritten(tests); }
    ReadEither(tests, open, close);
    EitherPlaceholders(tests, open, close);
    SpacedApart("AND", "(" + (open + Ors(tests) + (close + ")")));
    forall row ensures HolesOf([tests]) == |args| && (Selects(e, [tests], args, row) <==> m(row)) {
      SelectsOne(e, tests, args, row);
    }
    EitherHoles(tests);
  }

  lemma EitherHoles(tests: Clause)
    ensures HolesOf([tests]) == HolesIn(tests)
  {
    var cs := [tests];
    assert cs[1..] == [];
  }

  lemma CleanWritten(tests: Clause)
    requires forall t | t in tests :: Clean(t)
    ensures forall t | t in tests :: Written(t)
  {}

  lemma EitherPlaceholders(tests: Clause, open: string, close: string)
    requires tests != [] && forall t | t in tests :: Clean(t)
    requires (forall c | c in open :: Blank(c)) && forall c | c in close :: Blank(c)
    ensures Placeholders(Either(tests, open, close)) == HolesIn(tests)
  {
    hide Placeholders, Clean, Spaced, Ors, HolesIn;
    var ors := Ors(tests);
    FewPlaceholders();
    OrsPlaceholders(tests);
    NotAsked(open);
    NotAsked(close);
    PlaceholdersConcat(open, ors);
    PlaceholdersConcat(close, ")");
    PlaceholdersConcat(open + ors, close + ")");
    PlaceholdersConcat("(", open + ors + (close + ")"));
    PlaceholdersConcat(Spaced("AND"), "(" + (open + ors + (close + ")")));
  }

  // ----- The fields' pieces -----

  function Name(col: TextCol): string {
    match col
    case Id => "id"
    case Method => "method"
    case Path => "path"
    case Query => "query"
    case ClientIP => "client_ip"
    case BackendURL => "backend_url"
    case Model => "model"
    case ErrorText => "error_text"
    case UserAgent => "user_agent"
  }

  lemma NameIsColumn(e: Engine, row: Row, col: TextCol)
    ensures Column(e, row, Name(col)) == TextOf(row, col)
  {}

  /** The names of columns hold small letters and '_' only. */
  ghost predicate Plainly(w: string) {
    w != "" && forall c | c in w :: 'a' <= c <= 'z' || c == '_'
  }

  lemma PlainlyWord(w: string)
    requires Plainly(w)
    ensures IsWord(w) && '?' !in w
  {}

  lemma NamesArePlain(col: TextCol)
    ensures Plainly(Name(col))
  {}

  lemma NameIsWord(col: TextCol)
    ensures IsWord(Name(col)) && '?' !in Name(col)
  {
    hide Name;
    NamesArePlain(col);
    PlainlyWord(Name(col));
  }

  lemma OtherNamesAreWords(name: string)
    requires name == "status_code" || name == "created_at" || name == "is_streaming" || name == "total_tokens"
    ensures IsWord(name) && '?' !in name
  {
    hide IsWord;
    assert Plainly(name);
    PlainlyWord(name);
  }

  lemma OperatorsAreWords(op: string)
    requires op == "=" || op == "LIKE" || op == ">=" || op == "<=" || op == ">" || op == "!="
    ensures IsWord(op) && '?' !in op
  {}

  lemma OperandsAreWords(x: string)
    requires x == "?" || x == "400" || x == "0" || x == "''"
    ensures IsWord(x) && (x == "?" || '?' !in x)
  {}

  lemma CleanTest(name: string, op: string, operand: string)
    requires name == "status_code" || name == "created_at" || name == "is_streaming" || name == "total_tokens"
             || exists col :: name == Name(col)
    requires op == "=" || op == "LIKE" || op == ">=" || op == "<=" || op == ">" || op == "!="
    requires operand == "?" || operand == "400" || operand == "0" || operand == "''"
    ensures Clean(Test(name, op, operand))
  {
    hide IsWord, Name;
    if col :| name == Name(col) { NameIsWord(col); } else { OtherNamesAreWords(name); }
    OperatorsAreWords(op);
    OperandsAreWords(operand);
  }

  function Pattern(x: string): Arg {
    Str("%" + x + "%")
  }

  function LikeTest(col: TextCol): Test {
    Test(Name(col), "LIKE", "?")
  }

  lemma LikePasses(e: Engine, row: Row, col: TextCol, x: string)
    ensures Passes(e, LikeTest(col), [Pattern(x)], row) <==> Mentions(e, row, col, x)
  {
    hide Like, Column, Name;
    NameIsColumn(e, row, col);
  }

  ghost predicate SaysField(e: Engine, f: Filter, k: nat, text: string, args: seq<Arg>) {
    Says(e, text, args, row => Asks(e, f, k, row))
  }

  lemma {:induction false} LikeField(e: Engine, f: Filter, k: nat, col: TextCol, x: string)
    requires forall row :: Asks(e, f, k, row) <==> Mentions(e, row, col, x)
    ensures SaysField(e, f, k, One(LikeTest(col)), [Pattern(x)])
  {
    hide Asks, Says, Passes, Mentions, One, Clean, Pattern, Name;
    forall row ensures Passes(e, LikeTest(col), [Pattern(x)], row) <==> Asks(e, f, k, row) {
      LikePasses(e, row, col, x);
    }
    CleanTest(Name(col), "LIKE", "?");
    SaysTest(e, LikeTest(col), [Pattern(x)], row => Asks(e, f, k, row));
  }

  function IsTest(col: TextCol): Test {
    Test(Name(col), "=", "?")
  }

  lemma {:induction false} TextIs(e: Engine, col: TextCol, x: string)
    ensures Says(e, One(IsTest(col)), [Str(x)], row => Equal(row, col, x))
  {
    hide Says, One, Clean, Name, Column;
    forall row ensures Passes(e, IsTest(col), [Str(x)], row) <==> Equal(row, col, x) {
      NameIsColumn(e, row, col);
    }
    CleanTest(Name(col), "=", "?");
    SaysTest(e, IsTest(col), [Str(x)], row => Equal(row, col, x));
  }

  lemma SameSays(e: Engine, text: string, args: seq<Arg>, m: Row -> bool, n: Row -> bool)
    requires Says(e, text, args, m) && forall row :: m(row) <==> n(row)
    ensures Says(e, text, args, n)
  {
    hide Read, Selects, Placeholders, HolesOf;
  }

  lemma {:induction false} IsField(e: Engine, f: Filter, k: nat, col: TextCol, x: string)
    requires forall row :: Asks(e, f, k, row) <==> Equal(row, col, x)
    ensures SaysField(e, f, k, One(IsTest(col)), [Str(x)])
  {
    hide Asks, Says, Equal, One, IsTest;
    TextIs(e, col, x);
    SameSays(e, One(IsTest(col)), [Str(x)], row => Equal(row, col, x), row => Asks(e, f, k, row));
  }

  lemma {:induction false} ChatField(e: Engine, f: Filter)
    requires f.chatCompletionsOnly
    ensures SaysField(e, f, 0, One(IsTest(Method)) + One(IsTest(Path)), [Str("POST"), Str("/v1/chat/completions")])
  {
    hide Says, One, IsTest, Equal;
    TextIs(e, Method, "POST");
    TextIs(e, Path, "/v1/chat/completions");
    var m: Row -> bool := row => Equal(row, Method, "POST");
    var n: Row -> bool := row => Equal(row, Path, "/v1/chat/completions");
    SaysBoth(e, One(IsTest(Method)), [Str("POST")], m, One(IsTest(Path)), [Str("/v1/chat/completions")], n);
    var args := [Str("POST"), Str("/v1/chat/completions")];
    assert [Str("POST")] + [Str("/v1/chat/completions")] == args;
    SameSays(e, One(IsTest(Method)) + One(IsTest(Path)), args, row => m(row) && n(row), row => Asks(e, f, 0, row));
  }

  lemma {:induction false} OtherField(e: Engine, f: Filter, k: nat, t: Test, args: seq<Arg>)
    requires Clean(t) && |args| == Holes(t) && forall row :: Passes(e, t, args, row) <==> Asks(e, f, k, row)
    ensures SaysField(e, f, k, One(t), args)
  {
    hide Says, Passes, Asks, One;
    SaysTest(e, t, args, row => Asks(e, f, k, row));
  }

  lemma {:induction false} StatusField(e: Engine, f: Filter)
    requires f.statusCode > 0
    ensures SaysField(e, f, 7, One(Test("status_code", "=", "?")), [Num(f.statusCode)])
  {
    hide SaysField, Clean;
    CleanTest("status_code", "=", "?");
    OtherField(e, f, 7, Test("status_code", "=", "?"), [Num(f.statusCode)]);
  }

  lemma {:induction false} FromField(e: Engine, f: Filter)
    requires f.timeFrom.Some?
    ensures SaysField(e, f, 8, One(Test("created_at", ">=", "?")), [TimeArg(e, f.timeFrom.value)])
  {
    hide SaysField, Clean, TimeArg, ValueAtMost;
    CleanTest("created_at", ">=", "?");
    OtherField(e, f, 8, Test("created_at", ">=", "?"), [TimeArg(e, f.timeFrom.value)]);
  }

  lemma {:induction false} ToField(e: Engine, f: Filter)
    requires f.timeTo.Some?
    ensures SaysField(e, f, 9, One(Test("created_at", "<=", "?")), [TimeArg(e, f.timeTo.value)])
  {
    hide SaysField, Clean, TimeArg, ValueAtMost;
    CleanTest("created_at", "<=", "?");
    OtherField(e, f, 9, Test("created_at", "<=", "?"), [TimeArg(e, f.timeTo.value)]);
  }

  lemma {:induction false} StreamingField(e: Engine, f: Filter)
    requires f.streaming.Some?
    ensures SaysField(e, f, 10, One(Test("is_streaming", "=", "?")), [Flag(f.streaming.value)])
  {
    hide SaysField, Clean;
    CleanTest("is_streaming", "=", "?");
    OtherField(e, f, 10, Test("is_streaming", "=", "?"), [Flag(f.streaming.value)]);
  }

  lemma Literals()
    ensures Literal("400") == Num(400) && Literal("0") == Num(0) && Literal("''") == Str("")
  {
    var w := "400";
    assert w[..2] == "40" && w[..2][..1] == "4" && w[..2][..1][..0] == "";
    assert "0"[..0] == "";
    assert NumberOf("4") == 4 && NumberOf("40") == 40;
  }

  lemma {:induction false} TokensField(e: Engine, f: Filter)
    requires f.withTokens
    ensures SaysField(e, f, 12, One(Test("total_tokens", ">", "0")), [])
  {
    hide SaysField, Clean, Literal;
    CleanTest("total_tokens", ">", "0");
    Literals();
    OtherField(e, f, 12, Test("total_tokens", ">", "0"), []);
  }

  const ERROR_TESTS: Clause := [Test("status_code", ">=", "400"), Test(Name(ErrorText), "!=", "''")]

  lemma {:induction false} ErrorHolds(e: Engine, row: Row)
    ensures HolesIn(ERROR_TESTS) == 0 && (Holds(e, ERROR_TESTS, [], row) <==> IsErrorRow(row))
  {
    hide Name, Literal;
    NameIsColumn(e, row, ErrorText);
    Literals();
    var a, b := ERROR_TESTS[0], ERROR_TESTS[1];
    var none: seq<Arg> := [];
    HoldsOne(e, b, none, row);
    HoldsMore(e, a, [b], none, none, row);
    assert [a] + [b] == ERROR_TESTS && none + none == none;
  }

  lemma {:induction false} ErrorField(e: Engine, f: Filter)
    requires f.errorsOnly
    ensures SaysField(e, f, 11, Either(ERROR_TESTS, "", ""), [])
  {
    hide Says, Clean, Either, Holds, HolesIn, IsErrorRow, Name;
    CleanTest("status_code", ">=", "400");
    CleanTest(Name(ErrorText), "!=", "''");
    forall row ensures HolesIn(ERROR_TESTS) == 0 && (Holds(e, ERROR_TESTS, [], row) <==> Asks(e, f, 11, row)) {
      ErrorHolds(e, row);
    }
    ErrorsHaveNoHole(e);
    SaysEither(e, ERROR_TESTS, "", "", [], row => Asks(e, f, 11, row));
  }

  lemma ErrorsHaveNoHole(e: Engine)
    ensures HolesIn(ERROR_TESTS) == 0
  {
    ErrorHolds(e, Row(map[], Instant(0, []), false, 0, 0));
  }

  function LikeTests(cols: seq<TextCol>): Clause {
    if cols == [] then [] else [LikeTest(cols[0])] + LikeTests(cols[1..])
  }

  function Repeated(p: Arg, n: nat): (r: seq<Arg>)
    ensures |r| == n
  {
    if n == 0 then [] else [p] + Repeated(p, n - 1)
  }

  lemma {:induction false} LikeTestsHold(e: Engine, cols: seq<TextCol>, x: string, row: Row)
    ensures HolesIn(LikeTests(cols)) == |cols|
    ensures Holds(e, LikeTests(cols), Repeated(Pattern(x), |cols|), row)
            <==> exists i :: 0 <= i < |cols| && Mentions(e, row, cols[i], x)
  {
    hide Passes, Mentions, Pattern;
    if cols != [] {
      var more := cols[1..];
      LikeTestsHold(e, more, x, row);
      HoldsMore(e, LikeTest(cols[0]), LikeTests(more), [Pattern(x)], Repeated(Pattern(x), |more|), row);
      LikePasses(e, row, cols[0], x);
      assert (exists i :: 0 <= i < |cols| && Mentions(e, row, cols[i], x))
        <==> Mentions(e, row, cols[0], x) || exists i :: 0 <= i < |more| && Mentions(e, row, more[i], x) by {
        if i :| 0 <= i < |more| && Mentions(e, row, more[i], x) {
          var j := i + 1;
          assert cols[j] == more[i];
        }
        if i :| 0 < i < |cols| && Mentions(e, row, cols[i], x) {
          var j := i - 1;
          assert more[j] == cols[i];
        }
      }
    }
  }

  lemma {:induction false} LikeTestsClean(cols: seq<TextCol>)
    ensures |LikeTests(cols)| == |cols| && forall t | t in LikeTests(cols) :: Clean(t)
  {
    hide Clean, Name;
    if cols != [] {
      LikeTestsClean(cols[1..]);
      CleanTest(Name(cols[0]), "LIKE", "?");
    }
  }

  lemma SixTimes(p: Arg)
    ensures Repeated(p, 6) == [p, p, p, p, p, p]
  {
    assert Repeated(p, 1) == [p];
    assert Repeated(p, 2) == [p, p];
    assert Repeated(p, 3) == [p, p, p];
    assert Repeated(p, 4) == [p, p, p, p];
    assert Repeated(p, 5) == [p, p, p, p, p];
  }

  const SEARCH_OPEN := "\n\t\t\t"
  const SEARCH_CLOSE := "\n\t\t"

  lemma {:induction false} SearchField(e: Engine, f: Filter)
    requires f.search != ""
    ensures SaysField(e, f, 13, Either(LikeTests(SEARCHED), SEARCH_OPEN, SEARCH_CLOSE), Repeated(Pattern(f.search), 6))
  {
    hide Says, Clean, Either, Holds, HolesIn, Mentions, LikeTests, Pattern, Repeated;
    LikeTestsClean(SEARCHED);
    forall row
      ensures HolesIn(LikeTests(SEARCHED)) == 6
      ensures Holds(e, LikeTests(SEARCHED), Repeated(Pattern(f.search), 6), row) <==> Asks(e, f, 13, row)
    {
      LikeTestsHold(e, SEARCHED, f.search, row);
    }
    LikeTestsHold(e, SEARCHED, f.search, Row(map[], Instant(0, []), false, 0, 0));
    SaysEither(e, LikeTests(SEARCHED), SEARCH_OPEN, SEARCH_CLOSE, Repeated(Pattern(f.search), 6), row => Asks(e, f, 13, row));
  }

  lemma OneText(name: string, op: string, operand: string)
    ensures One(Test(name, op, operand)) == " AND " + name + " " + op + " " + operand
  {
    assert Spaced("AND") == " AND ";
  }

  /** The texts of the pieces. */
  lemma PieceTexts()
    ensures One(IsTest(Method)) == " AND " + "method" + " " + "=" + " " + "?"
    ensures One(IsTest(Path)) == " AND " + "path" + " " + "=" + " " + "?"
    ensures One(IsTest(BackendURL)) == " AND " + "backend_url" + " " + "=" + " " + "?"
    ensures One(LikeTest(Path)) == " AND " + "path" + " " + "LIKE" + " " + "?"
    ensures One(LikeTest(Model)) == " AND " + "model" + " " + "LIKE" + " " + "?"
    ensures One(LikeTest(ClientIP)) == " AND " + "client_ip" + " " + "LIKE" + " " + "?"
    ensures One(LikeTest(UserAgent)) == " AND " + "user_agent" + " " + "LIKE" + " " + "?"
    ensures ERROR_TESTS == [Test("status_code", ">=", "400"), Test("error_text", "!=", "''")]
    ensures LikeTests(SEARCHED) == [Test("id", "LIKE", "?"), Test("path", "LIKE", "?"), Test("query", "LIKE", "?"),
                                    Test("client_ip", "LIKE", "?"), Test("model", "LIKE", "?"), Test("error_text", "LIKE", "?")]
  {
    hide One;
    OneText("method", "=", "?");
    OneText("path", "=", "?");
    OneText("backend_url", "=", "?");
    OneText("path", "LIKE", "?");
    OneText("model", "LIKE", "?");
    OneText("client_ip", "LIKE", "?");
    OneText("user_agent", "LIKE", "?");
    SixLikes();
  }

  lemma SixLikes()
    ensures LikeTests(SEARCHED) == [LikeTest(Id), LikeTest(Path), LikeTest(Query), LikeTest(ClientIP), LikeTest(Model), LikeTest(ErrorText)]
  {
    hide LikeTest;
    var cols := SEARCHED;
    assert LikeTests(cols[6..]) == [];
    assert cols[5..][1..] == cols[6..] && cols[4..][1..] == cols[5..] && cols[3..][1..] == cols[4..];
    assert cols[2..][1..] == cols[3..] && cols[1..][1..] == cols[2..];
    assert LikeTests(cols[5..]) == [LikeTest(ErrorText)];
    assert LikeTests(cols[4..]) == [LikeTest(Model), LikeTest(ErrorText)];
    assert LikeTests(cols[3..]) == [LikeTest(ClientIP), LikeTest(Model), LikeTest(ErrorText)];
    assert LikeTests(cols[2..]) == [LikeTest(Query), LikeTest(ClientIP), LikeTest(Model), LikeTest(ErrorText)];
    assert LikeTests(cols[1..]) == [LikeTest(Path), LikeTest(Query), LikeTest(ClientIP), LikeTest(Model), LikeTest(ErrorText)];
  }

  // ----- Building the query -----

  ghost predicate AskedTo(e: Engine, f: Filter, k: nat, row: Row) {
    forall j | 0 <= j < k :: Asks(e, f, j, row)
  }

  /** The query has grown by a text that says what the first k fields ask. */
  ghost predicate Covered(e: Engine, f: Filter, k: nat, start: string, query: string, args: seq<Arg>) {
    start <= query && Says(e, query[|start|..], args, row => AskedTo(e, f, k, row))
  }

  /** The k-th field is not set. */
  ghost predicate Idle(e: Engine, f: Filter, k: nat) {
    forall row :: Asks(e, f, k, row)
  }

  lemma {:induction false} NotSet(e: Engine, f: Filter, k: nat, start: string, query: string, args: seq<Arg>)
    requires Covered(e, f, k, start, query, args) && Idle(e, f, k)
    ensures Covered(e, f, k + 1, start, query, args)
  {
    hide Asks, Says;
    forall row ensures AskedTo(e, f, k + 1, row) <==> AskedTo(e, f, k, row) { NextAsked(e, f, k, row); }
    SameSays(e, query[|start|..], args, row => AskedTo(e, f, k, row), row => AskedTo(e, f, k + 1, row));
  }

  lemma NextAsked(e: Engine, f: Filter, k: nat, row: Row)
    ensures AskedTo(e, f, k + 1, row) <==> AskedTo(e, f, k, row) && Asks(e, f, k, row)
  {
    hide Asks;
  }

  lemma {:induction false} NothingYet(e: Engine, f: Filter, query: string)
    ensures Covered(e, f, 0, query, query, [])
  {
    hide Says, Asks;
    SaysNothing(e);
    SameSays(e, "", [], row => true, row => AskedTo(e, f, 0, row));
    assert query[|query|..] == "";
  }

  lemma {:induction false} Added(e: Engine, f: Filter, k: nat, start: string, query: string, args: seq<Arg>,
                                 piece: string, more: seq<Arg>)
    requires Covered(e, f, k, start, query, args) && SaysField(e, f, k, piece, more)
    ensures Covered(e, f, k + 1, start, query + piece, args + more)
  {
    hide Says, Asks, AskedTo;
    var text := query[|start|..];
    var m: Row -> bool := row => AskedTo(e, f, k, row);
    var n: Row -> bool := row => Asks(e, f, k, row);
    SaysBoth(e, text, args, m, piece, more, n);
    assert (query + piece)[|start|..] == text + piece;
    forall row ensures AskedTo(e, f, k + 1, row) <==> AskedTo(e, f, k, row) && Asks(e, f, k, row) { NextAsked(e, f, k, row); }
    SameSays(e, text + piece, args + more, row => m(row) && n(row), row => AskedTo(e, f, k + 1, row));
  }

  lemma AllAsked(e: Engine, f: Filter, start: string, query: string, args: seq<Arg>)
    requires Covered(e, f, FIELDS, start, query, args)
    ensures start <= query && Says(e, query[|start|..], args, row => Means(e, f, row))
  {
    hide Says, Asks;
    SameSays(e, query[|start|..], args, row => AskedTo(e, f, FIELDS, row), row => Means(e, f, row));
  }

  lemma UnsetTexts(e: Engine, f: Filter)
    ensures f.chatCompletionsOnly || Idle(e, f, 0)
    ensures f.path != "" || Idle(e, f, 1)
    ensures f.model != "" || Idle(e, f, 2)
    ensures f.httpMethod != "" || Idle(e, f, 3)
    ensures f.backend != "" || Idle(e, f, 4)
    ensures f.clientIP != "" || Idle(e, f, 5)
    ensures f.userAgent != "" || Idle(e, f, 6)
  {}

  lemma UnsetOthers(e: Engine, f: Filter)
    ensures f.statusCode > 0 || Idle(e, f, 7)
    ensures f.timeFrom.Some? || Idle(e, f, 8)
    ensures f.timeTo.Some? || Idle(e, f, 9)
    ensures f.streaming.Some? || Idle(e, f, 10)
    ensures f.errorsOnly || Idle(e, f, 11)
    ensures f.withTokens || Idle(e, f, 12)
    ensures f.search != "" || Idle(e, f, 13)
  {}

  lemma TextFields(e: Engine, f: Filter)
    ensures f.path != "" ==> SaysField(e, f, 1, One(LikeTest(Path)), [Pattern(f.path)])
    ensures f.model != "" ==> SaysField(e, f, 2, One(LikeTest(Model)), [Pattern(f.model)])
    ensures f.httpMethod != "" ==> SaysField(e, f, 3, One(IsTest(Method)), [Str(f.httpMethod)])
    ensures f.backend != "" ==> SaysField(e, f, 4, One(IsTest(BackendURL)), [Str(f.backend)])
    ensures f.clientIP != "" ==> SaysField(e, f, 5, One(LikeTest(ClientIP)), [Pattern(f.clientIP)])
    ensures f.userAgent != "" ==> SaysField(e, f, 6, One(LikeTest(UserAgent)), [Pattern(f.userAgent)])
  {
    hide SaysField, One, LikeTest, IsTest, Pattern, Mentions, Equal;
    if f.path != "" { LikeField(e, f, 1, Path, f.path); }
    if f.model != "" { LikeField(e, f, 2, Model, f.model); }
    if f.httpMethod != "" { IsField(e, f, 3, Method, f.httpMethod); }
    if f.backend != "" { IsField(e, f, 4, BackendURL, f.backend); }
    if f.clientIP != "" { LikeField(e, f, 5, ClientIP, f.clientIP); }
    if f.userAgent != "" { LikeField(e, f, 6, UserAgent, f.userAgent); }
  }

  /** query += piece; args = append(args, more...) */
  method And(ghost e: Engine, ghost f: Filter, ghost k: nat, ghost start: string, query: string, args: seq<Arg>,
             piece: string, more: seq<Arg>)
    returns (query': string, args': seq<Arg>)
    requires Covered(e, f, k, start, query, args) && SaysField(e, f, k, piece, more)
    ensures query' == query + piece && args' == args + more
    ensures Covered(e, f, k + 1, start, query', args')
  {
    Added(e, f, k, start, query, args, piece, more);
    return query + piece, args + more;
  }

  /** The method, path, model, address and agent conditions. */
  method AppendTextFilters(e: Engine, query: string, f: Filter) returns (query': string, more: seq<Arg>)
    ensures Covered(e, f, 7, query, query', more)
  {
    hide Covered, SaysField, Idle, One, LikeTest, IsTest, Pattern;
    TextFields(e, f);
    UnsetTexts(e, f);
    query', more := query, [];
    NothingYet(e, f, query);
    if f.chatCompletionsOnly {
      ChatField(e, f);
      query', more := And(e, f, 0, query, query', more, One(IsTest(Method)) + One(IsTest(Path)),
                          [Str("POST"), Str("/v1/chat/completions")]);
    } else {
      NotSet(e, f, 0, query, query', more);
    }
    if f.path != "" {
      query', more := And(e, f, 1, query, query', more, One(LikeTest(Path)), [Pattern(f.path)]);
    } else {
      NotSet(e, f, 1, query, query', more);
    }
    if f.model != "" {
      query', more := And(e, f, 2, query, query', more, One(LikeTest(Model)), [Pattern(f.model)]);
    } else {
      NotSet(e, f, 2, query, query', more);
    }
    if f.httpMethod != "" {
      query', more := And(e, f, 3, query, query', more, One(IsTest(Method)), [Str(f.httpMethod)]);
    } else {
      NotSet(e, f, 3, query, query', more);
    }
    if f.backend != "" {
      query', more := And(e, f, 4, query, query', more, One(IsTest(BackendURL)), [Str(f.backend)]);
    } else {
      NotSet(e, f, 4, query, query', more);
    }
    if f.clientIP != "" {
      query', more := And(e, f, 5, query, query', more, One(LikeTest(ClientIP)), [Pattern(f.clientIP)]);
    } else {
      NotSet(e, f, 5, query, query', more);
    }
    if f.userAgent != "" {
      query', more := And(e, f, 6, query, query', more, One(LikeTest(UserAgent)), [Pattern(f.userAgent)]);
    } else {
      NotSet(e, f, 6, query, query', more);
    }
  }

  /** The status, time, flag and search conditions. */
  method AppendOtherFilters(e: Engine, ghost start: string, query: string, args: seq<Arg>, f: Filter)
    returns (query': string, more: seq<Arg>)
    requires Covered(e, f, 7, start, query, args)
    ensures Covered(e, f, 14, start, query', more)
  {
    hide Covered, SaysField, Idle, One, LikeTests, Either, Pattern, TimeArg;
    UnsetOthers(e, f);
    query', more := query, args;
    if f.statusCode > 0 {
      StatusField(e, f);
      query', more := And(e, f, 7, start, query', more, One(Test("status_code", "=", "?")), [Num(f.statusCode)]);
    } else {
      NotSet(e, f, 7, start, query', more);
    }
    if f.timeFrom.Some? {
      FromField(e, f);
      query', more := And(e, f, 8, start, query', more, One(Test("created_at", ">=", "?")), [TimeArg(e, f.timeFrom.value)]);
    } else {
      NotSet(e, f, 8, start, query', more);
    }
    if f.timeTo.Some? {
      ToField(e, f);
      query', more := And(e, f, 9, start, query', more, One(Test("created_at", "<=", "?")), [TimeArg(e, f.timeTo.value)]);
    } else {
      NotSet(e, f, 9, start, query', more);
    }
    if f.streaming.Some? {
      StreamingField(e, f);
      query', more := And(e, f, 10, start, query', more, One(Test("is_streaming", "=", "?")), [Flag(f.streaming.value)]);
    } else {
      NotSet(e, f, 10, start, query', more);
    }
    if f.errorsOnly {
      ErrorField(e, f);
      query', more := And(e, f, 11, start, query', more, Either(ERROR_TESTS, "", ""), []);
    } else {
      NotSet(e, f, 11, start, query', more);
    }
    if f.withTokens {
      TokensField(e, f);
      query', more := And(e, f, 12, start, query', more, One(Test("total_tokens", ">", "0")), []);
    } else {
      NotSet(e, f, 12, start, query', more);
    }
    if f.search != "" {
      SearchField(e, f);
      var p := Pattern(f.search);
      SixTimes(p);
      LikeTestsClean(SEARCHED);
      query', more := And(e, f, 13, start, query', more, Either(LikeTests(SEARCHED), SEARCH_OPEN, SEARCH_CLOSE), [p, p, p, p, p, p]);
    } else {
      NotSet(e, f, 13, start, query', more);
    }
  }

  /** Appends to any query its filter conditions. The text added reads as conditions that select,
      on every row, what the set fields mean, when its placeholders are filled in order with the
      arguments added; and it holds as many of them. */
  method AppendRequestFilterSQL(e: Engine, query: string, args: seq<Arg>, f: Filter)
    returns (query': string, args': seq<Arg>)
    ensures query <= query' && args <= args'
    ensures Placeholders(query') - Placeholders(query) == |args'| - |args|
    ensures Read(query'[|query|..]).Some? && HolesOf(Read(query'[|query|..]).value) == |args'| - |args|
    ensures forall row :: Selects(e, Read(query'[|query|..]).value, args'[|args|..], row) <==> Means(e, f, row)
  {
    hide Covered, Selects, Read, HolesOf, Placeholders, Means;
    var more: seq<Arg>;
    query', more := AppendTextFilters(e, query, f);
    query', more := AppendOtherFilters(e, query, query', more, f);
    args' := args + more;
    AllAsked(e, f, query, query', more);
    assert args'[|args|..] == more;
    PlaceholdersConcat(query, query'[|query|..]);
    assert query' == query + query'[|query|..];
  }

  // ----- What the patterns and the times mean -----

  /** No character of x is special to LIKE. */
  predicate Plain(e: Engine, x: string) {
    forall c | c in x :: c != '%' && c != '_' && !(e.Postgres? && c == '\\')
  }

  lemma {:induction false} AnythingFollows(e: Engine, s: string)
    ensures Like(e, "%", s)
    decreases |s|
  {
    if s != "" {
      AnythingFollows(e, s[1..]);
    } else {
      assert "%"[1..] == "";
    }
  }

  lemma {:induction false} PlainBeginning(e: Engine, x: string, s: string)
    requires Plain(e, x)
    ensures Like(e, x + "%", s) <==> ContainsAt(e, s, x, 0)
  {
    if x == "" {
      assert x + "%" == "%";
      AnythingFollows(e, s);
    } else {
      var p := x + "%";
      assert p[1..] == x[1..] + "%" && p[0] == x[0];
      assert forall c | c in x[1..] :: c in x;
      assert x[0] in x;
      if s != "" {
        PlainBeginning(e, x[1..], s[1..]);
        if ContainsAt(e, s[1..], x[1..], 0) && Fold(e, x[0]) == Fold(e, s[0]) {
          forall k | 0 <= k < |x|
            ensures Fold(e, s[k]) == Fold(e, x[k])
          {
            if k > 0 { assert Fold(e, s[1..][k - 1]) == Fold(e, x[1..][k - 1]); }
          }
        }
        if ContainsAt(e, s, x, 0) {
          assert Fold(e, s[0 + 0]) == Fold(e, x[0]);
          forall k | 0 <= k < |x| - 1
            ensures Fold(e, s[1..][k]) == Fold(e, x[1..][k])
          {
            var j := k + 1;
            assert Fold(e, s[0 + j]) == Fold(e, x[j]);
          }
        }
      }
    }
  }

  lemma ContainsStep(e: Engine, s: string, x: string)
    requires s != ""
    ensures Contains(e, s, x) <==> ContainsAt(e, s, x, 0) || Contains(e, s[1..], x)
  {
    if i: nat :| ContainsAt(e, s, x, i) && i > 0 {
      var j := i - 1;
      forall k | 0 <= k < |x|
        ensures Fold(e, s[1..][j + k]) == Fold(e, x[k])
      {
        assert Fold(e, s[i + k]) == Fold(e, x[k]);
      }
      assert ContainsAt(e, s[1..], x, j);
    }
    if j: nat :| ContainsAt(e, s[1..], x, j) {
      var i := j + 1;
      forall k | 0 <= k < |x|
        ensures Fold(e, s[i + k]) == Fold(e, x[k])
      {
        assert Fold(e, s[1..][j + k]) == Fold(e, x[k]);
      }
      assert ContainsAt(e, s, x, i);
    }
  }

  /** For a plain text the pattern finds exactly the texts that contain it. */
  lemma {:induction false} PlainInside(e: Engine, x: string, s: string)
    requires Plain(e, x)
    ensures Like(e, "%" + x + "%", s) <==> Contains(e, s, x)
    decreases |s|
  {
    var p := "%" + x + "%";
    assert p[0] == '%' && p[1..] == x + "%";
    PlainBeginning(e, x, s);
    if s == "" {
      assert Contains(e, s, x) <==> ContainsAt(e, s, x, 0);
    } else {
      PlainInside(e, x, s[1..]);
      ContainsStep(e, s, x);
    }
  }

  /** A text the pattern x% matches, made by taking '%' for nothing and '_' for 'a'. */
  function Shortest(e: Engine, x: string): (r: string)
    ensures |r| <= |x|
  {
    if x == "" then ""
    else if x[0] == '%' then Shortest(e, x[1..])
    else if x[0] == '_' then "a" + Shortest(e, x[1..])
    else if e.Postgres? && x[0] == '\\' then
      if |x| > 1 then [x[1]] + Shortest(e, x[2..]) else "%"
    else [x[0]] + Shortest(e, x[1..])
  }

  lemma {:induction false} ShortestMatches(e: Engine, x: string)
    ensures Like(e, x + "%", Shortest(e, x))
    decreases |x|
  {
    var p, r := x + "%", Shortest(e, x);
    if x == "" {
      assert p == "%";
      AnythingFollows(e, r);
    } else if e.Postgres? && x[0] == '\\' {
      if |x| > 1 {
        ShortestMatches(e, x[2..]);
        assert p[2..] == x[2..] + "%" && r[1..] == Shortest(e, x[2..]);
      } else {
        assert p[2..] == "" && r[1..] == "";
      }
    } else {
      ShortestMatches(e, x[1..]);
      assert p[1..] == x[1..] + "%";
      if x[0] != '%' { assert r[1..] == Shortest(e, x[1..]); }
    }
  }

  lemma {:induction false} ShortestDiffers(e: Engine, x: string)
    requires !Plain(e, x)
    ensures !ContainsAt(e, Shortest(e, x), x, 0)
    decreases |x|
  {
    var r := Shortest(e, x);
    if ContainsAt(e, r, x, 0) {
      assert Fold(e, r[0 + 0]) == Fold(e, x[0]);
      if x[0] != '%' && x[0] != '_' && !(e.Postgres? && x[0] == '\\') {
        assert r[1..] == Shortest(e, x[1..]) && x == [x[0]] + x[1..];
        ShortestDiffers(e, x[1..]);
        forall k | 0 <= k < |x| - 1
          ensures Fold(e, r[1..][k]) == Fold(e, x[1..][k])
        {
          var j := k + 1;
          assert Fold(e, r[0 + j]) == Fold(e, x[j]);
        }
        assert ContainsAt(e, r[1..], x[1..], 0);
      }
    }
  }

  /** The pattern means "contains the text" exactly for the texts without a special character. */
  lemma {:induction false} PatternExactly(e: Engine, x: string)
    ensures (forall s :: Like(e, "%" + x + "%", s) <==> Contains(e, s, x)) <==> Plain(e, x)
  {
    if Plain(e, x) {
      forall s
        ensures Like(e, "%" + x + "%", s) <==> Contains(e, s, x)
      {
        PlainInside(e, x, s);
      }
    } else {
      var p, r := "%" + x + "%", Shortest(e, x);
      ShortestMatches(e, x);
      assert p[0] == '%' && p[1..] == x + "%";
      ShortestDiffers(e, x);
      assert forall i: nat :: ContainsAt(e, r, x, i) ==> i == 0;
      assert Like(e, "%" + x + "%", r) && !Contains(e, r, x);
    }
  }

  /** The filter in the user's terms: texts contain what was typed, times are instants. */
  ghost predicate Described(e: Engine, f: Filter, row: Row) {
    && (f.chatCompletionsOnly ==> Method in row.texts && row.texts[Method] == "POST" && Path in row.texts && row.texts[Path] == "/v1/chat/completions")
    && Holding(e, row, Path, f.path) && Holding(e, row, Model, f.model)
    && Holding(e, row, ClientIP, f.clientIP) && Holding(e, row, UserAgent, f.userAgent)
    && (f.httpMethod == "" || (Method in row.texts && row.texts[Method] == f.httpMethod))
    && (f.backend == "" || (BackendURL in row.texts && row.texts[BackendURL] == f.backend))
    && (f.statusCode > 0 ==> row.statusCode == f.statusCode)
    && InWindow(f, row)
    && (f.streaming.Some? ==> row.isStreaming == f.streaming.value)
    && (f.errorsOnly ==> row.statusCode >= 400 || (ErrorText in row.texts && row.texts[ErrorText] != ""))
    && (f.withTokens ==> row.totalTokens > 0)
    && (f.search == "" || exists col | col in [Id, Path, Query, ClientIP, Model, ErrorText] :: col in row.texts && Contains(e, row.texts[col], f.search))
  }

  ghost predicate Holding(e: Engine, row: Row, col: TextCol, x: string) {
    x == "" || (col in row.texts && Contains(e, row.texts[col], x))
  }

  predicate InWindow(f: Filter, row: Row) {
    && (f.timeFrom.Some? ==> NotAfter(f.timeFrom.value, row.createdAt))
    && (f.timeTo.Some? ==> NotAfter(row.createdAt, f.timeTo.value))
  }

  predicate PlainTexts(e: Engine, f: Filter) {
    && Plain(e, f.path) && Plain(e, f.model) && Plain(e, f.clientIP) && Plain(e, f.userAgent) && Plain(e, f.search)
  }

  /** The engine orders the two times as instants. */
  ghost predicate Comparable(e: Engine, a: Instant, b: Instant) {
    && Canonical(a) && Canonical(b)
    && (e.SQLite? ==> Calendar(e.stamp, {a.sec, b.sec}) && !Clash(a, b))
  }

  lemma {:induction false} TimesCompared(e: Engine, a: Instant, b: Instant)
    requires Comparable(e, a, b)
    ensures AtMost(e, a, b) <==> NotAfter(a, b)
    ensures AtMost(e, b, a) <==> NotAfter(b, a)
  {
    hide Value;
    if e.SQLite? {
      TextOrderExactly(e.stamp, {a.sec, b.sec}, a, b);
      TextOrderExactly(e.stamp, {a.sec, b.sec}, b, a);
    }
  }

  lemma {:induction false} MentionsContains(e: Engine, row: Row, x: string)
    requires Plain(e, x)
    ensures forall col :: Mentions(e, row, col, x) <==> col in row.texts && Contains(e, row.texts[col], x)
  {
    forall col
      ensures Mentions(e, row, col, x) <==> col in row.texts && Contains(e, row.texts[col], x)
    {
      if col in row.texts { PlainInside(e, x, row.texts[col]); }
    }
  }

  /** The added conditions select exactly the rows the user described, when no text has a LIKE
      special and, on SQLite, the row's time and a bound do not share a second with one fraction a
      proper beginning of the other. */
  lemma {:induction false} MeansDescribed(e: Engine, f: Filter, row: Row)
    requires PlainTexts(e, f)
    requires f.timeFrom.Some? ==> Comparable(e, f.timeFrom.value, row.createdAt)
    requires f.timeTo.Some? ==> Comparable(e, f.timeTo.value, row.createdAt)
    ensures Means(e, f, row) <==> Described(e, f, row)
  {
    hide Plain, Mentions, Contains, NotAfter, AtMost, Comparable;
    MentionsContains(e, row, f.path);
    MentionsContains(e, row, f.model);
    MentionsContains(e, row, f.clientIP);
    MentionsContains(e, row, f.userAgent);
    MentionsContains(e, row, f.search);
    if f.timeFrom.Some? { TimesCompared(e, f.timeFrom.value, row.createdAt); }
    if f.timeTo.Some? { TimesCompared(e, f.timeTo.value, row.createdAt); }
    if Described(e, f, row) {
      forall k | 0 <= k < FIELDS
        ensures Asks(e, f, k, row)
      {}
    }
    if Means(e, f, row) {
      assert Asks(e, f, 0, row) && Asks(e, f, 1, row) && Asks(e, f, 2, row) && Asks(e, f, 3, row)
        && Asks(e, f, 4, row) && Asks(e, f, 5, row) && Asks(e, f, 6, row);
      assert Asks(e, f, 7, row) && Asks(e, f, 8, row) && Asks(e, f, 9, row) && Asks(e, f, 10, row)
        && Asks(e, f, 11, row) && Asks(e, f, 12, row) && Asks(e, f, 13, row);
    }
  }

  /** A stored time and a bound in years 0 to 9999 that do not clash. */
  ghost predicate StoredApart(a: Instant, b: Instant) {
    Canonical(a) && Canonical(b) && FourDigitYear(a.sec) && FourDigitYear(b.sec) && !Clash(a, b)
  }

  /** The same for the texts the program writes into SQLite. */
  lemma {:induction false} MeansDescribedStored(f: Filter, row: Row)
    requires PlainTexts(SQLite(RFC3339), f)
    requires f.timeFrom.Some? ==> StoredApart(f.timeFrom.value, row.createdAt)
    requires f.timeTo.Some? ==> StoredApart(f.timeTo.value, row.createdAt)
    ensures Means(SQLite(RFC3339), f, row) <==> Described(SQLite(RFC3339), f, row)
  {
    hide Plain, PlainTexts, Means, Described, Calendar, FourDigitYear, RFC3339, Canonical, Clash;
    if f.timeFrom.Some? { RFC3339IsCalendar({f.timeFrom.value.sec, row.createdAt.sec}); }
    if f.timeTo.Some? { RFC3339IsCalendar({f.timeTo.value.sec, row.createdAt.sec}); }
    MeansDescribed(SQLite(RFC3339), f, row);
  }

  /** A row of the bound's own second that clashes with it. */
  function Clashing(t: Instant): Instant {
    Instant(t.sec, if t.frac == [] then [5] else [])
  }

  /** So on SQLite every bound, lower or upper, misplaces some row of its own second: one on a
      whole second those with a fraction, any other the row on the whole second. */
  lemma {:induction false} EveryBoundMisplacesARow(t: Instant)
    requires Canonical(t) && FourDigitYear(t.sec)
    ensures var e, row := SQLite(RFC3339), Clashing(t);
            && Canonical(row) && FourDigitYear(row.sec)
            && (AtMost(e, t, row) <==> !NotAfter(t, row)) && (AtMost(e, row, t) <==> !NotAfter(row, t))
  {
    hide Value, FourDigitYear, RFC3339, Format;
    StoredOrderExactly(t, Clashing(t));
    StoredOrderExactly(Clashing(t), t);
  }
}
