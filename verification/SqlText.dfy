/** The SQL conditions of a request query: how their text is read, and what they mean on a row of
    the requests table with positional arguments (internal/store/store.go). */
module SqlText {
  import opened Common
  import opened TimeText

  // ----- Words -----

  predicate Blank(c: char) { c == ' ' || c == '\n' || c == '\t' }

  predicate WordChar(c: char) { !Blank(c) && c != '(' && c != ')' }

  ghost predicate IsWord(w: string) {
    w != "" && forall c | c in w :: WordChar(c)
  }

  /** The word at the start of s. */
  function Word(s: string): (w: string)
    ensures |w| <= |s|
    ensures s != "" && WordChar(s[0]) ==> w != ""
  {
    if s != "" && WordChar(s[0]) then [s[0]] + Word(s[1..]) else ""
  }

  /** Words and parentheses; blanks only separate. */
  function Tokens(s: string): seq<string>
    decreases |s|
  {
    if s == "" then []
    else if Blank(s[0]) then Tokens(s[1..])
    else if WordChar(s[0]) then [Word(s)] + Tokens(s[|Word(s)|..])
    else [[s[0]]] + Tokens(s[1..])
  }

  /** b starts a new token. */
  predicate Apart(b: string) {
    b == "" || !WordChar(b[0])
  }

  lemma {:induction false} WordMore(a: string, b: string)
    requires Apart(b)
    ensures Word(a + b) == Word(a)
  {
    if a == "" {
      assert a + b == b;
    } else {
      assert (a + b)[0] == a[0] && (a + b)[1..] == a[1..] + b;
      WordMore(a[1..], b);
    }
  }

  /** The first token or blank is the same whatever follows. */
  lemma FirstToken(a: string, b: string) returns (first: seq<string>, n: nat)
    requires a != "" && Apart(b)
    ensures 0 < n <= |a| && Tokens(a) == first + Tokens(a[n..]) && Tokens(a + b) == first + Tokens(a[n..] + b)
  {
    hide Word;
    n := if WordChar(a[0]) then |Word(a)| else 1;
    first := if Blank(a[0]) then [] else if WordChar(a[0]) then [Word(a)] else [[a[0]]];
    WordMore(a, b);
    assert (a + b)[0] == a[0] && (a + b)[n..] == a[n..] + b;
  }

  lemma {:induction false} TokensConcat(a: string, b: string)
    requires Apart(b)
    ensures Tokens(a + b) == Tokens(a) + Tokens(b)
    decreases |a|
  {
    if a == "" {
      assert a + b == b;
      assert [] + Tokens(b) == Tokens(b);
    } else {
      hide Tokens, Apart;
      var first, n := FirstToken(a, b);
      TokensConcat(a[n..], b);
      assert first + Tokens(a[n..]) + Tokens(b) == first + (Tokens(a[n..]) + Tokens(b));
    }
  }

  lemma {:induction false} WholeWord(w: string)
    requires forall c | c in w :: WordChar(c)
    ensures Word(w) == w
  {
    if w != "" {
      assert w[0] in w && forall c | c in w[1..] :: c in w;
      WholeWord(w[1..]);
      assert w == [w[0]] + w[1..];
    }
  }

  lemma {:induction false} TokensOfWord(w: string)
    requires IsWord(w)
    ensures Tokens(w) == [w] && Tokens(" " + w) == [w]
  {
    WholeWord(w);
    assert w[0] in w && w[|w|..] == "";
    assert (" " + w)[1..] == w;
  }

  lemma {:induction false} TokensOfBlanks(b: string, s: string)
    requires forall c | c in b :: Blank(c)
    ensures Tokens(b + s) == Tokens(s)
  {
    if b == "" {
      assert b + s == s;
    } else {
      assert b[0] in b && forall c | c in b[1..] :: c in b;
      assert (b + s)[0] == b[0] && (b + s)[1..] == b[1..] + s;
      TokensOfBlanks(b[1..], s);
    }
  }

  // ----- Reading conditions -----

  /** A comparison as it is written: names, operators and operands are words. */
  datatype Test = Test(col: string, op: string, operand: string)

  /** Comparisons joined by OR. */
  type Clause = seq<Test>

  /** test (OR test)* ")", and what follows. */
  function ReadTests(t: seq<string>): Option<(Clause, seq<string>)> {
    if |t| < 4 then None
    else if t[3] == ")" then Some(([Test(t[0], t[1], t[2])], t[4..]))
    else if t[3] == "OR" then
      match ReadTests(t[4..])
      case None => None
      case Some((more, rest)) => Some(([Test(t[0], t[1], t[2])] + more, rest))
    else None
  }

  lemma {:induction false} ReadTestsShrinks(t: seq<string>)
    ensures ReadTests(t).Some? ==> |ReadTests(t).value.1| < |t|
  {
    if |t| >= 4 && t[3] != ")" && t[3] == "OR" { ReadTestsShrinks(t[4..]); }
  }

  /** ("AND" (test | "(" test (OR test)* ")"))* */
  function ReadClauses(t: seq<string>): Option<seq<Clause>>
    decreases |t|
  {
    if t == [] then Some([])
    else if |t| < 4 || t[0] != "AND" then None
    else if t[1] == "(" then
      match ReadTests(t[2..])
      case None => None
      case Some((tests, rest)) =>
        ReadTestsShrinks(t[2..]);
        match ReadClauses(rest)
        case None => None
        case Some(more) => Some([tests] + more)
    else
      match ReadClauses(t[4..])
      case None => None
      case Some(more) => Some([[Test(t[1], t[2], t[3])]] + more)
  }

  function Read(text: string): Option<seq<Clause>> {
    ReadClauses(Tokens(text))
  }

  lemma {:induction false} ReadTestsMore(t: seq<string>, u: seq<string>)
    requires ReadTests(t).Some?
    ensures ReadTests(t + u) == Some((ReadTests(t).value.0, ReadTests(t).value.1 + u))
  {
    assert (t + u)[4..] == t[4..] + u;
    if t[3] != ")" { ReadTestsMore(t[4..], u); }
  }

  /** The first condition is read alike whatever follows. */
  lemma ReadFirst(t: seq<string>, u: seq<string>) returns (first: Clause, rest: seq<string>)
    requires t != [] && ReadClauses(t).Some?
    ensures |rest| < |t| && ReadClauses(rest).Some? && ReadClauses(t).value == [first] + ReadClauses(rest).value
    ensures ReadClauses(rest + u).Some? ==> ReadClauses(t + u) == Some([first] + ReadClauses(rest + u).value)
  {
    hide ReadTests;
    if t[1] == "(" {
      assert (t + u)[2..] == t[2..] + u;
      ReadTestsMore(t[2..], u);
      ReadTestsShrinks(t[2..]);
      first, rest := ReadTests(t[2..]).value.0, ReadTests(t[2..]).value.1;
    } else {
      assert (t + u)[4..] == t[4..] + u;
      first, rest := [Test(t[1], t[2], t[3])], t[4..];
    }
  }

  lemma {:induction false} ReadClausesConcat(t: seq<string>, u: seq<string>)
    requires ReadClauses(t).Some? && ReadClauses(u).Some?
    ensures ReadClauses(t + u) == Some(ReadClauses(t).value + ReadClauses(u).value)
    decreases |t|
  {
    if t == [] {
      assert t + u == u;
      assert [] + ReadClauses(u).value == ReadClauses(u).value;
    } else {
      hide ReadClauses;
      var first, rest := ReadFirst(t, u);
      ReadClausesConcat(rest, u);
      var a, b := ReadClauses(rest).value, ReadClauses(u).value;
      assert [first] + a + b == [first] + (a + b);
    }
  }

  /** Conditions written one after the other are read one after the other. */
  lemma {:induction false} ReadConcat(a: string, b: string)
    requires Apart(b) && Read(a).Some? && Read(b).Some?
    ensures Read(a + b) == Some(Read(a).value + Read(b).value)
  {
    hide Tokens, ReadClauses;
    TokensConcat(a, b);
    ReadClausesConcat(Tokens(a), Tokens(b));
  }

  // ----- Writing conditions -----

  function TestText(t: Test): string {
    t.col + " " + t.op + " " + t.operand
  }

  ghost predicate Written(t: Test) {
    IsWord(t.col) && IsWord(t.op) && IsWord(t.operand)
  }

  lemma {:induction false} TestTokens(t: Test)
    requires Written(t)
    ensures Tokens(TestText(t)) == [t.col, t.op, t.operand]
  {
    hide Tokens, IsWord;
    TokensOfWord(t.col);
    TokensOfWord(t.op);
    TokensOfWord(t.operand);
    var a, b := " " + t.op, " " + t.operand;
    TokensConcat(t.col, a);
    TokensConcat(t.col + a, b);
    assert TestText(t) == t.col + a + b;
  }

  /** A keyword between spaces. */
  function Spaced(w: string): string {
    " " + w + " "
  }

  lemma ParensTokens(s: string)
    ensures Tokens("(" + s) == ["("] + Tokens(s) && Tokens(")") == [")"]
  {
    assert ("(" + s)[1..] == s && ")"[1..] == "";
  }

  /** AND with one comparison. */
  function One(t: Test): string {
    Spaced("AND") + TestText(t)
  }

  lemma SpacedThen(w: string, s: string)
    requires IsWord(w)
    ensures Tokens(Spaced(w) + s) == [w] + Tokens(s)
  {
    hide Word, IsWord;
    var t := " " + s;
    TokensOfWord(w);
    TokensConcat(" " + w, t);
    assert Spaced(w) + s == " " + w + t;
    assert t[1..] == s;
  }

  lemma ReadOneTokens(t: Test, u: seq<string>)
    requires Written(t) && u == ["AND", t.col, t.op, t.operand]
    ensures ReadClauses(u) == Some([[t]])
  {
    assert u[4..] == [];
    assert t.col != "(" by { assert t.col[0] in t.col; }
    assert [[t]] + [] == [[t]];
  }

  lemma {:induction false} ReadOne(t: Test)
    requires Written(t)
    ensures Read(One(t)) == Some([[t]])
  {
    hide Tokens, TestText, ReadClauses, Spaced;
    TestTokens(t);
    SpacedThen("AND", TestText(t));
    ReadOneTokens(t, Tokens(One(t)));
  }

  function Ors(tests: Clause): string
    requires tests != []
  {
    if |tests| == 1 then TestText(tests[0]) else TestText(tests[0]) + (Spaced("OR") + Ors(tests[1..]))
  }

  function OrTokens(tests: Clause): seq<string>
    requires tests != []
  {
    [tests[0].col, tests[0].op, tests[0].operand] + if |tests| == 1 then [] else ["OR"] + OrTokens(tests[1..])
  }

  lemma {:induction false} OrsTokens(tests: Clause)
    requires tests != [] && forall t | t in tests :: Written(t)
    ensures Tokens(Ors(tests)) == OrTokens(tests)
  {
    hide Tokens, TestText, Written, Spaced, Apart;
    var a := TestText(tests[0]);
    TestTokens(tests[0]);
    if |tests| > 1 {
      var more := Ors(tests[1..]);
      OrsTokens(tests[1..]);
      SpacedThen("OR", more);
      SpacedApart("OR", more);
      TokensConcat(a, Spaced("OR") + more);
    }
  }

  lemma SpacedApart(w: string, s: string)
    ensures Apart(Spaced(w) + s)
  {
    assert (Spaced(w) + s)[0] == ' ';
  }

  /** AND with comparisons in parentheses; open and close are white space inside them. */
  function Either(tests: Clause, open: string, close: string): string
    requires tests != []
  {
    Spaced("AND") + ("(" + (open + Ors(tests) + (close + ")")))
  }

  lemma {:induction false} ReadOrTokens(tests: Clause)
    requires tests != []
    ensures ReadTests(OrTokens(tests) + [")"]) == Some((tests, []))
  {
    var t := OrTokens(tests) + [")"];
    if |tests| == 1 {
      assert t[4..] == [] && tests == [tests[0]];
    } else {
      assert t[4..] == OrTokens(tests[1..]) + [")"];
      ReadOrTokens(tests[1..]);
      assert tests == [tests[0]] + tests[1..];
    }
  }

  lemma {:induction false} EitherTokens(tests: Clause, open: string, close: string)
    requires tests != [] && forall t | t in tests :: Written(t)
    requires (forall c | c in open :: Blank(c)) && forall c | c in close :: Blank(c)
    ensures Tokens(Either(tests, open, close)) == ["AND", "("] + OrTokens(tests) + [")"]
  {
    hide Tokens, Ors, Written, OrTokens, Spaced, Word;
    var ors, end := Ors(tests), close + ")";
    OrsTokens(tests);
    ParensTokens(open + ors + end);
    TokensOfBlanks(open, ors);
    TokensOfBlanks(close, ")");
    assert !WordChar(end[0]) by {
      if close != "" { assert end[0] == close[0] && close[0] in close; }
    }
    TokensConcat(open + ors, end);
    SpacedThen("AND", "(" + (open + ors + end));
  }

  lemma ReadEitherTokens(tests: Clause, t: seq<string>)
    requires tests != [] && t == ["AND", "("] + OrTokens(tests) + [")"]
    ensures ReadClauses(t) == Some([tests])
  {
    hide ReadTests, OrTokens;
    OrTokensLong(tests);
    assert t[2..] == OrTokens(tests) + [")"];
    ReadOrTokens(tests);
    assert [tests] + [] == [tests];
  }

  lemma {:induction false} ReadEither(tests: Clause, open: string, close: string)
    requires tests != [] && forall t | t in tests :: Written(t)
    requires (forall c | c in open :: Blank(c)) && forall c | c in close :: Blank(c)
    ensures Read(Either(tests, open, close)) == Some([tests])
  {
    hide Tokens, Either, Written, OrTokens, ReadClauses;
    EitherTokens(tests, open, close);
    ReadEitherTokens(tests, Tokens(Either(tests, open, close)));
  }

  lemma OrTokensLong(tests: Clause)
    requires tests != []
    ensures |OrTokens(tests)| >= 3
  {}
}
