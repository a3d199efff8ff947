/** The JSON highlighter as a lexer that loses nothing (frontend/src/utils.js, highlightJSON and
    escapeHtml). */
module Highlight {
  import opened Text

  // ----- Escaping -----

  /** s.replace(/c/g, sub) */
  function ReplaceAll(s: string, c: char, sub: string): string {
    if s == "" then "" else (if s[0] == c then sub else [s[0]]) + ReplaceAll(s[1..], c, sub)
  }

  /** The chain of replacements, '&' first. */
  function EscapeHtml(s: string): string {
    ReplaceAll(ReplaceAll(ReplaceAll(ReplaceAll(s, '&', "&amp;"), '<', "&lt;"), '>', "&gt;"), '"', "&quot;")
  }

  function Entity(c: char): string {
    match c
    case '&' => "&amp;"
    case '<' => "&lt;"
    case '>' => "&gt;"
    case '"' => "&quot;"
    case _ => [c]
  }

  lemma ReplaceEmpty(c: char, sub: string)
    ensures ReplaceAll("", c, sub) == ""
  {}

  lemma ReplaceStep(s: string, c: char, sub: string)
    requires s != ""
    ensures ReplaceAll(s, c, sub) == (if s[0] == c then sub else [s[0]]) + ReplaceAll(s[1..], c, sub)
  {}

  lemma {:induction false} ReplaceConcat(a: string, b: string, c: char, sub: string)
    ensures ReplaceAll(a + b, c, sub) == ReplaceAll(a, c, sub) + ReplaceAll(b, c, sub)
  {
    hide ReplaceAll;
    if a == "" {
      assert a + b == b;
      ReplaceEmpty(c, sub);
    } else {
      assert (a + b)[1..] == a[1..] + b && (a + b)[0] == a[0];
      ReplaceConcat(a[1..], b, c, sub);
      ReplaceStep(a, c, sub);
      ReplaceStep(a + b, c, sub);
    }
  }

  lemma {:induction false} ReplaceNothing(s: string, c: char, sub: string)
    requires c !in s
    ensures ReplaceAll(s, c, sub) == s
  {
    if s != "" {
      assert s == [s[0]] + s[1..];
      ReplaceNothing(s[1..], c, sub);
    }
  }

  lemma {:induction false} ReplaceOne(c: char, d: char, sub: string)
    ensures ReplaceAll([c], d, sub) == if c == d then sub else [c]
  {
    assert [c][1..] == "";
    assert sub + "" == sub && [c] + "" == [c];
  }

  /** No later replacement touches the entity of an earlier one. */
  lemma {:induction false} EscapeOne(c: char)
    ensures EscapeHtml([c]) == Entity(c)
  {
    hide ReplaceAll;
    ReplaceOne(c, '&', "&amp;");
    if c == '&' {
      ReplaceNothing("&amp;", '<', "&lt;");
      ReplaceNothing("&amp;", '>', "&gt;");
      ReplaceNothing("&amp;", '"', "&quot;");
    } else {
      ReplaceOne(c, '<', "&lt;");
      if c == '<' {
        ReplaceNothing("&lt;", '>', "&gt;");
        ReplaceNothing("&lt;", '"', "&quot;");
      } else {
        ReplaceOne(c, '>', "&gt;");
        if c == '>' { ReplaceNothing("&gt;", '"', "&quot;"); } else { ReplaceOne(c, '"', "&quot;"); }
      }
    }
  }

  /** Escaping works character by character. */
  lemma {:induction false} EscapeStep(s: string)
    requires s != ""
    ensures EscapeHtml(s) == Entity(s[0]) + EscapeHtml(s[1..])
  {
    hide EscapeHtml, Entity;
    assert s == [s[0]] + s[1..];
    EscapeOne(s[0]);
    EscapeConcat([s[0]], s[1..]);
  }

  lemma EscapeConcat(a: string, b: string)
    ensures EscapeHtml(a + b) == EscapeHtml(a) + EscapeHtml(b)
  {
    hide ReplaceAll;
    ReplaceConcat(a, b, '&', "&amp;");
    var a1, b1 := ReplaceAll(a, '&', "&amp;"), ReplaceAll(b, '&', "&amp;");
    ReplaceConcat(a1, b1, '<', "&lt;");
    var a2, b2 := ReplaceAll(a1, '<', "&lt;"), ReplaceAll(b1, '<', "&lt;");
    ReplaceConcat(a2, b2, '>', "&gt;");
    ReplaceConcat(ReplaceAll(a2, '>', "&gt;"), ReplaceAll(b2, '>', "&gt;"), '"', "&quot;");
  }

  /** The four characters become their entities wherever they stand, all others stay. */
  lemma {:induction false} EscapeExactly(a: string, c: char, b: string)
    ensures EscapeHtml(a + "&" + b) == EscapeHtml(a) + "&amp;" + EscapeHtml(b)
    ensures EscapeHtml(a + "<" + b) == EscapeHtml(a) + "&lt;" + EscapeHtml(b)
    ensures EscapeHtml(a + ">" + b) == EscapeHtml(a) + "&gt;" + EscapeHtml(b)
    ensures EscapeHtml(a + "\"" + b) == EscapeHtml(a) + "&quot;" + EscapeHtml(b)
    ensures c != '&' && c != '<' && c != '>' && c != '"' ==> EscapeHtml(a + [c] + b) == EscapeHtml(a) + [c] + EscapeHtml(b)
  {
    forall x: char ensures EscapeHtml(a + [x] + b) == EscapeHtml(a) + Entity(x) + EscapeHtml(b) {
      hide EscapeHtml, Entity;
      EscapeConcat(a + [x], b);
      EscapeConcat(a, [x]);
      EscapeOne(x);
    }
    hide EscapeHtml;
    assert "&" == ['&'] && "<" == ['<'] && ">" == ['>'] && "\"" == ['"'];
  }

  lemma {:induction false} EscapeNothing(s: string)
    requires forall c | c in s :: c != '&' && c != '<' && c != '>' && c != '"'
    ensures EscapeHtml(s) == s
  {
    ReplaceNothing(s, '&', "&amp;");
    ReplaceNothing(s, '<', "&lt;");
    ReplaceNothing(s, '>', "&gt;");
    ReplaceNothing(s, '"', "&quot;");
  }

  // ----- Reading the markup back -----

  /** What follows the first '>'. */
  function AfterTag(s: string): (r: string)
    ensures s != "" ==> |r| < |s|
  {
    if s == "" then "" else if s[0] == '>' then s[1..] else AfterTag(s[1..])
  }

  /** The character an entity at the start of s stands for, and the entity's length. */
  function Decoded(s: string): (r: (char, nat))
    requires s != ""
    ensures 1 <= r.1 <= |s|
  {
    if "&amp;" <= s then ('&', 5)
    else if "&lt;" <= s then ('<', 4)
    else if "&gt;" <= s then ('>', 4)
    else if "&quot;" <= s then ('"', 6)
    else (s[0], 1)
  }

  /** The text of some markup: tags dropped, entities decoded. */
  function Unmark(s: string): string
    decreases |s|
  {
    if s == "" then ""
    else if s[0] == '<' then Unmark(AfterTag(s))
    else [Decoded(s).0] + Unmark(s[Decoded(s).1..])
  }

  lemma DecodedEntity(c: char, rest: string)
    ensures Decoded(Entity(c) + rest) == (c, |Entity(c)|) || (c != '&' && c !in "<>\"")
    ensures c != '&' && c !in "<>\"" ==> Decoded(Entity(c) + rest) == (c, 1)
    ensures Entity(c) != "" && Entity(c)[0] != '<'
  {
    var s := Entity(c) + rest;
    if c == '&' {
      assert "&amp;" <= s;
    } else if c == '<' {
      assert s[1] == 'l';
      assert "&lt;" <= s;
    } else if c == '>' {
      assert s[1] == 'g';
      assert "&gt;" <= s;
    } else if c == '"' {
      assert s[1] == 'q';
      assert "&quot;" <= s;
    } else {
      assert s[0] == c;
    }
  }

  lemma {:induction false} UnmarkEntity(c: char, rest: string)
    ensures Unmark(Entity(c) + rest) == [c] + Unmark(rest)
  {
    hide Decoded;
    var s := Entity(c) + rest;
    DecodedEntity(c, rest);
    assert s[|Entity(c)|..] == rest;
    assert s != "" && s[0] == Entity(c)[0];
  }

  lemma EscapeEmpty()
    ensures EscapeHtml("") == ""
  {}

  lemma {:induction false} UnmarkEscaped(x: string, rest: string)
    ensures Unmark(EscapeHtml(x) + rest) == x + Unmark(rest)
  {
    hide Unmark, Entity, EscapeHtml;
    if x == "" {
      EscapeEmpty();
      assert "" + rest == rest && "" + Unmark(rest) == Unmark(rest);
    } else {
      var head, tail := Entity(x[0]), EscapeHtml(x[1..]);
      EscapeStep(x);
      UnmarkEscaped(x[1..], rest);
      UnmarkEntity(x[0], tail + rest);
      assert head + tail + rest == head + (tail + rest);
      assert x + Unmark(rest) == [x[0]] + (x[1..] + Unmark(rest));
    }
  }

  lemma {:induction false} AfterTagEnd(inner: string, rest: string)
    requires '>' !in inner
    ensures AfterTag(inner + ">" + rest) == rest
  {
    var s := inner + ">" + rest;
    if inner != "" {
      assert s[1..] == inner[1..] + ">" + rest && s[0] == inner[0];
      AfterTagEnd(inner[1..], rest);
    } else {
      assert s[0] == '>' && s[1..] == rest;
    }
  }

  function Tag(inner: string): string {
    "<" + inner + ">"
  }

  lemma {:induction false} UnmarkTag(inner: string, rest: string)
    requires '>' !in inner
    ensures Unmark(Tag(inner) + rest) == Unmark(rest)
  {
    var s := Tag(inner) + rest;
    assert s == ("<" + inner) + ">" + rest;
    assert s[0] == '<';
    AfterTagEnd("<" + inner, rest);
  }

  // ----- Tokens -----

  datatype Kind = Key | Str | Number | Literal | Word | Plain

  datatype Token = Token(kind: Kind, text: string)

  function Class(kind: Kind): string {
    match kind
    case Key => "jk"
    case Str => "js"
    case Word => "jb"
    case _ => "jn"
  }

  function Span(kind: Kind, inner: string): string {
    Tag("span class=\"" + Class(kind) + "\"") + inner + Tag("/span")
  }

  /** The markup of one token. */
  function Shown(t: Token): string {
    if t.kind.Plain? then EscapeHtml(t.text) else Span(t.kind, EscapeHtml(t.text))
  }

  lemma SpanIs(kind: Kind, inner: string)
    ensures Span(kind, inner) == "<span class=\"" + Class(kind) + "\">" + inner + "</span>"
  {
    assert Tag("/span") == "</span>";
    assert Tag("span class=\"" + Class(kind) + "\"") == "<span class=\"" + Class(kind) + "\">";
  }

  /** The class of each kind of token. */
  lemma ShownExactly(text: string)
    ensures Shown(Token(Key, text)) == "<span class=\"" + "jk" + "\">" + EscapeHtml(text) + "</span>"
    ensures Shown(Token(Str, text)) == "<span class=\"" + "js" + "\">" + EscapeHtml(text) + "</span>"
    ensures Shown(Token(Number, text)) == "<span class=\"" + "jn" + "\">" + EscapeHtml(text) + "</span>"
    ensures Shown(Token(Literal, text)) == "<span class=\"" + "jn" + "\">" + EscapeHtml(text) + "</span>"
    ensures Shown(Token(Word, text)) == "<span class=\"" + "jb" + "\">" + EscapeHtml(text) + "</span>"
    ensures Shown(Token(Plain, text)) == EscapeHtml(text)
  {
    hide EscapeHtml, Span;
    SpanIs(Key, EscapeHtml(text));
    SpanIs(Str, EscapeHtml(text));
    SpanIs(Number, EscapeHtml(text));
    SpanIs(Literal, EscapeHtml(text));
    SpanIs(Word, EscapeHtml(text));
  }

  function Render(tokens: seq<Token>): string {
    if tokens == [] then "" else Render(tokens[..|tokens| - 1]) + Shown(tokens[|tokens| - 1])
  }

  lemma {:induction false} UnmarkShown(t: Token, rest: string)
    ensures Unmark(Shown(t) + rest) == t.text + Unmark(rest)
  {
    hide EscapeHtml, Unmark, Tag;
    if t.kind.Plain? {
      UnmarkEscaped(t.text, rest);
    } else {
      var open := "span class=\"" + Class(t.kind) + "\"";
      var inner, close := EscapeHtml(t.text), Tag("/span");
      assert '>' !in Class(t.kind);
      assert Shown(t) + rest == Tag(open) + (inner + (close + rest));
      UnmarkTag(open, inner + (close + rest));
      UnmarkEscaped(t.text, close + rest);
      UnmarkTag("/span", rest);
    }
  }

  function Texts(tokens: seq<Token>): string {
    if tokens == [] then "" else Texts(tokens[..|tokens| - 1]) + tokens[|tokens| - 1].text
  }

  /** Whatever the tokens, reading the markup back gives their texts. */
  lemma {:induction false} UnmarkRender(tokens: seq<Token>, rest: string)
    ensures Unmark(Render(tokens) + rest) == Texts(tokens) + Unmark(rest)
  {
    hide Unmark, Shown;
    if tokens == [] {
      assert Render(tokens) + rest == rest && Texts(tokens) + Unmark(rest) == Unmark(rest);
    } else {
      var t, before := tokens[|tokens| - 1], tokens[..|tokens| - 1];
      assert Render(tokens) + rest == Render(before) + (Shown(t) + rest);
      UnmarkRender(before, Shown(t) + rest);
      UnmarkShown(t, rest);
      assert Texts(tokens) + Unmark(rest) == Texts(before) + (t.text + Unmark(rest));
    }
  }

  // ----- The lexical grammar -----

  predicate Digit(c: char) { '0' <= c <= '9' }

  predicate Numeric(c: char) { Digit(c) || c in ".eE+-" }

  predicate Letter(c: char) { 'a' <= c <= 'z' || 'A' <= c <= 'Z' || c == '_' }

  /** \s of ECMAScript */
  predicate Space(c: char) {
    c == ' ' || '\t' <= c <= '\r' || c == '\U{00A0}' || c == '\U{1680}' || '\U{2000}' <= c <= '\U{200A}'
    || c == '\U{2028}' || c == '\U{2029}' || c == '\U{202F}' || c == '\U{205F}' || c == '\U{3000}' || c == '\U{FEFF}'
  }

  /** The classes of characters one by one. */
  lemma NumericsAre(c: char)
    ensures Digit(c) <==> c in "0123456789"
    ensures Numeric(c) <==> c in "0123456789.eE+-"
  {}

  lemma LettersAre(c: char)
    ensures Letter(c) <==> 97 <= c as int <= 122 || 65 <= c as int <= 90 || c == '_'
  {}

  lemma SpacesAreThese(c: char)
    ensures Space(c) <==> (IsSpace(c) && c != '\U{0085}') || c == '\U{FEFF}'
  {}

  predicate StartsNumber(src: string, i: nat)
    requires i < |src|
  {
    Digit(src[i]) || (src[i] == '-' && i + 1 < |src| && Digit(src[i + 1]))
  }

  /** The quote that ends a string whose inside is read from j on; |src| or more when there is none.
      A backslash takes the next character with it. */
  function Closing(src: string, j: nat): (r: nat)
    ensures j <= r && (r < |src| ==> src[r] == '"')
    decreases |src| - j
  {
    if j >= |src| || src[j] == '"' then j else if src[j] == '\\' then Closing(src, j + 2) else Closing(src, j + 1)
  }

  /** A number starts at a digit, or at a minus before one. */
  lemma NumberStarts(a: string, c: char, b: string)
    ensures StartsNumber(a + [c] + b, |a|) <==> c in "0123456789" || (c == '-' && b != "" && b[0] in "0123456789")
  {
    var src := a + [c] + b;
    hide Digit;
    NumericsAre(c);
    if b != "" {
      NumericsAre(b[0]);
      assert src[|a| + 1] == b[0];
    }
  }

  /** One character of a string literal's inside: itself, or a backslash and the character it takes
      with it. */
  predicate Unit(u: string) {
    (|u| == 1 && u[0] != '"' && u[0] != '\\') || (|u| == 2 && u[0] == '\\')
  }

  function Flat(units: seq<string>): string {
    if units == [] then "" else units[0] + Flat(units[1..])
  }

  lemma ClosingStep(src: string, j: nat)
    ensures j < |src| && src[j] == '"' ==> Closing(src, j) == j
    ensures j >= |src| ==> Closing(src, j) == j
    ensures j < |src| && src[j] != '"' && src[j] != '\\' ==> Closing(src, j) == Closing(src, j + 1)
    ensures j < |src| && src[j] == '\\' ==> Closing(src, j) == Closing(src, j + 2)
  {}

  /** A string literal ends at the first quote no backslash takes with it, or not at all. */
  lemma {:induction false} ClosingExactly(a: string, units: seq<string>, b: string)
    requires forall u | u in units :: Unit(u)
    ensures Closing(a + Flat(units) + "\"" + b, |a|) == |a + Flat(units)|
    ensures Closing(a + Flat(units), |a|) >= |a + Flat(units)|
    ensures Closing(a + Flat(units) + "\\", |a|) >= |a + Flat(units) + "\\"|
    decreases |units|
  {
    hide Closing;
    var open, closed, torn := a + Flat(units), a + Flat(units) + "\"" + b, a + Flat(units) + "\\";
    ClosingStep(open, |a|);
    ClosingStep(closed, |a|);
    ClosingStep(torn, |a|);
    if units == [] {
      ClosingStep(torn, |a| + 2);
    } else {
      var u, more := units[0], units[1..];
      assert u in units && forall v | v in more :: v in units;
      ClosingExactly(a + u, more, b);
      assert open == a + u + Flat(more) && closed == a + u + Flat(more) + "\"" + b && torn == a + u + Flat(more) + "\\";
      assert open[|a|] == closed[|a|] == torn[|a|] == u[0];
    }
  }

  ghost predicate ColonFollows(src: string, end: nat) {
    exists k: nat :: end <= k < |src| && src[k] == ':' && forall m: nat | end <= m < k :: Space(src[m])
  }

  /** t is the token of src at i. */
  ghost predicate IsToken(src: string, i: nat, t: Token) {
    var end := i + |t.text|;
    && i < end <= |src| && src[i..end] == t.text
    && match t.kind {
      case Key => src[i] == '"' && end == Least(Closing(src, i + 1) + 1, |src|) && ColonFollows(src, end)
      case Str => src[i] == '"' && end == Least(Closing(src, i + 1) + 1, |src|) && !ColonFollows(src, end)
      case Number => StartsNumber(src, i) && Run(src, i, end, Numeric)
      case Literal => Run(src, i, end, Letter) && t.text in ["true", "false", "null"]
      case Word => Run(src, i, end, Letter) && t.text !in ["true", "false", "null"]
      case Plain => |t.text| == 1 && src[i] != '"' && !StartsNumber(src, i) && !Letter(src[i])
    }
  }

  function Least(a: nat, b: nat): nat {
    if a < b then a else b
  }

  /** src[i..end] is the longest stretch of class characters from i on. */
  predicate Run(src: string, i: nat, end: nat, class_: char -> bool)
    requires i <= end <= |src|
  {
    (forall k | i <= k < end :: class_(src[k])) && (end < |src| ==> !class_(src[end]))
  }

  /** The tokens are those of src up to i, one after the other. */
  ghost predicate Scanned(src: string, tokens: seq<Token>, i: nat) {
    if tokens == [] then i == 0
    else
      var t := tokens[|tokens| - 1];
      |t.text| <= i && IsToken(src, i - |t.text|, t) && Scanned(src, tokens[..|tokens| - 1], i - |t.text|)
  }

  lemma {:induction false} ScannedTexts(src: string, tokens: seq<Token>, i: nat)
    requires Scanned(src, tokens, i)
    ensures i <= |src| && Texts(tokens) == src[..i]
  {
    if tokens != [] {
      var t := tokens[|tokens| - 1];
      ScannedTexts(src, tokens[..|tokens| - 1], i - |t.text|);
      assert src[..i] == src[..i - |t.text|] + src[i - |t.text|..i];
    }
  }

  /** Reading the markup of all of a text's tokens back gives the text. */
  lemma {:induction false} NothingLost(src: string, tokens: seq<Token>)
    requires Scanned(src, tokens, |src|)
    ensures Unmark(Render(tokens)) == src
  {
    ScannedTexts(src, tokens, |src|);
    UnmarkRender(tokens, "");
    assert Render(tokens) + "" == Render(tokens) && src + Unmark("") == src;
  }

  lemma OneMoreToken(src: string, tokens: seq<Token>, i: nat, t: Token)
    requires Scanned(src, tokens, i) && IsToken(src, i, t)
    ensures Scanned(src, tokens + [t], i + |t.text|)
    ensures Render(tokens + [t]) == Render(tokens) + Shown(t)
  {
    hide IsToken, Shown;
    assert (tokens + [t])[..|tokens|] == tokens;
  }

  // ----- The scan -----

  method ScanString(src: string, i: nat) returns (j: nat, isKey: bool)
    requires i < |src|
    ensures j == Closing(src, i + 1)
    ensures isKey <==> ColonFollows(src, j + 1)
  {
    j := i + 1;
    while j < |src| && src[j] != '"'
      invariant Closing(src, j) == Closing(src, i + 1)
      decreases |src| - j
    {
      if src[j] == '\\' { j := j + 1; }
      j := j + 1;
    }
    var k := j + 1;
    while k < |src| && Space(src[k])
      invariant k >= j + 1
      invariant forall m | j + 1 <= m < k :: m < |src| && Space(src[m])
    {
      k := k + 1;
    }
    isKey := k < |src| && src[k] == ':';
  }

  method ScanRun(src: string, i: nat, class_: char -> bool) returns (j: nat)
    requires i < |src|
    ensures i <= j <= |src| && Run(src, i, j, class_)
  {
    j := i;
    while j < |src| && class_(src[j])
      invariant i <= j <= |src|
      invariant forall k | i <= k < j :: class_(src[k])
    {
      j := j + 1;
    }
  }

  lemma NoTokenYet(src: string)
    ensures Scanned(src, [], 0) && Render([]) == ""
  {}

  lemma StringToken(src: string, i: nat, j: nat, isKey: bool) returns (t: Token)
    requires i < |src| && src[i] == '"' && j == Closing(src, i + 1) && (isKey <==> ColonFollows(src, j + 1))
    ensures IsToken(src, i, t) && i + |t.text| == Least(j + 1, |src|)
    ensures Shown(t) == Span(if isKey then Key else Str, EscapeHtml(src[i..Least(j + 1, |src|)]))
  {
    hide Closing, EscapeHtml, Span;
    t := Token(if isKey then Key else Str, src[i..Least(j + 1, |src|)]);
    assert ColonFollows(src, j + 1) <==> ColonFollows(src, Least(j + 1, |src|));
  }

  lemma NumberToken(src: string, i: nat, j: nat) returns (t: Token)
    requires i < |src| && StartsNumber(src, i) && i <= j <= |src| && Run(src, i, j, Numeric)
    ensures IsToken(src, i, t) && i + |t.text| == j && j > i
    ensures Shown(t) == Span(Number, EscapeHtml(src[i..j]))
  {
    hide EscapeHtml, Span;
    t := Token(Number, src[i..j]);
  }

  lemma WordToken(src: string, i: nat, j: nat) returns (t: Token)
    requires i < |src| && Letter(src[i]) && i <= j <= |src| && Run(src, i, j, Letter)
    ensures IsToken(src, i, t) && i + |t.text| == j && j > i
    ensures Shown(t) == Span(if src[i..j] in ["true", "false", "null"] then Literal else Word, src[i..j])
  {
    hide EscapeHtml, Span;
    var word := src[i..j];
    t := Token(if word in ["true", "false", "null"] then Literal else Word, word);
    EscapeNothing(word);
  }

  lemma PlainToken(src: string, i: nat) returns (t: Token)
    requires i < |src| && src[i] != '"' && !StartsNumber(src, i) && !Letter(src[i])
    ensures IsToken(src, i, t) && |t.text| == 1
    ensures Shown(t) == EscapeHtml([src[i]])
  {
    hide EscapeHtml;
    t := Token(Plain, [src[i]]);
  }

  /** The markup before line numbering: it is that of the text's tokens, and reading it back
      gives the text. The scan index grows in every round, so the scan ends on every text. */
  method Markup(src: string) returns (out: string, ghost tokens: seq<Token>)
    ensures Scanned(src, tokens, |src|) && out == Render(tokens)
    ensures Unmark(out) == src
  {
    hide Closing, ColonFollows, Run, IsToken, Scanned, Render, StartsNumber, EscapeHtml, Unmark, Span, Shown, Letter;
    var i, n := 0, |src|;
    out, tokens := "", [];
    NoTokenYet(src);
    while i < n
      invariant Scanned(src, tokens, Least(i, n)) && out == Render(tokens)
      decreases n - i
    {
      var ch := src[i];
      ghost var t: Token;
      if ch == '"' {
        var j, isKey := ScanString(src, i);
        var text := src[i..Least(j + 1, n)];
        out := out + Span(if isKey then Key else Str, EscapeHtml(text));
        t := StringToken(src, i, j, isKey);
        OneMoreToken(src, tokens, i, t);
        i := j + 1;
      } else if StartsNumber(src, i) {
        var j := ScanRun(src, i, Numeric);
        out := out + Span(Number, EscapeHtml(src[i..j]));
        t := NumberToken(src, i, j);
        OneMoreToken(src, tokens, i, t);
        i := j;
      } else if Letter(ch) {
        var j := ScanRun(src, i, Letter);
        var word := src[i..j];
        if word == "true" || word == "false" || word == "null" {
          out := out + Span(Literal, word);
        } else {
          out := out + Span(Word, word);
        }
        t := WordToken(src, i, j);
        OneMoreToken(src, tokens, i, t);
        i := j;
      } else {
        out := out + EscapeHtml([ch]);
        t := PlainToken(src, i);
        OneMoreToken(src, tokens, i, t);
        i := i + 1;
      }
      tokens := tokens + [t];
    }
    NothingLost(src, tokens);
  }

  // ----- Lines -----

  function LineBreaks(s: string): nat {
    multiset(s)['\n']
  }

  lemma NoBreak(s: string)
    requires '\n' !in s
    ensures LineBreaks(s) == 0
  {}

  lemma EntityLine(c: char)
    ensures LineBreaks(Entity(c)) == LineBreaks([c])
  {
    hide LineBreaks;
    if c != '\n' {
      NoBreak([c]);
      NoBreak(Entity(c));
    }
  }

  lemma LineBreaksConcat(a: string, b: string)
    ensures LineBreaks(a + b) == LineBreaks(a) + LineBreaks(b)
  {}

  lemma {:induction false} EscapedLines(s: string)
    ensures LineBreaks(EscapeHtml(s)) == LineBreaks(s)
  {
    hide LineBreaks, Entity;
    if s == "" {
      assert EscapeHtml(s) == s;
    } else {
      EscapeStep(s);
      EscapedLines(s[1..]);
      EntityLine(s[0]);
      LineBreaksConcat(Entity(s[0]), EscapeHtml(s[1..]));
      LineBreaksConcat([s[0]], s[1..]);
      assert s == [s[0]] + s[1..];
    }
  }

  lemma TagLines(kind: Kind)
    ensures LineBreaks(Tag("span class=\"" + Class(kind) + "\"")) == 0 && LineBreaks(Tag("/span")) == 0
  {
    hide LineBreaks;
    NoBreak(Tag("span class=\"" + Class(kind) + "\""));
    NoBreak(Tag("/span"));
  }

  /** The markup has the line breaks of the text, so every line of the text gets one number. */
  lemma {:induction false} LinesKept(tokens: seq<Token>)
    ensures LineBreaks(Render(tokens)) == LineBreaks(Texts(tokens))
  {
    hide LineBreaks, EscapeHtml, Tag;
    if tokens != [] {
      var t, before := tokens[|tokens| - 1], tokens[..|tokens| - 1];
      var open, inner, close := Tag("span class=\"" + Class(t.kind) + "\""), EscapeHtml(t.text), Tag("/span");
      LinesKept(before);
      LineBreaksConcat(Render(before), Shown(t));
      LineBreaksConcat(Texts(before), t.text);
      EscapedLines(t.text);
      TagLines(t.kind);
      LineBreaksConcat(open, inner);
      LineBreaksConcat(open + inner, close);
    }
  }

  // ----- Line numbers -----

  /** out.split('\n') */
  function Split(s: string): (r: seq<string>)
    ensures r != []
  {
    if s == "" then [""]
    else
      var more := Split(s[1..]);
      if s[0] == '\n' then [""] + more else [[s[0]] + more[0]] + more[1..]
  }

  function Decimal(n: nat): string {
    if n < 10 then ['0' + n as char] else Decimal(n / 10) + ['0' + (n % 10) as char]
  }

  /** s.padStart(3, ' ') */
  function PadStart(s: string): string {
    if |s| == 1 then "  " + s else if |s| == 2 then " " + s else s
  }

  function LineTag(n: nat): string {
    Tag("span class=\"ln\"") + PadStart(Decimal(n)) + Tag("/span")
  }

  /** Decimal writes a number out: reading it gives the number, and it has no leading zero. */
  lemma {:induction false} DecimalReads(n: nat)
    ensures Decimal(n) != "" && (n > 0 ==> Decimal(n)[0] != '0') && (forall c | c in Decimal(n) :: IsDigit(c))
    ensures Text.Number(Decimal(n)) == n
  {
    var last := ['0' + (n % 10) as char];
    if n < 10 {
      assert Decimal(n) == last && last[..0] == "" && Text.Number("") == 0;
    } else {
      var d := Decimal(n / 10);
      DecimalReads(n / 10);
      assert Decimal(n)[..|d|] == d;
    }
  }

  /** A line's tag: its number, blanks before it up to three characters. */
  lemma LineTagExactly(n: nat) returns (blanks: string, digits: string)
    ensures LineTag(n) == "<span class=\"ln\">" + blanks + digits + "</span>"
    ensures (forall c | c in blanks :: c == ' ') && |blanks| == if |digits| >= 3 then 0 else 3 - |digits|
    ensures digits != "" && (forall c | c in digits :: IsDigit(c)) && Text.Number(digits) == n && (n > 0 ==> digits[0] != '0')
  {
    hide Decimal;
    DecimalReads(n);
    digits := Decimal(n);
    blanks := if |digits| == 1 then "  " else if |digits| == 2 then " " else "";
    assert PadStart(digits) == blanks + digits;
    assert Tag("span class=\"ln\"") == "<span class=\"ln\">" && Tag("/span") == "</span>";
  }

  function Numbered(lines: seq<string>): (r: seq<string>)
    ensures |r| == |lines|
  {
    seq(|lines|, k requires 0 <= k < |lines| => LineTag(k + 1) + lines[k])
  }

  /** The lines without their tags. */
  function Unnumbered(lines: seq<string>): (r: seq<string>)
    ensures |r| == |lines|
  {
    seq(|lines|, k requires 0 <= k < |lines| =>
      if |LineTag(k + 1)| <= |lines[k]| then lines[k][|LineTag(k + 1)|..] else lines[k])
  }

  lemma {:induction false} SplitFirst(a: string, b: string)
    requires '\n' !in a
    ensures Split(a) == [a] && Split(a + ("\n" + b)) == [a] + Split(b)
  {
    var s := a + ("\n" + b);
    if a == "" {
      assert s[0] == '\n' && s[1..] == b;
    } else {
      assert s[0] == a[0] && s[1..] == a[1..] + ("\n" + b);
      SplitFirst(a[1..], b);
      assert a == [a[0]] + a[1..];
    }
  }

  lemma {:induction false} SplitJoinedLines(lines: seq<string>)
    requires lines != [] && forall l | l in lines :: '\n' !in l
    ensures Split(Join(lines, "\n")) == lines
  {
    assert lines[0] in lines;
    if |lines| == 1 {
      SplitFirst(lines[0], "");
    } else {
      SplitJoinedLines(lines[1..]);
      SplitFirst(lines[0], Join(lines[1..], "\n"));
      assert lines == [lines[0]] + lines[1..];
    }
  }

  lemma JoinFirst(a: string, more: seq<string>)
    ensures Join([a] + more, "\n") == if more == [] then a else a + ("\n" + Join(more, "\n"))
  {
    var lines := [a] + more;
    assert lines[1..] == more && lines[0] == a;
  }

  lemma JoinBreak(more: seq<string>)
    requires more != []
    ensures Join([""] + more, "\n") == "\n" + Join(more, "\n")
  {
    hide Join;
    JoinFirst("", more);
    assert "" + ("\n" + Join(more, "\n")) == "\n" + Join(more, "\n");
  }

  lemma JoinLonger(x: string, more: seq<string>)
    requires more != []
    ensures Join([x + more[0]] + more[1..], "\n") == x + Join(more, "\n")
  {
    hide Join;
    var a, rest := more[0], more[1..];
    assert more == [a] + rest;
    JoinFirst(x + a, rest);
    JoinFirst(a, rest);
    var tail := "\n" + Join(rest, "\n");
    assert x + a + tail == x + (a + tail);
  }

  lemma {:induction false} JoinSplit(s: string)
    ensures Join(Split(s), "\n") == s
  {
    hide Join;
    if s == "" {
      JoinNone();
    } else {
      JoinSplit(s[1..]);
      JoinBreak(Split(s[1..]));
      JoinLonger([s[0]], Split(s[1..]));
      assert s == [s[0]] + s[1..];
    }
  }

  lemma JoinNone()
    ensures Join([""], "\n") == ""
  {}

  lemma {:induction false} SplitLines(s: string)
    ensures forall l | l in Split(s) :: '\n' !in l
    ensures |Split(s)| == LineBreaks(s) + 1
  {
    hide LineBreaks;
    if s == "" {
      NoBreak("");
    } else {
      var more := Split(s[1..]);
      SplitLines(s[1..]);
      LineBreaksConcat([s[0]], s[1..]);
      assert s == [s[0]] + s[1..];
      if s[0] == '\n' {
        OneBreak();
      } else {
        NoBreak([s[0]]);
        assert more[0] in more;
        assert forall l | l in Split(s) :: l == [s[0]] + more[0] || l in more;
      }
    }
  }

  lemma OneBreak()
    ensures LineBreaks("\n") == 1
  {}

  lemma {:induction false} DecimalHasNoBreak(n: nat)
    ensures '\n' !in Decimal(n)
  {
    if n >= 10 { DecimalHasNoBreak(n / 10); }
  }

  lemma LineTagHasNoBreak(n: nat)
    ensures '\n' !in LineTag(n)
  {
    hide Decimal;
    DecimalHasNoBreak(n);
  }

  lemma {:induction false} NumberedLines(markup: string)
    ensures Split(Join(Numbered(Split(markup)), "\n")) == Numbered(Split(markup))
    ensures Join(Unnumbered(Numbered(Split(markup))), "\n") == markup
  {
    hide LineTag, Split, Join;
    var lines := Split(markup);
    var numbered := Numbered(lines);
    JoinSplit(markup);
    SplitLines(markup);
    forall l | l in numbered ensures '\n' !in l {
      var k :| 0 <= k < |lines| && l == LineTag(k + 1) + lines[k];
      LineTagHasNoBreak(k + 1);
      assert lines[k] in lines;
    }
    SplitJoinedLines(numbered);
    assert Unnumbered(numbered) == lines;
  }

  /** highlightJSON: each line of the text gets its number, in order, and taking the numbers away
      and reading the markup back gives the text. */
  method HighlightJSON(src: string) returns (html: string)
    ensures src == "" ==> html == ""
    ensures src != "" ==> |Split(html)| == |Split(src)| && Unmark(Join(Unnumbered(Split(html)), "\n")) == src
    ensures src != "" ==> forall k | 0 <= k < |Split(html)| :: LineTag(k + 1) <= Split(html)[k]
    ensures src != "" ==> exists tokens :: Scanned(src, tokens, |src|) && Join(Unnumbered(Split(html)), "\n") == Render(tokens)
  {
    hide LineTag, Unmark, Split, Join, LineBreaks, Render, Texts, Scanned;
    if src == "" { return ""; }
    var out, tokens := Markup(src);
    html := Join(Numbered(Split(out)), "\n");
    NumberedLines(out);
    LinesKept(tokens);
    SplitLines(out);
    SplitLines(src);
    ScannedTexts(src, tokens, |src|);
    assert src[..|src|] == src;
  }
}
