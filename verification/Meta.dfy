/** Token counts and timings read from a response (internal/meta/meta.go). */
module Meta {
  import opened Common
  import opened Copy

  datatype ResponseMeta = ResponseMeta(
    model: string,
    promptTokens: int,
    cachedPromptTokens: int,
    completionTok: int,
    totalTokens: int,
    promptMs: real,
    completionMs: real)

  const ZERO := ResponseMeta("", 0, 0, 0, 0, 0.0, 0.0)

  // ----- One JSON document -----

  datatype Usage = Usage(prompt: int, completion: int, total: int, cached: int)
  datatype Timings = Timings(promptN: int, predictedN: int, promptMs: real, predictedMs: real)

  /** A decoded JSON object, as far as it is looked at; a number that is absent reads as 0. */
  datatype Json = Json(
    model: string,
    usage: Option<Usage>,
    timings: Option<Timings>,
    tokensEvaluated: int,
    tokensPredicted: int,
    evaluatedMs: real,
    predictedMs: real)

  function OrElse(x: int, y: int): int {
    if x == 0 then y else x
  }

  function OrElseMs(x: real, y: real): real {
    if x == 0.0 then y else x
  }

  /** parseJSONResponseMeta: usage first, then timings, then the top-level counters; a missing
      total is prompt plus completion. */
  function ParseJSON(doc: Option<Json>): ResponseMeta {
    match doc
    case None => ZERO
    case Some(j) =>
      var usage := if j.usage.Some? then j.usage.value else Usage(0, 0, 0, 0);
      var timings := if j.timings.Some? then j.timings.value else Timings(0, 0, 0.0, 0.0);
      var prompt := OrElse(OrElse(usage.prompt, timings.promptN), j.tokensEvaluated);
      var completion := OrElse(OrElse(usage.completion, timings.predictedN), j.tokensPredicted);
      ResponseMeta(j.model, prompt, usage.cached, completion, OrElse(usage.total, prompt + completion),
                   OrElseMs(timings.promptMs, j.evaluatedMs), OrElseMs(timings.predictedMs, j.predictedMs))
  }

  /** Each count is the usage's when that is not zero, else the timings', else the top-level one;
      a total of zero is prompt plus completion; times are the timings' first. */
  lemma ParsedFields(j: Json)
    ensures var m, u, t := ParseJSON(Some(j)), j.usage, j.timings;
            && m.model == j.model
            && (u.Some? && u.value.prompt != 0 ==> m.promptTokens == u.value.prompt)
            && (u.None? || u.value.prompt == 0 ==> m.promptTokens == if t.Some? && t.value.promptN != 0 then t.value.promptN else j.tokensEvaluated)
            && (u.Some? && u.value.completion != 0 ==> m.completionTok == u.value.completion)
            && (u.None? || u.value.completion == 0 ==> m.completionTok == if t.Some? && t.value.predictedN != 0 then t.value.predictedN else j.tokensPredicted)
            && m.cachedPromptTokens == (if u.Some? then u.value.cached else 0)
            && m.totalTokens == (if u.Some? && u.value.total != 0 then u.value.total else m.promptTokens + m.completionTok)
            && m.promptMs == (if t.Some? && t.value.promptMs != 0.0 then t.value.promptMs else j.evaluatedMs)
            && m.completionMs == (if t.Some? && t.value.predictedMs != 0.0 then t.value.predictedMs else j.predictedMs)
    ensures ParseJSON(None) == ResponseMeta("", 0, 0, 0, 0, 0.0, 0.0)
  {}

  // ----- Merging -----

  /** mergeResponseMeta: a field of src that is set replaces dst's. */
  function Merge(dst: ResponseMeta, src: ResponseMeta): ResponseMeta {
    ResponseMeta(
      if src.model != "" then src.model else dst.model,
      if src.promptTokens > 0 then src.promptTokens else dst.promptTokens,
      if src.cachedPromptTokens > 0 then src.cachedPromptTokens else dst.cachedPromptTokens,
      if src.completionTok > 0 then src.completionTok else dst.completionTok,
      if src.totalTokens > 0 then src.totalTokens else dst.totalTokens,
      if src.promptMs > 0.0 then src.promptMs else dst.promptMs,
      if src.completionMs > 0.0 then src.completionMs else dst.completionMs)
  }

  function Fold(metas: seq<ResponseMeta>): ResponseMeta {
    if metas == [] then ZERO else Merge(Fold(metas[..|metas| - 1]), metas[|metas| - 1])
  }

  /** The last value that is set; unset if there is none. */
  function LastSet<T>(values: seq<T>, isSet: T -> bool, unset: T): T {
    if values == [] then unset
    else if isSet(values[|values| - 1]) then values[|values| - 1]
    else LastSet(values[..|values| - 1], isSet, unset)
  }

  function Values<T>(metas: seq<ResponseMeta>, field: ResponseMeta -> T): seq<T> {
    seq(|metas|, i requires 0 <= i < |metas| => field(metas[i]))
  }

  /** That is: what stands before values none of which is set. */
  lemma {:induction false} LastSetExactly<T>(before: seq<T>, x: T, after: seq<T>, isSet: T -> bool, unset: T)
    requires forall y | y in after :: !isSet(y)
    ensures isSet(x) ==> LastSet(before + [x] + after, isSet, unset) == x
    ensures LastSet(after, isSet, unset) == unset
  {
    if after == [] {
      assert before + [x] + after == before + [x];
    } else {
      var y, rest := after[|after| - 1], after[..|after| - 1];
      assert after == rest + [y] && y in after;
      var all := before + [x] + after;
      assert all[..|all| - 1] == before + [x] + rest && all[|all| - 1] == y;
      LastSetExactly(before, x, rest, isSet, unset);
    }
  }

  lemma ValuesPrefix<T>(metas: seq<ResponseMeta>, field: ResponseMeta -> T)
    requires metas != []
    ensures Values(metas, field)[..|metas| - 1] == Values(metas[..|metas| - 1], field)
  {}

  /** Field by field, folding keeps the last value that is set. */
  lemma {:induction false} FoldIsLastSet(metas: seq<ResponseMeta>)
    ensures var f := Fold(metas);
            && f.model == LastSet(Values(metas, (m: ResponseMeta) => m.model), (x: string) => x != "", "")
            && f.promptTokens == LastSet(Values(metas, (m: ResponseMeta) => m.promptTokens), (x: int) => x > 0, 0)
            && f.cachedPromptTokens == LastSet(Values(metas, (m: ResponseMeta) => m.cachedPromptTokens), (x: int) => x > 0, 0)
            && f.completionTok == LastSet(Values(metas, (m: ResponseMeta) => m.completionTok), (x: int) => x > 0, 0)
            && f.totalTokens == LastSet(Values(metas, (m: ResponseMeta) => m.totalTokens), (x: int) => x > 0, 0)
            && f.promptMs == LastSet(Values(metas, (m: ResponseMeta) => m.promptMs), (x: real) => x > 0.0, 0.0)
            && f.completionMs == LastSet(Values(metas, (m: ResponseMeta) => m.completionMs), (x: real) => x > 0.0, 0.0)
  {
    if metas != [] {
      FoldIsLastSet(metas[..|metas| - 1]);
      ValuesPrefix(metas, (m: ResponseMeta) => m.model);
      ValuesPrefix(metas, (m: ResponseMeta) => m.promptTokens);
      ValuesPrefix(metas, (m: ResponseMeta) => m.cachedPromptTokens);
      ValuesPrefix(metas, (m: ResponseMeta) => m.completionTok);
      ValuesPrefix(metas, (m: ResponseMeta) => m.totalTokens);
      ValuesPrefix(metas, (m: ResponseMeta) => m.promptMs);
      ValuesPrefix(metas, (m: ResponseMeta) => m.completionMs);
    }
  }

  lemma MergeAssociative(a: ResponseMeta, b: ResponseMeta, c: ResponseMeta)
    ensures Merge(Merge(a, b), c) == Merge(a, Merge(b, c))
  {}

  /** Folding a concatenation is merging the folds, as merging is associative. */
  lemma {:induction false} FoldConcat(a: seq<ResponseMeta>, b: seq<ResponseMeta>)
    ensures Fold(a + b) == Merge(Fold(a), Fold(b))
  {
    if b == [] {
      assert a + b == a;
    } else {
      var rest, last := b[..|b| - 1], b[|b| - 1];
      FoldConcat(a, rest);
      assert (a + b)[..|a + b| - 1] == a + rest;
      MergeAssociative(Fold(a), Fold(rest), last);
    }
  }

  /** The fallback at the end of parseSSEResponseMeta. */
  function Complete(m: ResponseMeta): ResponseMeta {
    if m.totalTokens == 0 then m.(totalTokens := m.promptTokens + m.completionTok) else m
  }

  predicate NoNegativeCounts(j: Json) {
    && (j.usage.Some? ==> j.usage.value.prompt >= 0 && j.usage.value.completion >= 0 && j.usage.value.total >= 0)
    && (j.timings.Some? ==> j.timings.value.promptN >= 0 && j.timings.value.predictedN >= 0)
    && j.tokensEvaluated >= 0 && j.tokensPredicted >= 0
  }

  function ParseAll(docs: seq<Option<Json>>): seq<ResponseMeta> {
    seq(|docs|, i requires 0 <= i < |docs| => ParseJSON(docs[i]))
  }

  ghost predicate Counting(docs: seq<Option<Json>>) {
    forall i | 0 <= i < |docs| && docs[i].Some? :: NoNegativeCounts(docs[i].value)
  }

  /** A total was reported, or computed, in some event. */
  ghost predicate TotalSeen(metas: seq<ResponseMeta>) {
    exists i :: 0 <= i < |metas| && metas[i].totalTokens > 0
  }

  ghost predicate CountSeen(metas: seq<ResponseMeta>) {
    exists i :: 0 <= i < |metas| && (metas[i].promptTokens > 0 || metas[i].completionTok > 0)
  }

  lemma {:induction false} FoldSees(metas: seq<ResponseMeta>)
    ensures var f := Fold(metas);
            && f.promptTokens >= 0 && f.completionTok >= 0 && f.totalTokens >= 0
            && (f.totalTokens > 0 <==> TotalSeen(metas))
            && (f.promptTokens > 0 || f.completionTok > 0 <==> CountSeen(metas))
  {
    if metas != [] {
      var rest, n := metas[..|metas| - 1], |metas| - 1;
      FoldSees(rest);
      assert metas == rest + [metas[n]];
      assert TotalSeen(metas) <==> TotalSeen(rest) || metas[n].totalTokens > 0 by {
        if i :| 0 <= i < |metas| && metas[i].totalTokens > 0 && i < n { assert rest[i].totalTokens > 0; }
        if i :| 0 <= i < n && rest[i].totalTokens > 0 { assert metas[i].totalTokens > 0; }
      }
      assert CountSeen(metas) <==> CountSeen(rest) || metas[n].promptTokens > 0 || metas[n].completionTok > 0 by {
        if i :| 0 <= i < |metas| && (metas[i].promptTokens > 0 || metas[i].completionTok > 0) && i < n {
          assert rest[i].promptTokens > 0 || rest[i].completionTok > 0;
        }
        if i :| 0 <= i < n && (rest[i].promptTokens > 0 || rest[i].completionTok > 0) {
          assert metas[i].promptTokens > 0 || metas[i].completionTok > 0;
        }
      }
    }
  }

  /** The final fallback changes the result exactly when no event has a positive total and some
      event has a positive count. */
  lemma {:induction false} FallbackMattersExactly(metas: seq<ResponseMeta>)
    ensures Complete(Fold(metas)) != Fold(metas)
            <==> (forall i | 0 <= i < |metas| :: metas[i].totalTokens <= 0)
                 && (exists i :: 0 <= i < |metas| && (metas[i].promptTokens > 0 || metas[i].completionTok > 0))
  {
    FoldSees(metas);
    assert TotalSeen(metas) <==> !forall i | 0 <= i < |metas| :: metas[i].totalTokens <= 0;
    assert CountSeen(metas) <==> exists i :: 0 <= i < |metas| && (metas[i].promptTokens > 0 || metas[i].completionTok > 0);
  }

  /** Without negative counts a total is missing only if nothing was counted at all. */
  lemma {:induction false} TotalMissesNothing(docs: seq<Option<Json>>)
    requires Counting(docs)
    ensures var f := Fold(ParseAll(docs));
            && f.promptTokens >= 0 && f.completionTok >= 0 && f.totalTokens >= 0
            && (f.totalTokens == 0 ==> f.promptTokens == 0 && f.completionTok == 0)
  {
    var metas := ParseAll(docs);
    FoldSees(metas);
    forall i | 0 <= i < |docs| && (metas[i].promptTokens > 0 || metas[i].completionTok > 0)
      ensures metas[i].totalTokens > 0
    {}
  }

  /** So then the fallback never changes the result. */
  lemma {:induction false} FallbackChangesNothing(docs: seq<Option<Json>>)
    requires Counting(docs)
    ensures Complete(Fold(ParseAll(docs))) == Fold(ParseAll(docs))
  {
    TotalMissesNothing(docs);
    FallbackMattersExactly(ParseAll(docs));
  }

  /** With a negative count it can. */
  lemma {:induction false} NegativeCountNeedsFallback()
    ensures exists docs :: Complete(Fold(ParseAll(docs))) != Fold(ParseAll(docs))
  {
    var doc := Some(Json("m", Some(Usage(5, -5, 0, 0)), None, 0, 0, 0.0, 0.0));
    var metas := ParseAll([doc]);
    assert |metas| == 1 && metas[0] == ParseJSON(doc);
    FallbackMattersExactly(metas);
  }

  // ----- A stream of events -----

  /** The longest line the scanner takes. */
  const LINE_LIMIT := 0x1_0000 - 1

  function Content(line: seq<Byte>): seq<Byte> {
    if line != [] && line[|line| - 1] == NEWLINE then line[..|line| - 1] else line
  }

  /** The lines bufio.Scanner gives: it stops at the first one that is too long. */
  function ScanLines(s: seq<Byte>): seq<seq<Byte>>
    decreases |s|
  {
    if s == [] || |Content(FirstLine(s))| > LINE_LIMIT then []
    else [Content(FirstLine(s))] + ScanLines(s[|FirstLine(s)|..])
  }

  function Trim(s: seq<Byte>): seq<Byte> {
    TrimRightBytes(TrimLeftBytes(s))
  }

  /** A data line's payload, if it has one to parse. */
  function Payload(line: seq<Byte>): Option<seq<Byte>> {
    var text := Trim(line);
    if !(DATA_PREFIX <= text) then None
    else
      var payload := Trim(text[|DATA_PREFIX|..]);
      if payload == [] || payload == DONE_MARK then None else Some(payload)
  }

  /** json.Unmarshal into an object: None for anything else. */
  type Decoder = seq<Byte> -> Option<Json>

  function Docs(lines: seq<seq<Byte>>, decode: Decoder): seq<Option<Json>> {
    if lines == [] then []
    else
      var line := lines[|lines| - 1];
      Docs(lines[..|lines| - 1], decode) + (if Payload(line).Some? then [decode(Payload(line).value)] else [])
  }

  method ParseSSEResponseMeta(body: seq<Byte>, decode: Decoder) returns (meta: ResponseMeta)
    ensures var m := Fold(ParseAll(Docs(ScanLines(body), decode)));
            meta == m.(totalTokens := if m.totalTokens == 0 then m.promptTokens + m.completionTok else m.totalTokens)
  {
    hide Payload, ParseJSON, Trim, ScanLines, Merge;
    meta := ZERO;
    var lines := ScanLines(body);
    for i := 0 to |lines|
      invariant meta == Fold(ParseAll(Docs(lines[..i], decode)))
    {
      assert lines[..i + 1][..i] == lines[..i];
      var payload := Payload(lines[i]);
      ghost var docs := Docs(lines[..i], decode);
      if payload.None? {
        assert docs + [] == docs;
        continue;
      }
      ParseMore(docs, decode(payload.value));
      meta := Merge(meta, ParseJSON(decode(payload.value)));
    }
    assert lines[..|lines|] == lines;
    if meta.totalTokens == 0 {
      meta := meta.(totalTokens := meta.promptTokens + meta.completionTok);
    }
  }

  lemma ParseMore(docs: seq<Option<Json>>, doc: Option<Json>)
    ensures Fold(ParseAll(docs + [doc])) == Merge(Fold(ParseAll(docs)), ParseJSON(doc))
  {
    assert ParseAll(docs + [doc]) == ParseAll(docs) + [ParseJSON(doc)];
    assert (ParseAll(docs) + [ParseJSON(doc)])[..|docs|] == ParseAll(docs);
  }

  ghost predicate LinesFit(s: seq<Byte>)
    decreases |s|
  {
    s == [] || (|Content(FirstLine(s))| <= LINE_LIMIT && LinesFit(s[|FirstLine(s)|..]))
  }

  lemma ScanStep(s: seq<Byte>)
    ensures s != [] && |Content(FirstLine(s))| <= LINE_LIMIT ==>
              ScanLines(s) == [Content(FirstLine(s))] + ScanLines(s[|FirstLine(s)|..])
    ensures s == [] ==> ScanLines(s) == []
  {}

  /** The scanner's lines: what stands before a newline, or at the end, up to 65535 bytes. */
  lemma {:induction false} ScanExactly(line: seq<Byte>, rest: seq<Byte>)
    requires 10 !in line
    ensures ScanLines(line + [10] + rest) == if |line| <= 65535 then [line] + ScanLines(rest) else []
    ensures ScanLines(line) == if line != [] && |line| <= 65535 then [line] else []
  {
    hide FirstLine;
    FirstLineExactly(line, rest);
    var s := line + [10] + rest;
    assert (line + [10])[..|line|] == line && s[|line| + 1..] == rest;
    if line != [] {
      assert line[|line| - 1] in line;
      assert line[|line|..] == [];
    }
  }

  /** A line is read when, white space aside, it is data: and a text other than [DONE]. */
  lemma {:induction false} PayloadExactly(a: seq<Byte>, b: seq<Byte>, text: seq<Byte>, c: seq<Byte>)
    requires Blanks(a) && Blanks(b) && Blanks(c) && (text != [] ==> Visible(text[0]) && Visible(text[|text| - 1]))
    ensures Payload(a + [100, 97, 116, 97, 58] + b + text + c)
            == if text != [] && text != [91, 68, 79, 78, 69, 93] then Some(text) else None
  {
    hide TrimLeftBytes, TrimRightBytes;
    var mark := [100, 97, 116, 97, 58];
    var line := a + mark + b + text + c;
    if text == [] {
      assert line == a + mark + (b + c);
      TrimBytesExactly(a, mark, b + c);
      assert mark[|DATA_PREFIX|..] == [] + [] + [];
      TrimBytesExactly([], [], []);
    } else {
      var inner := mark + b + text;
      assert line == a + inner + c && inner[|inner| - 1] == text[|text| - 1];
      TrimBytesExactly(a, inner, c);
      assert DATA_PREFIX <= inner && inner[|DATA_PREFIX|..] == b + text + [];
      TrimBytesExactly(b, text, []);
    }
  }

  lemma {:induction false} OthersHaveNoPayload(a: seq<Byte>, text: seq<Byte>, c: seq<Byte>)
    requires Blanks(a) && Blanks(c) && (text != [] ==> Visible(text[0]) && Visible(text[|text| - 1]))
    requires |text| < 5 || text[..5] != [100, 97, 116, 97, 58]
    ensures Payload(a + text + c) == None
  {
    hide TrimLeftBytes, TrimRightBytes;
    TrimBytesExactly(a, text, c);
  }

  /** After whole lines within the limit the scanner goes on with what follows. */
  lemma {:induction false} ScanConcat(a: seq<Byte>, b: seq<Byte>)
    requires LinesFit(a) && (a != [] ==> a[|a| - 1] == NEWLINE)
    ensures ScanLines(a + b) == ScanLines(a) + ScanLines(b)
    decreases |a|
  {
    hide Content, FirstLine, ScanLines;
    ScanStep(a);
    ScanStep(a + b);
    if a == [] {
      assert a + b == b;
    } else {
      var n := |FirstLine(a)|;
      assert a[|a| - 1] in a;
      LineOfMore(a, b);
      assert (a + b)[n..] == a[n..] + b;
      ScanConcat(a[n..], b);
    }
  }

  lemma {:induction false} DocsConcat(a: seq<seq<Byte>>, b: seq<seq<Byte>>, decode: Decoder)
    ensures Docs(a + b, decode) == Docs(a, decode) + Docs(b, decode)
  {
    if b == [] {
      assert a + b == a;
    } else {
      assert (a + b)[..|a + b| - 1] == a + b[..|b| - 1];
      DocsConcat(a, b[..|b| - 1], decode);
    }
  }

  /** A stream read in two parts, cut behind a line: its metadata is the merge of the parts'. */
  lemma {:induction false} StreamInParts(a: seq<Byte>, b: seq<Byte>, decode: Decoder)
    requires LinesFit(a) && (a != [] ==> a[|a| - 1] == NEWLINE)
    requires Counting(Docs(ScanLines(a), decode)) && Counting(Docs(ScanLines(b), decode))
    ensures Complete(Fold(ParseAll(Docs(ScanLines(a + b), decode))))
            == Merge(Complete(Fold(ParseAll(Docs(ScanLines(a), decode)))), Complete(Fold(ParseAll(Docs(ScanLines(b), decode)))))
  {
    hide Payload, ParseJSON, ScanLines, Docs, Fold, Merge;
    var x, y := Docs(ScanLines(a), decode), Docs(ScanLines(b), decode);
    ScanConcat(a, b);
    DocsConcat(ScanLines(a), ScanLines(b), decode);
    assert ParseAll(x + y) == ParseAll(x) + ParseAll(y);
    FoldConcat(ParseAll(x), ParseAll(y));
    FallbackChangesNothing(x);
    FallbackChangesNothing(y);
    FallbackChangesNothing(x + y);
  }
}
