/** Streaming a response to the client with a bounded capture (proxy.go streamCopy and
    streamCopySSE, internal/meta/meta.go LimitedBuffer). */
module Copy {
  import opened Common
  import Text

  type Byte = b: int | 0 <= b < 256

  const NEWLINE: Byte := 10

  // ----- Capture -----

  /** The first max bytes, or everything when max is not positive. */
  function Bounded(max: int, all: seq<Byte>): seq<Byte> {
    if max <= 0 || |all| <= max then all else all[..max]
  }

  lemma BoundedIs(max: int, all: seq<Byte>)
    ensures max <= 0 || |all| <= max ==> Bounded(max, all) == all
    ensures 0 < max < |all| ==> Bounded(max, all) == all[..max]
  {}

  lemma PrefixStopped(data: seq<Byte>, end: End, out: seq<Byte>, offered: seq<Byte>, copied: nat)
    requires copied <= |data| && out == data[..copied] && offered == out
    ensures CopiedPrefix(data, end, out, offered, copied, WriteError)
  {}

  class LimitedBuffer {
    const max: int
    var buf: seq<Byte>
    ghost var written: seq<Byte> // all bytes ever offered

    ghost predicate Valid()
      reads this
    {
      buf == Bounded(max, written)
    }

    constructor (max: int)
      ensures Valid() && this.max == max && written == []
    {
      this.max := max;
      buf, written := [], [];
    }

    /** Accepts everything, keeps what fits. */
    method Write(p: seq<Byte>) returns (n: nat)
      requires Valid()
      modifies this
      ensures Valid() && written == old(written) + p && n == |p|
      ensures max <= 0 || |written| <= max ==> buf == written
      ensures 0 < max < |written| ==> buf == written[..max]
    {
      written := written + p;
      n := |p|;
      if max <= 0 {
        buf := buf + p;
        return;
      }
      var remaining := max - |buf|;
      if remaining <= 0 { return; }
      if |p| > remaining {
        buf := buf + p[..remaining];
        return;
      }
      buf := buf + p;
    }
  }

  // ----- Both ends of the copy -----

  /** The client's connection: the k-th Write takes everything (None) or fails after at most n
      bytes (Some(n)). */
  class Writer {
    const plan: nat -> Option<nat>
    var out: seq<Byte>
    var writes: nat

    constructor (plan: nat -> Option<nat>)
      ensures this.plan == plan && out == [] && writes == 0
    {
      this.plan := plan;
      out, writes := [], 0;
    }

    method Write(p: seq<Byte>) returns (n: nat, failed: bool)
      modifies this
      ensures n <= |p| && out == old(out) + p[..n] && writes == old(writes) + 1
      ensures failed == plan(old(writes)).Some? && (!failed ==> n == |p|)
    {
      failed := plan(writes).Some?;
      n := if failed && plan(writes).value < |p| then plan(writes).value else |p|;
      out := out + p[..n];
      writes := writes + 1;
    }
  }

  /** How reading ends; NoProgress is what bufio makes of too many empty reads in a row. */
  datatype End = EOF | Broken | NoProgress

  function Flat(slices: seq<seq<Byte>>): seq<Byte> {
    if slices == [] then [] else slices[0] + Flat(slices[1..])
  }

  /** The backend's body, sliced into reads in any way; its end is reported with the last slice
      or by a read of its own. */
  class Source {
    const slices: seq<seq<Byte>>
    const end: End
    const together: bool
    var k: nat

    ghost predicate Valid()
      reads this
    {
      k <= |slices| && end != NoProgress
    }

    ghost function Rest(): seq<Byte>
      requires Valid()
      reads this
    {
      Flat(slices[k..])
    }

    constructor (slices: seq<seq<Byte>>, end: End, together: bool)
      requires end != NoProgress
      ensures Valid() && Rest() == Flat(slices) && this.end == end
    {
      this.slices, this.end, this.together, k := slices, end, together, 0;
    }

    method Read() returns (chunk: seq<Byte>, err: Option<End>)
      requires Valid()
      modifies this
      ensures Valid() && old(Rest()) == chunk + Rest()
      ensures err.Some? ==> err.value == end && Rest() == []
      ensures k == old(k) + 1 || (err.Some? && k == old(k))
      ensures k == old(k) + 1 ==> old(k) < |slices| && chunk == slices[old(k)]
    {
      if k == |slices| { return [], Some(end); }
      chunk := slices[k];
      k := k + 1;
      err := if k == |slices| && together then Some(end) else None;
    }
  }

  /** How a copy ends. */
  datatype Result = Done | ReadError | WriteError | Stalled

  function EndResult(end: End): Result {
    match end
    case EOF => Done
    case Broken => ReadError
    case NoProgress => Stalled
  }

  /** What both loops promise of data copied from a source: a prefix arrived, copied is its
      length, the capture was offered exactly it, and only a failing write stops early. */
  ghost predicate CopiedPrefix(data: seq<Byte>, end: End, out: seq<Byte>, offered: seq<Byte>, copied: nat, r: Result) {
    && copied <= |data| && out == data[..copied] && offered == out
    && (r != WriteError && r != Stalled ==> copied == |data| && r == EndResult(end))
  }

  ghost predicate NeverFails(plan: nat -> Option<nat>) {
    forall k: nat :: plan(k).None?
  }

  /** The step both loops share: write a piece, capture as much of it as went out. */
  method Deliver(w: Writer, capture: LimitedBuffer, piece: seq<Byte>) returns (n: nat, failed: bool)
    requires capture.Valid()
    modifies w, capture
    ensures capture.Valid() && n <= |piece|
    ensures w.out == old(w.out) + piece[..n] && capture.written == old(capture.written) + piece[..n]
    ensures !failed ==> n == |piece|
    ensures NeverFails(w.plan) ==> !failed
  {
    n, failed := w.Write(piece);
    if n > 0 { var _ := capture.Write(piece[..n]); }
  }

  lemma StillPrefix(data: seq<Byte>, out: seq<Byte>, piece: seq<Byte>, rest: seq<Byte>, n: nat)
    requires data == out + (piece + rest) && n <= |piece|
    ensures out + piece[..n] == data[..|out| + n]
    ensures n == |piece| ==> data == (out + piece[..n]) + rest
  {}

  lemma PrefixEnds(data: seq<Byte>, end: End, out: seq<Byte>, left: seq<Byte>, offered: seq<Byte>, copied: nat, e: End)
    requires data == out + left && offered == out && copied == |out|
    requires e == NoProgress || (e == end && left == [])
    ensures CopiedPrefix(data, end, out, offered, copied, EndResult(e))
    ensures EndResult(e) == (if e == EOF then Done else if e == Broken then ReadError else Stalled)
    ensures e != NoProgress ==> out == data
  {
    assert out == data[..|out|];
  }

  method StreamCopy(w: Writer, src: Source, capture: LimitedBuffer) returns (copied: nat, r: Result)
    requires src.Valid() && capture.Valid() && w.out == [] && capture.written == []
    modifies w, src, capture
    ensures CopiedPrefix(old(src.Rest()), src.end, w.out, capture.written, copied, r)
    ensures capture.buf == Bounded(capture.max, w.out)
    ensures r == Done ==> src.end == EOF
    ensures r == ReadError ==> src.end == Broken
    ensures r != Stalled && (NeverFails(w.plan) ==> r != WriteError)
    ensures NeverFails(w.plan) ==> (r == Done <==> src.end == EOF) && w.out == old(src.Rest())
  {
    hide Flat, Bounded, NeverFails, CopiedPrefix, EndResult;
    ghost var data := src.Rest();
    copied := 0;
    while true
      invariant src.Valid() && capture.Valid()
      invariant data == w.out + src.Rest() && capture.written == w.out && copied == |w.out|
      decreases |src.slices| - src.k
    {
      ghost var out := w.out;
      var chunk, err := src.Read();
      if |chunk| > 0 {
        var n, failed := Deliver(w, capture, chunk);
        StillPrefix(data, out, chunk, src.Rest(), n);
        copied := copied + n;
        if failed {
          PrefixStopped(data, src.end, w.out, capture.written, copied);
          return copied, WriteError;
        }
      }
      if err.Some? {
        PrefixEnds(data, src.end, w.out, [], capture.written, copied, err.value);
        return copied, EndResult(err.value);
      }
    }
  }

  // ----- Server-sent events -----

  /** Up to and with the first newline, or everything. */
  function FirstLine(s: seq<Byte>): (line: seq<Byte>)
    ensures line <= s && (s != [] ==> line != [])
    ensures NEWLINE in s <==> line != [] && line[|line| - 1] == NEWLINE
    ensures NEWLINE !in s ==> line == s
  {
    if s == [] then []
    else if s[0] == NEWLINE then [s[0]]
    else
      var more := FirstLine(s[1..]);
      assert s == [s[0]] + s[1..];
      assert NEWLINE in s <==> NEWLINE in s[1..];
      [s[0]] + more
  }

  /** That is: a line is what comes before a newline, with it; without one it is everything. */
  lemma {:induction false} FirstLineExactly(line: seq<Byte>, rest: seq<Byte>)
    requires 10 !in line
    ensures FirstLine(line) == line && FirstLine(line + [10] + rest) == line + [10]
  {
    var s := line + [10] + rest;
    if line == [] {
      assert s[0] == 10;
    } else {
      assert s[0] == line[0] && s[1..] == line[1..] + [10] + rest;
      FirstLineExactly(line[1..], rest);
    }
  }

  const DATA_PREFIX: seq<Byte> := [100, 97, 116, 97, 58] // data:
  const DONE_MARK: seq<Byte> := [91, 68, 79, 78, 69, 93] // [DONE]

  /** The bytes of one white-space character in UTF-8. */
  predicate IsSpaceBytes(b: seq<Byte>) {
    match |b|
    case 1 => b[0] == 32 || 9 <= b[0] <= 13
    case 2 => b == [0xC2, 0x85] || b == [0xC2, 0xA0]
    case 3 => b == [0xE1, 0x9A, 0x80] || (b[0] == 0xE2 && b[1] == 0x80 && (0x80 <= b[2] <= 0x8A || b[2] in {0xA8, 0xA9, 0xAF}))
              || b == [0xE2, 0x81, 0x9F] || b == [0xE3, 0x80, 0x80]
    case _ => false
  }

  /** The UTF-8 encoding of a character up to U+FFFF. */
  function Utf8(c: char): seq<Byte>
    requires c as int < 0x1_0000
  {
    var n := c as int;
    if n < 0x80 then [n]
    else if n < 0x800 then [0xC0 + n / 64, 0x80 + n % 64]
    else [0xE0 + n / 4096, 0x80 + n / 64 % 64, 0x80 + n % 64]
  }

  /** These are the encodings of the white-space characters. */
  lemma SpaceBytesAre(c: char)
    requires c as int < 0x1_0000
    ensures IsSpaceBytes(Utf8(c)) <==> Text.IsSpace(c)
  {
    var n := c as int;
    if 0x80 <= n < 0x800 {
      assert n == 64 * (n / 64) + n % 64;
    } else if n >= 0x800 {
      assert n / 64 == 64 * (n / 4096) + n / 64 % 64;
      assert n == 64 * (n / 64) + n % 64;
    }
  }

  function TrimLeftBytes(s: seq<Byte>): seq<Byte> {
    if |s| >= 1 && IsSpaceBytes(s[..1]) then TrimLeftBytes(s[1..])
    else if |s| >= 2 && IsSpaceBytes(s[..2]) then TrimLeftBytes(s[2..])
    else if |s| >= 3 && IsSpaceBytes(s[..3]) then TrimLeftBytes(s[3..])
    else s
  }

  function TrimRightBytes(s: seq<Byte>): seq<Byte> {
    if |s| >= 1 && IsSpaceBytes(s[|s| - 1..]) then TrimRightBytes(s[..|s| - 1])
    else if |s| >= 2 && IsSpaceBytes(s[|s| - 2..]) then TrimRightBytes(s[..|s| - 2])
    else if |s| >= 3 && IsSpaceBytes(s[|s| - 3..]) then TrimRightBytes(s[..|s| - 3])
    else s
  }

  /** A data line with a payload other than the closing mark. */
  predicate IsDataChunk(line: seq<Byte>) {
    DATA_PREFIX <= line &&
    var payload := TrimRightBytes(TrimLeftBytes(line[|DATA_PREFIX|..]));
    payload != [] && payload != DONE_MARK
  }

  /** ASCII white space. */
  predicate Blanks(s: seq<Byte>) {
    forall b | b in s :: b == 32 || 9 <= b <= 13
  }

  /** A byte of its own that is no white space. */
  predicate Visible(b: Byte) {
    32 < b < 127
  }

  lemma {:induction false} TrimLeftBlanks(left: seq<Byte>, rest: seq<Byte>)
    requires Blanks(left) && (rest != [] ==> Visible(rest[0]))
    ensures TrimLeftBytes(left + rest) == rest
  {
    var s := left + rest;
    if left == [] {
      assert s == rest;
      if rest != [] { assert !IsSpaceBytes(s[..1]); }
    } else {
      assert forall b | b in left[1..] :: b in left;
      assert left[0] in left && s[..1] == [left[0]] && s[1..] == left[1..] + rest;
      TrimLeftBlanks(left[1..], rest);
    }
  }

  lemma VisibleIsNoSpace(text: seq<Byte>, k: nat)
    requires 1 <= k <= |text| && Visible(text[|text| - 1])
    ensures !IsSpaceBytes(text[|text| - k..])
  {
    var b := text[|text| - k..];
    assert b[|b| - 1] == text[|text| - 1];
  }

  lemma VisibleEnds(text: seq<Byte>)
    requires text != [] && Visible(text[|text| - 1])
    ensures TrimRightBytes(text) == text
  {
    hide *;
    VisibleIsNoSpace(text, 1);
    if |text| >= 2 { VisibleIsNoSpace(text, 2); }
    if |text| >= 3 { VisibleIsNoSpace(text, 3); }
    NoSpaceEnds(text);
  }

  lemma NoSpaceEnds(text: seq<Byte>)
    requires |text| >= 1 ==> !IsSpaceBytes(text[|text| - 1..])
    requires |text| >= 2 ==> !IsSpaceBytes(text[|text| - 2..])
    requires |text| >= 3 ==> !IsSpaceBytes(text[|text| - 3..])
    ensures TrimRightBytes(text) == text
  {
    hide IsSpaceBytes;
  }

  lemma BlankEnds(text: seq<Byte>, b: Byte)
    requires b == 32 || 9 <= b <= 13
    ensures TrimRightBytes(text + [b]) == TrimRightBytes(text)
  {
    var s := text + [b];
    assert IsSpaceBytes([b]);
    assert s[|s| - 1..] == [b] && s[..|s| - 1] == text;
  }

  lemma {:induction false} TrimRightBlanks(text: seq<Byte>, right: seq<Byte>)
    requires Blanks(right) && (text != [] ==> Visible(text[|text| - 1]))
    ensures TrimRightBytes(text + right) == text
  {
    hide TrimRightBytes, Visible;
    if right == [] {
      assert text + right == text;
      if text == [] { NothingToTrim(); } else { VisibleEnds(text); }
    } else {
      var b, more := right[|right| - 1], right[..|right| - 1];
      assert right == more + [b] && text + right == text + more + [b];
      assert b in right && forall c | c in more :: c in right;
      TrimRightBlanks(text, more);
      BlankEnds(text + more, b);
    }
  }

  lemma NothingToTrim()
    ensures TrimRightBytes([]) == []
  {}

  /** White space, a text and white space: trimming gives the text. */
  lemma {:induction false} TrimBytesExactly(left: seq<Byte>, text: seq<Byte>, right: seq<Byte>)
    requires Blanks(left) && Blanks(right) && (text != [] ==> Visible(text[0]) && Visible(text[|text| - 1]))
    ensures TrimRightBytes(TrimLeftBytes(left + text + right)) == text
  {
    hide TrimLeftBytes, TrimRightBytes;
    if text == [] {
      assert left + text + right == (left + right) + [];
      TrimLeftBlanks(left + right, []);
      assert [] + [] == text;
      TrimRightBlanks([], []);
    } else {
      assert left + text + right == left + (text + right);
      TrimLeftBlanks(left, text + right);
      TrimRightBlanks(text, right);
    }
  }

  /** A line counts when it starts with data: and holds a text other than [DONE] behind it. */
  lemma {:induction false} ChunkExactly(left: seq<Byte>, text: seq<Byte>, right: seq<Byte>)
    requires Blanks(left) && Blanks(right) && (text != [] ==> Visible(text[0]) && Visible(text[|text| - 1]))
    ensures IsDataChunk([100, 97, 116, 97, 58] + left + text + right) <==> text != [] && text != [91, 68, 79, 78, 69, 93]
  {
    var line := [100, 97, 116, 97, 58] + left + text + right;
    assert line == DATA_PREFIX + (left + text + right);
    assert line[|DATA_PREFIX|..] == left + text + right;
    TrimBytesExactly(left, text, right);
  }

  lemma OthersAreNoChunks(line: seq<Byte>)
    requires IsDataChunk(line)
    ensures |line| > 5 && line[..5] == [100, 97, 116, 97, 58]
  {
    assert TrimLeftBytes([]) == [] && TrimRightBytes([]) == [];
    assert line[..5] == DATA_PREFIX && line == line[..5] + line[5..];
  }

  /** The data chunks among the lines of a text. */
  function DataChunks(s: seq<Byte>): nat
    decreases |s|
  {
    if s == [] then 0
    else (if IsDataChunk(FirstLine(s)) then 1 else 0) + DataChunks(s[|FirstLine(s)|..])
  }

  /** Line by line. */
  lemma {:induction false} DataChunksExactly(line: seq<Byte>, rest: seq<Byte>)
    requires 10 !in line
    ensures DataChunks(line + [10] + rest) == (if IsDataChunk(line + [10]) then 1 else 0) + DataChunks(rest)
    ensures DataChunks(line) == if line != [] && IsDataChunk(line) then 1 else 0
  {
    hide IsDataChunk, FirstLine;
    FirstLineExactly(line, rest);
    var s := line + [10] + rest;
    assert s[|line| + 1..] == rest;
    if line != [] { assert line[|line|..] == []; }
  }

  const EMPTY_READS: nat := 100

  /** The reads hold that many empty ones in a row. */
  ghost predicate Stalls(slices: seq<seq<Byte>>) {
    exists k: nat, m: nat :: m == k + EMPTY_READS && EmptyRun(slices, k, m)
  }

  ghost predicate EmptyRun(slices: seq<seq<Byte>>, k: nat, m: nat) {
    k <= m <= |slices| && forall i | k <= i < m :: slices[i] == []
  }

  /** A hundred in a row, one behind the other. */
  lemma {:induction false} StallsAt(slices: seq<seq<Byte>>) returns (before: seq<seq<Byte>>, gap: seq<seq<Byte>>, after: seq<seq<Byte>>)
    requires Stalls(slices)
    ensures slices == before + gap + after && |gap| == 100 && forall s | s in gap :: s == []
  {
    var k: nat, m: nat :| m == k + EMPTY_READS && EmptyRun(slices, k, m);
    before, gap, after := slices[..k], slices[k..m], slices[m..];
  }

  lemma {:induction false} StallsIn(before: seq<seq<Byte>>, gap: seq<seq<Byte>>, after: seq<seq<Byte>>)
    requires |gap| == 100 && forall s | s in gap :: s == []
    ensures Stalls(before + gap + after)
  {
    var slices, k := before + gap + after, |before|;
    forall i | k <= i < k + 100 ensures slices[i] == [] {
      assert slices[i] == gap[i - k] && gap[i - k] in gap;
    }
    assert EmptyRun(slices, k, k + EMPTY_READS);
  }

  /** bufio.Reader, as far as ReadBytes goes. */
  class LineReader {
    const src: Source
    var buf: seq<Byte>
    var err: Option<End>

    ghost predicate Valid()
      reads this, src
    {
      src.Valid() && (err.Some? && err.value != NoProgress ==> err.value == src.end && src.Rest() == [])
    }

    ghost function Rest(): seq<Byte>
      requires src.Valid()
      reads this, src
    {
      buf + src.Rest()
    }

    constructor (src: Source)
      requires src.Valid()
      ensures Valid() && this.src == src && Rest() == src.Rest() && err.None?
    {
      this.src, buf, err := src, [], None;
    }

    /** Reads until a newline is buffered, the source ends or a hundred reads in a row were empty. */
    method Fill()
      requires Valid() && err != Some(NoProgress)
      modifies this, src
      ensures Valid() && Rest() == old(Rest()) && (NEWLINE in buf || err.Some?)
      ensures err == Some(NoProgress) ==> NEWLINE !in buf && Stalls(src.slices)
    {
      hide Flat, Stalls;
      ghost var all := Rest();
      var empty := 0;
      while NEWLINE !in buf && err.None?
        invariant Valid() && Rest() == all
        invariant err == Some(NoProgress) ==> NEWLINE !in buf && Stalls(src.slices)
        invariant empty <= src.k && EmptyRun(src.slices, src.k - empty, src.k)
        decreases |src.slices| - src.k, err.None?
      {
        ghost var before, was := src.Rest(), buf;
        var chunk;
        chunk, err := src.Read();
        assert buf + before == buf + chunk + src.Rest();
        buf := buf + chunk;
        empty := if chunk == [] && err.None? then empty + 1 else 0;
        if empty == EMPTY_READS {
          StalledHere(src.slices, src.k - empty);
          assert buf == was;
          err := Some(NoProgress);
        }
      }
    }

    /** ReadBytes('\n'): the next line whatever the slicing; an end is reported when what is left
        has no newline, or with what was read so far after a hundred empty reads. */
    method ReadLine() returns (line: seq<Byte>, end: Option<End>)
      requires Valid() && err != Some(NoProgress)
      modifies this, src
      ensures Valid() && old(Rest()) == line + Rest()
      ensures end != Some(NoProgress) ==> line == FirstLine(old(Rest())) && err != Some(NoProgress)
      ensures end.None? ==> NEWLINE in old(Rest())
      ensures end.Some? && end.value != NoProgress ==> end.value == src.end && NEWLINE !in old(Rest()) && Rest() == []
      ensures end == Some(NoProgress) ==> NEWLINE !in line && Stalls(src.slices)
    {
      hide Flat, Stalls, EmptyRun, FirstLine;
      Fill();
      LineOfMore(buf, src.Rest());
      BufferedLine(buf);
      line := FirstLine(buf);
      end := if NEWLINE in buf then None else err;
      CutLine(buf, line, src.Rest());
      buf := buf[|line|..];
    }
  }

  lemma BufferedLine(buf: seq<Byte>)
    ensures FirstLine(buf) <= buf && (NEWLINE !in buf ==> FirstLine(buf) == buf)
  {}

  lemma CutLine(buf: seq<Byte>, line: seq<Byte>, rest: seq<Byte>)
    requires line <= buf
    ensures buf + rest == line + (buf[|line|..] + rest) && (line == buf ==> buf[|line|..] + rest == rest)
  {}

  lemma StalledHere(slices: seq<seq<Byte>>, k: nat)
    requires EmptyRun(slices, k, k + EMPTY_READS)
    ensures Stalls(slices)
  {}

  lemma {:induction false} LineOfMore(s: seq<Byte>, more: seq<Byte>)
    ensures NEWLINE in s ==> FirstLine(s + more) == FirstLine(s)
    ensures more == [] ==> FirstLine(s + more) == FirstLine(s)
  {
    if s == [] {
      assert s + more == more;
    } else if s[0] != NEWLINE {
      LineOfMore(s[1..], more);
      assert (s + more)[1..] == s[1..] + more;
    }
  }

  lemma LineByLine(s: seq<Byte>)
    requires s != []
    ensures DataChunks(s) == (if IsDataChunk(FirstLine(s)) then 1 else 0) + DataChunks(s[|FirstLine(s)|..])
  {}

  lemma NoLines()
    ensures DataChunks([]) == 0 && FirstLine([]) == []
  {}

  method StreamCopySSE(w: Writer, src: Source, capture: LimitedBuffer) returns (copied: nat, chunks: nat, r: Result)
    requires src.Valid() && capture.Valid() && w.out == [] && capture.written == []
    modifies w, src, capture
    ensures CopiedPrefix(old(src.Rest()), src.end, w.out, capture.written, copied, r)
    ensures capture.buf == Bounded(capture.max, w.out)
    ensures r == Done ==> src.end == EOF
    ensures r == ReadError ==> src.end == Broken
    ensures NeverFails(w.plan) ==> r != WriteError
    ensures NeverFails(w.plan) && r != Stalled ==> (r == Done <==> src.end == EOF) && w.out == old(src.Rest())
    ensures r == Stalled ==> Stalls(src.slices)
    ensures r == Done || r == ReadError ==> chunks == DataChunks(old(src.Rest()))
    ensures r == WriteError && !Stalls(src.slices) ==> chunks <= DataChunks(old(src.Rest()))
  {
    hide IsDataChunk, DataChunks, FirstLine, Flat, Bounded, NeverFails, Stalls, CopiedPrefix, EndResult;
    NoLines();
    ghost var data := src.Rest();
    var reader := new LineReader(src);
    copied, chunks := 0, 0;
    while true
      invariant reader.Valid() && reader.err != Some(NoProgress) && reader.src == src && fresh(reader) && capture.Valid()
      invariant data == w.out + reader.Rest() && capture.written == w.out && copied == |w.out|
      invariant DataChunks(data) == chunks + DataChunks(reader.Rest())
      decreases |reader.Rest()|
    {
      ghost var out, rest := w.out, reader.Rest();
      var line, end := reader.ReadLine();
      ghost var left := reader.Rest();
      assert rest == line + left && rest[|line|..] == left;
      if rest != [] { LineByLine(rest); }
      if |line| > 0 {
        if IsDataChunk(line) { chunks := chunks + 1; }
        var n, failed := Deliver(w, capture, line);
        assert reader.Rest() == left;
        StillPrefix(data, out, line, left, n);
        copied := copied + n;
        if failed {
          PrefixStopped(data, src.end, w.out, capture.written, copied);
          return copied, chunks, WriteError;
        }
      }
      if end.Some? {
        PrefixEnds(data, src.end, w.out, left, capture.written, copied, end.value);
        return copied, chunks, EndResult(end.value);
      }
    }
  }
}
