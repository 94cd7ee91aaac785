/** The reader of the permissions server: a buffer that grows by chunks and is
    drained message by message, framed by `Content-Length` headers or by lines. */
module Framing {
  import opened Common
  import opened Utf8

  const LF: Unit := 10
  const CR: Unit := 13

  /** `Content-Length: ` */
  const HEADER: Text := [67, 111, 110, 116, 101, 110, 116, 45, 76, 101, 110, 103, 116, 104, 58, 32]
  const BREAKS: Text := [13, 10, 13, 10]

  predicate Digit(c: Unit) { 48 <= c <= 57 }

  predicate AllDigits(s: Text) {
    forall i :: 0 <= i < |s| ==> Digit(s[i])
  }

  function DigitValue(c: Unit): nat {
    if Digit(c) then c - 48 else 0
  }

  function Value(digits: Text): nat {
    if digits == [] then 0 else 10 * Value(digits[..|digits| - 1]) + DigitValue(digits[|digits| - 1])
  }

  /** The decimal numeral of a number. */
  function Decimal(n: nat): (t: Text)
    ensures t != [] && AllDigits(t)
  {
    if n < 10 then [48 + n] else Decimal(n / 10) + [48 + n % 10]
  }

  /** The digits are the numeral of `n`, with any number of zeros in front. */
  predicate Spells(digits: Text, n: nat) {
    var zeros := |digits| - |Decimal(n)|;
    zeros >= 0 && digits[zeros..] == Decimal(n) && AllZeros(digits[..zeros])
  }

  predicate AllZeros(s: Text) {
    forall i :: 0 <= i < |s| ==> s[i] == 48
  }

  lemma {:induction false} ZerosValue(digits: Text)
    requires AllZeros(digits)
    ensures Value(digits) == 0
  {
    if digits != [] { ZerosValue(digits[..|digits| - 1]); }
  }

  lemma {:induction false} SpelledValue(digits: Text, n: nat)
    requires Spells(digits, n)
    ensures Value(digits) == n
    decreases n
  {
    var front, zeros := digits[..|digits| - 1], |digits| - |Decimal(n)|;
    if n < 10 {
      assert front == digits[..zeros];
      ZerosValue(front);
    } else {
      var ten := Decimal(n / 10);
      assert front[zeros..] == Decimal(n)[..|ten|] == ten;
      assert front[..zeros] == digits[..zeros];
      SpelledValue(front, n / 10);
      assert digits[|digits| - 1] == Decimal(n)[|ten|];
    }
  }

  lemma {:induction false} ValueSpelled(digits: Text)
    requires digits != [] && AllDigits(digits)
    ensures Spells(digits, Value(digits))
  {
    var front, last := digits[..|digits| - 1], digits[|digits| - 1];
    assert digits == front + [last];
    if front != [] {
      ValueSpelled(front);
      SpellsMore(front, last, Value(front));
    }
  }

  lemma SpellsMore(front: Text, last: Unit, n: nat)
    requires Spells(front, n) && Digit(last)
    ensures Spells(front + [last], 10 * n + DigitValue(last))
  {
    var m, digits := 10 * n + DigitValue(last), front + [last];
    var zeros := |front| - |Decimal(n)|;
    assert m / 10 == n && m % 10 == DigitValue(last);
    if n == 0 {
      assert front[zeros..][0] == Decimal(0)[0] == 48;
      assert digits[|front|..] == [last] == Decimal(m);
      assert digits[..|front|] == front;
    } else {
      assert Decimal(m) == Decimal(n) + [last];
      assert digits[zeros..] == front[zeros..] + [last];
      assert digits[..zeros] == front[..zeros];
    }
  }

  /** Digits are read as the decimal number they spell. */
  lemma ValueIsDecimal(digits: Text, n: nat)
    requires digits != [] && AllDigits(digits)
    ensures Value(digits) == n <==> Spells(digits, n)
  {
    if Spells(digits, n) { SpelledValue(digits, n); }
    ValueSpelled(digits);
  }

  // ---------- Finding a header ----------

  /** At `i` stand the header name, `d` digits and two line breaks. */
  predicate IsHeader(s: Text, i: int, d: int) {
    && 0 <= i && 0 < d && i + |HEADER| + d + |BREAKS| <= |s|
    && s[i..i + |HEADER|] == HEADER
    && AllDigits(s[i + |HEADER|..i + |HEADER| + d])
    && s[i + |HEADER| + d..i + |HEADER| + d + |BREAKS|] == BREAKS
  }

  function DigitRun(s: Text, k: nat): nat
    decreases |s| - k
  {
    if k < |s| && Digit(s[k]) then 1 + DigitRun(s, k + 1) else 0
  }

  lemma {:induction false} DigitRunExact(s: Text, k: nat, d: nat)
    requires k + d < |s| && AllDigits(s[k..k + d]) && !Digit(s[k + d])
    ensures DigitRun(s, k) == d
    decreases d
  {
    if d > 0 {
      assert s[k..k + d][0] == s[k];
      assert s[k + 1..k + 1 + (d - 1)] == s[k..k + d][1..];
      DigitRunExact(s, k + 1, d - 1);
    }
  }

  /** The number of digits of a header that starts at `i`. */
  function HeaderAt(s: Text, i: nat): (d: Option<nat>)
    ensures d.Some? ==> i + |HEADER| + d.value + |BREAKS| <= |s|
  {
    if i + |HEADER| > |s| || s[i..i + |HEADER|] != HEADER then None
    else
      var d := DigitRun(s, i + |HEADER|);
      if IsHeader(s, i, d) then Some(d) else None
  }

  lemma HeaderAtSound(s: Text, i: nat)
    requires HeaderAt(s, i).Some?
    ensures IsHeader(s, i, HeaderAt(s, i).value)
  {
  }

  lemma HeaderAtComplete(s: Text, i: nat, d: nat)
    requires IsHeader(s, i, d)
    ensures HeaderAt(s, i) == Some(d)
  {
    assert s[i + |HEADER| + d] == BREAKS[0];
    DigitRunExact(s, i + |HEADER|, d);
  }

  /** Where the leftmost header at or after `i` starts. */
  function FindHeader(s: Text, i: nat): (r: Option<nat>)
    ensures r.Some? ==> HeaderAt(s, r.value).Some?
    decreases |s| - i
  {
    if i >= |s| then None
    else if HeaderAt(s, i).Some? then Some(i)
    else FindHeader(s, i + 1)
  }

  ghost predicate NoHeader(s: Text) {
    forall i, d :: !IsHeader(s, i, d)
  }

  lemma {:induction false} FindHeaderNone(s: Text, i: nat)
    requires NoHeader(s)
    ensures FindHeader(s, i) == None
    decreases |s| - i
  {
    if i < |s| {
      if HeaderAt(s, i).Some? { HeaderAtSound(s, i); }
      FindHeaderNone(s, i + 1);
    }
  }

  // ---------- Lines ----------

  /** White space and line ends, as trimming has them. */
  predicate Space(c: Unit) {
    || c == 32 || 9 <= c <= 13 || c == 0xA0 || c == 0x1680 || 0x2000 <= c <= 0x200A
    || c == 0x2028 || c == 0x2029 || c == 0x202F || c == 0x205F || c == 0x3000 || c == 0xFEFF
  }

  function TrimStart(s: Text): Text {
    if s != [] && Space(s[0]) then TrimStart(s[1..]) else s
  }

  function TrimEnd(s: Text): Text {
    if s != [] && Space(s[|s| - 1]) then TrimEnd(s[..|s| - 1]) else s
  }

  function Trim(s: Text): Text {
    TrimEnd(TrimStart(s))
  }

  function IndexOfNewline(s: Text): (r: Option<nat>)
    ensures r.Some? ==> r.value < |s|
  {
    if s == [] then None
    else if s[0] == LF then Some(0)
    else
      var r := IndexOfNewline(s[1..]);
      if r.Some? then Some(r.value + 1) else None
  }

  lemma {:induction false} NewlineFirst(line: Text, rest: Text)
    requires LF !in line
    ensures IndexOfNewline(line + [LF] + rest) == Some(|line|)
  {
    if line != [] {
      NewlineFirst(line[1..], rest);
      assert (line + [LF] + rest)[1..] == line[1..] + [LF] + rest;
    }
  }

  lemma {:induction false} NewlineNone(s: Text)
    ensures IndexOfNewline(s) == None <==> LF !in s
  {
    if s != [] { NewlineNone(s[1..]); }
  }

  lemma {:induction false} NewlineSplits(s: Text)
    requires IndexOfNewline(s).Some?
    ensures var n := IndexOfNewline(s).value;
            LF !in s[..n] && s == s[..n] + [LF] + s[n + 1..]
  {
    if s[0] != LF {
      NewlineSplits(s[1..]);
      var n := IndexOfNewline(s).value;
      assert s[..n] == [s[0]] + s[1..][..n - 1];
    }
  }

  /** A line that is blank is not a message. */
  function MessageOf(line: Text): seq<Text> {
    if Trim(line) == [] then [] else [Trim(line)]
  }

  // ---------- Draining ----------

  datatype Drained = Drained(messages: seq<Text>, rest: Text)

  function After(messages: seq<Text>, more: Drained): Drained {
    Drained(messages + more.messages, more.rest)
  }

  /** One turn of the inner loop. */
  datatype Taken = Stop | Took(messages: seq<Text>, rest: Text)

  function Take(buf: Text): (t: Taken)
    ensures t.Took? ==> |t.rest| < |buf|
  {
    var at := FindHeader(buf, 0);
    if at.Some? then
      var d := HeaderAt(buf, at.value).value;
      var start := at.value + |HEADER| + d + |BREAKS|;
      var length := Value(buf[at.value + |HEADER|..at.value + |HEADER| + d]);
      if |buf| < start + length then Stop else Took([buf[start..start + length]], buf[start + length..])
    else
      var nl := IndexOfNewline(buf);
      if nl.None? then Stop else Took(MessageOf(buf[..nl.value]), buf[nl.value + 1..])
  }

  /** All messages that can be taken from the buffer, and what stays in it. */
  function Drain(buf: Text): Drained
    decreases |buf|
  {
    match Take(buf)
    case Stop => Drained([], buf)
    case Took(messages, rest) => After(messages, Drain(rest))
  }

  lemma AfterTwice(a: seq<Text>, b: seq<Text>, x: Drained)
    ensures After(a, After(b, x)) == After(a + b, x)
  {
    assert a + (b + x.messages) == a + b + x.messages;
  }

  /** One chunk after the other. */
  function Feed(buf: Text, chunks: seq<Text>): Drained
    decreases |chunks|
  {
    if chunks == [] then Drained([], buf)
    else
      var d := Drain(buf + chunks[0]);
      After(d.messages, Feed(d.rest, chunks[1..]))
  }

  class Reader {
    var buf: Text
    var handled: seq<Text>

    constructor ()
      ensures buf == [] && handled == []
    {
      buf, handled := [], [];
    }

    /** One turn of the inner loop: a frame if a header is there, else a line. */
    method TakeOne() returns (more: bool)
      modifies this
      ensures more == Take(old(buf)).Took?
      ensures more ==> handled == old(handled) + Take(old(buf)).messages && buf == Take(old(buf)).rest
      ensures !more ==> handled == old(handled) && buf == old(buf)
    {
      var at := FindHeader(buf, 0);
      if at.Some? {
        var d := HeaderAt(buf, at.value).value;
        var length := Value(buf[at.value + |HEADER|..at.value + |HEADER| + d]);
        var headerEnd := at.value + |HEADER| + d + |BREAKS|;
        if |buf| < headerEnd + length { return false; }
        handled := handled + [buf[headerEnd..headerEnd + length]];
        buf := buf[headerEnd + length..];
        return true;
      }
      var nl := IndexOfNewline(buf);
      if nl.None? { return false; }
      handled := handled + MessageOf(buf[..nl.value]);
      buf := buf[nl.value + 1..];
      return true;
    }

    /** Decode one chunk by itself, take it in and handle what is complete. */
    method Receive(chunk: Bytes)
      modifies this
      ensures handled == old(handled) + Drain(old(buf) + DecodeChunk(chunk)).messages
      ensures buf == Drain(old(buf) + DecodeChunk(chunk)).rest
    {
      buf := buf + DecodeChunk(chunk);
      ghost var start, done := buf, [];
      var more := true;
      while more
        invariant Drain(start) == After(done, Drain(buf)) && handled == old(handled) + done
        invariant !more ==> Take(buf).Stop?
        decreases more, |buf|
      {
        ghost var before, rest := done, buf;
        more := TakeOne();
        if more {
          done := Extend(old(handled), before, rest, start);
        }
      }
    }
  }

  /** Taking one message keeps the account of what has been drained. */
  lemma Extend(prior: seq<Text>, done: seq<Text>, rest: Text, start: Text) returns (done': seq<Text>)
    requires Drain(start) == After(done, Drain(rest)) && Take(rest).Took?
    ensures done' == done + Take(rest).messages
    ensures prior + done + Take(rest).messages == prior + done'
    ensures Drain(start) == After(done', Drain(Take(rest).rest))
  {
    done' := done + Take(rest).messages;
    DrainTakes(rest);
    AfterTwice(done, Take(rest).messages, Drain(Take(rest).rest));
  }

  lemma DrainTakes(buf: Text)
    requires Take(buf).Took?
    ensures Drain(buf) == After(Take(buf).messages, Drain(Take(buf).rest))
  {
  }

  /** The whole session: every chunk in turn. */
  method Serve(chunks: seq<Bytes>) returns (handled: seq<Text>, rest: Text)
    ensures Drained(handled, rest) == Feed([], DecodeChunks(chunks))
  {
    var reader := new Reader();
    for i := 0 to |chunks|
      invariant Feed([], DecodeChunks(chunks)) == After(reader.handled, Feed(reader.buf, DecodeChunks(chunks[i..])))
    {
      ghost var handledBefore, buffer, text := reader.handled, reader.buf, DecodeChunk(chunks[i]);
      reader.Receive(chunks[i]);
      DecodeNext(chunks, i);
      FeedNext(buffer, text, DecodeChunks(chunks[i + 1..]));
      AfterTwice(handledBefore, Drain(buffer + text).messages, Feed(reader.buf, DecodeChunks(chunks[i + 1..])));
    }
    handled, rest := reader.handled, reader.buf;
  }

  lemma DecodeNext(chunks: seq<Bytes>, i: nat)
    requires i < |chunks|
    ensures DecodeChunks(chunks[i..]) == [DecodeChunk(chunks[i])] + DecodeChunks(chunks[i + 1..])
  {
    assert chunks[i..][1..] == chunks[i + 1..];
  }

  lemma FeedNext(buf: Text, text: Text, later: seq<Text>)
    ensures Feed(buf, [text] + later) == After(Drain(buf + text).messages, Feed(Drain(buf + text).rest, later))
  {
    assert ([text] + later)[1..] == later;
  }

  // ---------- Streams of lines ----------

  /** The complete lines of a text, trimmed, without the blank ones. */
  function Lines(s: Text): seq<Text>
    decreases |s|
  {
    match IndexOfNewline(s)
    case None => []
    case Some(n) => MessageOf(s[..n]) + Lines(s[n + 1..])
  }

  /** What follows the last newline. */
  function Tail(s: Text): Text
    decreases |s|
  {
    match IndexOfNewline(s)
    case None => s
    case Some(n) => Tail(s[n + 1..])
  }

  /** A header in a part of a text is a header in the text. */
  lemma HeaderInPart(s: Text, lo: nat, hi: nat, i: int, d: int)
    requires lo <= hi <= |s| && IsHeader(s[lo..hi], i, d)
    ensures IsHeader(s, lo + i, d)
  {
    var part := s[lo..hi];
    var name, digits, end := i + |HEADER|, i + |HEADER| + d, i + |HEADER| + d + |BREAKS|;
    SliceOfSlice(s, lo, hi, i, name);
    SliceOfSlice(s, lo, hi, name, digits);
    SliceOfSlice(s, lo, hi, digits, end);
  }

  lemma SliceOfSlice(s: Text, lo: nat, hi: nat, a: nat, b: nat)
    requires lo <= hi <= |s| && a <= b <= hi - lo
    ensures s[lo..hi][a..b] == s[lo + a..lo + b]
  {
    forall k | 0 <= k < b - a ensures s[lo..hi][a..b][k] == s[lo + a..lo + b][k] {
      assert s[lo..hi][a + k] == s[lo + a + k];
    }
  }

  lemma NoHeaderInPart(s: Text, lo: nat, hi: nat)
    requires lo <= hi <= |s| && NoHeader(s)
    ensures NoHeader(s[lo..hi])
  {
    forall i, d ensures !IsHeader(s[lo..hi], i, d) {
      if IsHeader(s[lo..hi], i, d) { HeaderInPart(s, lo, hi, i, d); }
    }
  }

  /** Without headers, draining means cutting into lines. */
  lemma {:induction false} DrainLines(buf: Text)
    requires NoHeader(buf)
    ensures Drain(buf) == Drained(Lines(buf), Tail(buf))
    decreases |buf|
  {
    FindHeaderNone(buf, 0);
    var nl := IndexOfNewline(buf);
    if nl.Some? {
      var rest := buf[nl.value + 1..];
      NoHeaderInPart(buf, nl.value + 1, |buf|);
      assert buf[nl.value + 1..|buf|] == rest;
      assert Take(buf) == Took(MessageOf(buf[..nl.value]), rest);
      DrainTakes(buf);
      DrainLines(rest);
    }
  }

  lemma LinesStep(line: Text, rest: Text)
    requires LF !in line
    ensures Lines(line + [LF] + rest) == MessageOf(line) + Lines(rest)
    ensures Tail(line + [LF] + rest) == Tail(rest)
  {
    var s := line + [LF] + rest;
    NewlineFirst(line, rest);
    assert s[..|line|] == line && s[|line| + 1..] == rest;
  }

  lemma {:induction false} LinesConcat(a: Text, b: Text)
    ensures Lines(a + b) == Lines(a) + Lines(Tail(a) + b)
    ensures Tail(a + b) == Tail(Tail(a) + b)
    decreases |a|
  {
    var n := IndexOfNewline(a);
    if n.Some? {
      NewlineSplits(a);
      var line, rest := a[..n.value], a[n.value + 1..];
      LinesConcat(rest, b);
      LinesStep(line, rest);
      LinesStep(line, rest + b);
      Associative(line + [LF], rest, b);
      Associative(MessageOf(line), Lines(rest), Lines(Tail(rest) + b));
    }
  }

  lemma {:induction false} TailIsSuffix(s: Text)
    ensures |Tail(s)| <= |s| && s[|s| - |Tail(s)|..] == Tail(s)
    decreases |s|
  {
    var n := IndexOfNewline(s);
    if n.Some? { TailIsSuffix(s[n.value + 1..]); }
  }

  lemma NoHeaderBehind(now: Text, later: Text)
    requires NoHeader(now + later)
    ensures NoHeader(now) && NoHeader(Tail(now) + later)
  {
    var all := now + later;
    assert all[0..|now|] == now;
    NoHeaderInPart(all, 0, |now|);
    TailIsSuffix(now);
    var lo := |now| - |Tail(now)|;
    assert all[lo..|all|] == Tail(now) + later;
    NoHeaderInPart(all, lo, |all|);
  }

  lemma {:induction false} LinesChunked(buf: Text, chunks: seq<Text>)
    requires NoHeader(buf + Concat(chunks)) && IndexOfNewline(buf).None?
    ensures Feed(buf, chunks) == Drained(Lines(buf + Concat(chunks)), Tail(buf + Concat(chunks)))
    decreases |chunks|
  {
    if chunks == [] {
      assert buf + Concat(chunks) == buf;
    } else {
      var now, later := buf + chunks[0], Concat(chunks[1..]);
      assert buf + Concat(chunks) == now + later;
      NoHeaderBehind(now, later);
      DrainLines(now);
      TailHasNoNewline(now);
      LinesChunked(Tail(now), chunks[1..]);
      LinesConcat(now, later);
      FeedStep(buf, chunks);
    }
  }

  lemma FeedStep(buf: Text, chunks: seq<Text>)
    requires chunks != []
    ensures Feed(buf, chunks)
         == After(Drain(buf + chunks[0]).messages, Feed(Drain(buf + chunks[0]).rest, chunks[1..]))
  {
  }

  lemma {:induction false} TailHasNoNewline(s: Text)
    ensures IndexOfNewline(Tail(s)).None?
    decreases |s|
  {
    var n := IndexOfNewline(s);
    if n.Some? { TailHasNoNewline(s[n.value + 1..]); }
  }

  /** Decoded text without headers, cut anywhere, is handled line by line: the
      messages are the complete lines, trimmed and without the blank ones. */
  lemma LinesOfText(chunks: seq<Text>)
    requires NoHeader(Concat(chunks))
    ensures Feed([], chunks) == Drained(Lines(Concat(chunks)), Tail(Concat(chunks)))
  {
    assert [] + Concat(chunks) == Concat(chunks);
    LinesChunked([], chunks);
  }

  // ---------- Streams of frames ----------

  datatype Frame = Frame(digits: Text, body: Text) {
    predicate Formed() { digits != [] && AllDigits(digits) }

    /** The digits spell the length of the body. */
    predicate Valid(): (valid: bool)
      ensures valid <==> Formed() && Value(digits) == |body|
    {
      Formed() && (ValueIsDecimal(digits, |body|); Spells(digits, |body|))
    }

    function Line(): Text { HEADER + digits }

    function Head(): Text { Line() + BREAKS }

    function Text(): Text { Head() + body }
  }

  function Joined(frames: seq<Frame>): Text {
    if frames == [] then [] else frames[0].Text() + Joined(frames[1..])
  }

  function Bodies(frames: seq<Frame>): seq<Text> {
    if frames == [] then [] else [frames[0].body] + Bodies(frames[1..])
  }

  /** How many frames end within the first `n` characters of the stream. */
  function Whole(frames: seq<Frame>, n: nat): (k: nat)
    ensures k <= |frames|
  {
    if frames == [] || n < |frames[0].Text()| then 0
    else 1 + Whole(frames[1..], n - |frames[0].Text()|)
  }

  /** How far the first `n` characters reach into the frame they end in. */
  function Into(frames: seq<Frame>, n: nat): (r: nat)
    ensures r <= n
  {
    if frames == [] || n < |frames[0].Text()| then n
    else Into(frames[1..], n - |frames[0].Text()|)
  }

  /** Position `n` lies between the two line breaks of a header: after the first
      of them, or one character on. */
  predicate InBreaks(frames: seq<Frame>, n: nat) {
    var k := Whole(frames, n);
    k < |frames| && |frames[k].Line()| + 2 <= Into(frames, n) <= |frames[k].Line()| + 3
  }

  /** No chunk ends between the line breaks of a header; `n` characters came before. */
  predicate CleanCuts(frames: seq<Frame>, n: nat, chunks: seq<Text>)
    decreases |chunks|
  {
    chunks == [] || (!InBreaks(frames, n + |chunks[0]|) && CleanCuts(frames, n + |chunks[0]|, chunks[1..]))
  }

  // ---------- One frame ----------

  lemma HeadParts(f: Frame)
    ensures |f.Line()| == |HEADER| + |f.digits| && |f.Head()| == |f.Line()| + |BREAKS|
    ensures f.Head()[..|HEADER|] == HEADER && f.Head()[|HEADER|..|f.Line()|] == f.digits
    ensures f.Head()[|f.Line()|..] == BREAKS
  {
  }

  /** A buffer that starts with the head of a frame. */
  lemma HeadFound(f: Frame, buf: Text)
    requires f.Formed() && f.Head() <= buf
    ensures FindHeader(buf, 0) == Some(0) && HeaderAt(buf, 0) == Some(|f.digits|)
    ensures buf[|HEADER|..|HEADER| + |f.digits|] == f.digits
  {
    HeadParts(f);
    var d := |f.digits|;
    var head := f.Head();
    assert buf[..|head|] == head;
    SliceOfSlice(buf, 0, |head|, 0, |HEADER|);
    SliceOfSlice(buf, 0, |head|, |HEADER|, |HEADER| + d);
    SliceOfSlice(buf, 0, |head|, |HEADER| + d, |HEADER| + d + |BREAKS|);
    assert IsHeader(buf, 0, d);
    HeaderAtComplete(buf, 0, d);
  }

  ghost predicate NoHeaderUpTo(s: Text, n: nat) {
    forall i, d :: i < n ==> !IsHeader(s, i, d)
  }

  lemma {:induction false} FindHeaderFirst(s: Text, i: nat, at: nat)
    requires NoHeaderUpTo(s, at) && i <= at < |s| && HeaderAt(s, at).Some?
    ensures FindHeader(s, i) == Some(at)
    decreases at - i
  {
    if i < at {
      assert HeaderAt(s, i).None? by { if HeaderAt(s, i).Some? { HeaderAtSound(s, i); } }
      FindHeaderFirst(s, i + 1, at);
    }
  }

  lemma HeadBehind(before: Text, f: Frame, tail: Text)
    requires f.Formed()
    ensures var s, n := before + (f.Head() + tail), |before|;
            && HeaderAt(s, n) == Some(|f.digits|)
            && s[n + |HEADER|..n + |HEADER| + |f.digits|] == f.digits && s[n + |f.Head()|..] == tail
  {
    var s, n, buf := before + (f.Head() + tail), |before|, f.Head() + tail;
    HeadParts(f);
    HeadFound(f, buf);
    var d := |f.digits|;
    assert s[n..n + |HEADER|] == buf[..|HEADER|];
    assert s[n + |HEADER|..n + |HEADER| + d] == buf[|HEADER|..|HEADER| + d];
    assert s[n + |HEADER| + d..n + |HEADER| + d + |BREAKS|] == buf[|HEADER| + d..|HEADER| + d + |BREAKS|];
    HeaderAtSound(buf, 0);
    assert IsHeader(s, n, d);
    HeaderAtComplete(s, n, d);
  }

  lemma TakeAt(s: Text, at: nat, d: nat, n: nat)
    requires FindHeader(s, 0) == Some(at) && HeaderAt(s, at) == Some(d)
    requires Value(s[at + |HEADER|..at + |HEADER| + d]) == n
    ensures var tail := s[at + |HEADER| + d + |BREAKS|..];
            Take(s) == if |tail| < n then Stop else Took([tail[..n]], tail[n..])
  {
    var start := at + |HEADER| + d + |BREAKS|;
    if start + n <= |s| { assert s[start..start + n] == s[start..][..n] && s[start + n..] == s[start..][n..]; }
  }

  /** The leftmost header counts wherever it stands: what is before it is dropped,
      and as much text as it announces, in decimal, is the message. */
  lemma HeaderFromAfar(before: Text, f: Frame, tail: Text, n: nat)
    requires f.Formed() && Spells(f.digits, n) && NoHeaderUpTo(before + (f.Head() + tail), |before|)
    ensures Take(before + (f.Head() + tail)) == if |tail| < n then Stop else Took([tail[..n]], tail[n..])
  {
    var s := before + (f.Head() + tail);
    HeadParts(f);
    HeadBehind(before, f, tail);
    FindHeaderFirst(s, 0, |before|);
    SpelledValue(f.digits, n);
    TakeAt(s, |before|, |f.digits|, n);
  }

  lemma TakeFrame(f: Frame, rest: Text)
    requires f.Valid()
    ensures Take(f.Text() + rest) == Took([f.body], rest)
  {
    var buf := f.Text() + rest;
    HeadParts(f);
    assert buf == f.Head() + (f.body + rest);
    HeadFound(f, buf);
    var start := |f.Head()|;
    assert buf[start..start + |f.body|] == f.body && buf[start + |f.body|..] == rest;
  }

  lemma TakeStarted(f: Frame, buf: Text)
    requires f.Valid() && f.Head() <= buf && |buf| < |f.Text()|
    ensures Take(buf) == Stop
  {
    HeadParts(f);
    HeadFound(f, buf);
  }

  /** The header name has one capital C and no digit, newline or carriage return. */
  lemma NameCharacters(i: nat)
    requires i < |HEADER|
    ensures (HEADER[i] == HEADER[0] <==> i == 0) && !Digit(HEADER[i]) && HEADER[i] != LF && HEADER[i] != CR
  {
  }

  lemma HeadCharacters(f: Frame, i: nat)
    requires f.Formed() && i < |f.Head()|
    ensures f.Head()[i] == HEADER[0] <==> i == 0
    ensures f.Head()[i] == LF <==> i == |f.Line()| + 1 || i == |f.Line()| + 3
    ensures f.Head()[i] == CR <==> i == |f.Line()| || i == |f.Line()| + 2
  {
    HeadParts(f);
    if i < |HEADER| {
      NameCharacters(i);
    } else if i < |f.Line()| {
      assert f.Head()[i] == f.digits[i - |HEADER|];
    } else {
      assert f.Head()[i] == BREAKS[i - |f.Line()|];
    }
  }

  /** A header in the head of a frame is the whole head. */
  lemma HeaderIsHead(f: Frame, buf: Text, i: int, d: int)
    requires f.Formed() && buf <= f.Head() && IsHeader(buf, i, d)
    ensures buf == f.Head()
  {
    HeadParts(f);
    assert buf[i..i + |HEADER|][0] == HEADER[0];
    HeadCharacters(f, i);
    var end := |HEADER| + d;
    assert buf[end..end + |BREAKS|][0] == BREAKS[0];
    HeadCharacters(f, end);
  }

  /** Less than a head holds no header. */
  lemma NoHeaderYet(f: Frame, buf: Text)
    requires f.Formed() && buf <= f.Head() && |buf| < |f.Head()|
    ensures NoHeader(buf)
  {
    forall i, d ensures !IsHeader(buf, i, d) {
      if IsHeader(buf, i, d) { HeaderIsHead(f, buf, i, d); }
    }
  }

  /** Less than a head is left alone unless it reaches past the first newline. */
  lemma TakeNothing(f: Frame, buf: Text)
    requires f.Formed() && buf <= f.Head() && |buf| <= |f.Line()| + 1
    ensures Take(buf) == Stop
  {
    HeadParts(f);
    NoHeaderYet(f, buf);
    FindHeaderNone(buf, 0);
    forall i | 0 <= i < |buf| ensures buf[i] != LF { HeadCharacters(f, i); }
    NewlineNone(buf);
  }

  lemma TrimLine(f: Frame)
    requires f.Formed()
    ensures MessageOf(f.Line() + [CR]) == [f.Line()]
  {
    var s := f.Line() + [CR];
    assert s[0] == HEADER[0];
    assert TrimStart(s) == s;
    assert s[..|s| - 1] == f.Line();
    assert f.Line()[|f.Line()| - 1] == f.digits[|f.digits| - 1];
    assert Digit(f.digits[|f.digits| - 1]);
    assert TrimEnd(f.Line()) == f.Line();
  }

  /** The first line of a head that reaches past the first newline. */
  lemma HeadLine(f: Frame, buf: Text)
    requires f.Formed() && buf <= f.Head() && |f.Line()| + 2 <= |buf| <= |f.Line()| + 3
    ensures var n := |f.Line()| + 1;
            && IndexOfNewline(buf) == Some(n) && buf[..n] == f.Line() + [CR]
            && IndexOfNewline(buf[n + 1..]) == None
  {
    HeadParts(f);
    var n := |f.Line()| + 1;
    var line, rest := buf[..n], buf[n + 1..];
    forall i | 0 <= i < |buf| ensures buf[i] == LF <==> i == n { HeadCharacters(f, i); }
    assert buf == line + [LF] + rest;
    NewlineFirst(line, rest);
    NewlineNone(rest);
    HeadCharacters(f, n - 1);
    assert buf == f.Head()[..|buf|];
    assert line == f.Line() + [CR];
  }

  /** Cut between its line breaks, a header is taken for a line. */
  lemma TakeHeaderAsLine(f: Frame, buf: Text)
    requires f.Formed() && buf <= f.Head() && |f.Line()| + 2 <= |buf| <= |f.Line()| + 3
    ensures Drain(buf).messages == [f.Line()]
  {
    HeadLine(f, buf);
    TrimLine(f);
    assert |buf| < |f.Head()|;
    NoHeaderYet(f, buf);
    DrainLines(buf);
    LinesOfTwo(buf);
  }

  lemma LinesOfTwo(buf: Text)
    requires IndexOfNewline(buf).Some? && IndexOfNewline(buf[IndexOfNewline(buf).value + 1..]).None?
    ensures Lines(buf) == MessageOf(buf[..IndexOfNewline(buf).value])
  {
    assert Lines(buf[IndexOfNewline(buf).value + 1..]) == [];
  }

  // ---------- A prefix of the stream ----------

  /** What draining the first `n` characters of the stream should give. */
  ghost predicate DrainedTo(frames: seq<Frame>, buf: Text, got: Drained) {
    var n := |buf|;
    var k := Whole(frames, n);
    if InBreaks(frames, n) then got.messages == Bodies(frames[..k]) + [frames[k].Line()]
    else got == Drained(Bodies(frames[..k]), buf[n - Into(frames, n)..])
  }

  /** Draining a prefix: the bodies of the whole frames in it are handled and
      the start of the next frame stays, but a header cut between its line breaks
      is handled as a message of its own. */
  lemma {:induction false} DrainFrames(frames: seq<Frame>, buf: Text)
    requires (forall f <- frames :: f.Valid()) && buf <= Joined(frames)
    ensures DrainedTo(frames, buf, Drain(buf))
  {
    if frames == [] {
      assert buf == [];
    } else {
      var f, rest := frames[0], Joined(frames[1..]);
      if |buf| < |f.Text()| {
        PrefixOfFirst(f.Text(), rest, buf);
        DrainFirst(f, buf);
        DrainedToFirst(frames, buf, Drain(buf));
      } else {
        PrefixPastFirst(f.Text(), rest, buf);
        var more := buf[|f.Text()|..];
        TakeFrame(f, more);
        DrainTakes(buf);
        DrainFrames(frames[1..], more);
        DrainedToNext(frames, buf, Drain(more));
      }
    }
  }

  lemma DrainedToFirst(frames: seq<Frame>, buf: Text, got: Drained)
    requires frames != [] && |buf| < |frames[0].Text()|
    requires if |frames[0].Line()| + 2 <= |buf| <= |frames[0].Line()| + 3 then got.messages == [frames[0].Line()]
             else got == Drained([], buf)
    ensures DrainedTo(frames, buf, got)
  {
  }

  lemma DrainedToNext(frames: seq<Frame>, buf: Text, got: Drained)
    requires frames != [] && |frames[0].Text()| <= |buf|
    requires DrainedTo(frames[1..], buf[|frames[0].Text()|..], got)
    ensures DrainedTo(frames, buf, After([frames[0].body], got))
  {
    var f, more := frames[0], buf[|frames[0].Text()|..];
    var k := Whole(frames[1..], |more|);
    assert frames[..k + 1][1..] == frames[1..][..k];
    assert Bodies(frames[..k + 1]) == [f.body] + Bodies(frames[1..][..k]);
    if InBreaks(frames[1..], |more|) {
      assert [f.body] + (Bodies(frames[1..][..k]) + [frames[k + 1].Line()])
          == [f.body] + Bodies(frames[1..][..k]) + [frames[k + 1].Line()];
    }
  }

  lemma PrefixOfFirst(first: Text, rest: Text, buf: Text)
    requires buf <= first + rest && |buf| <= |first|
    ensures buf <= first
  {
    assert buf == (first + rest)[..|buf|];
  }

  lemma PrefixPastFirst(first: Text, rest: Text, buf: Text)
    requires buf <= first + rest && |first| <= |buf|
    ensures buf == first + buf[|first|..] && buf[|first|..] <= rest
  {
    assert buf == (first + rest)[..|buf|];
  }

  lemma DrainFirst(f: Frame, buf: Text)
    requires f.Valid() && buf <= f.Text() && |buf| < |f.Text()|
    ensures if |f.Line()| + 2 <= |buf| <= |f.Line()| + 3 then Drain(buf).messages == [f.Line()]
            else Drain(buf) == Drained([], buf)
  {
    HeadParts(f);
    if |f.Head()| <= |buf| {
      PrefixPastFirst(f.Head(), f.body, buf);
      TakeStarted(f, buf);
    } else {
      PrefixOfFirst(f.Head(), f.body, buf);
      if |buf| <= |f.Line()| + 1 { TakeNothing(f, buf); } else { TakeHeaderAsLine(f, buf); }
    }
  }

  // ---------- Chunks of the stream ----------

  lemma {:induction false} TextFrom(frames: seq<Frame>, n: nat)
    requires n <= |Joined(frames)|
    ensures Joined(frames)[n - Into(frames, n)..] == Joined(frames[Whole(frames, n)..])
  {
    if frames == [] || n < |frames[0].Text()| {
      assert frames[0..] == frames;
    } else {
      var t := |frames[0].Text()|;
      TextFrom(frames[1..], n - t);
      var k := Whole(frames[1..], n - t);
      assert frames[1..][k..] == frames[k + 1..];
      assert Joined(frames)[n - Into(frames, n)..] == Joined(frames[1..])[n - t - Into(frames, n)..];
    }
  }

  lemma {:induction false} CleanPeeled(frames: seq<Frame>, n: nat, chunks: seq<Text>)
    requires frames != [] && |frames[0].Text()| <= n
    ensures CleanCuts(frames, n, chunks) <==> CleanCuts(frames[1..], n - |frames[0].Text()|, chunks)
    decreases |chunks|
  {
    if chunks != [] { CleanPeeled(frames, n + |chunks[0]|, chunks[1..]); }
  }

  /** Cuts past `n` counted from the frame that `n` lies in. */
  lemma {:induction false} CleanRebased(frames: seq<Frame>, n: nat, chunks: seq<Text>)
    ensures CleanCuts(frames, n, chunks) <==> CleanCuts(frames[Whole(frames, n)..], Into(frames, n), chunks)
    decreases |frames|
  {
    if frames == [] || n < |frames[0].Text()| {
      assert frames[0..] == frames;
    } else {
      var rest, left := frames[1..], n - |frames[0].Text()|;
      CleanPeeled(frames, n, chunks);
      CleanRebased(rest, left, chunks);
      assert rest[Whole(rest, left)..] == frames[Whole(rest, left) + 1..];
    }
  }

  lemma {:induction false} BodiesSplit(frames: seq<Frame>, k: nat)
    requires k <= |frames|
    ensures Bodies(frames) == Bodies(frames[..k]) + Bodies(frames[k..])
    ensures |Bodies(frames[..k])| == k
  {
    if k == 0 {
      assert frames[0..] == frames;
    } else {
      BodiesSplit(frames[1..], k - 1);
      assert frames[..k][1..] == frames[1..][..k - 1];
      assert frames[1..][k - 1..] == frames[k..];
    }
  }

  /** The text that follows the whole frames among the first `n` characters. */
  lemma RestOfStream(frames: seq<Frame>, now: Text, later: Text)
    requires now + later == Joined(frames)
    ensures now <= Joined(frames)
    ensures now[|now| - Into(frames, |now|)..] + later == Joined(frames[Whole(frames, |now|)..])
  {
    TextFrom(frames, |now|);
    DropFromLeft(now, later, |now| - Into(frames, |now|));
  }

  lemma DropFromLeft(a: Text, b: Text, n: nat)
    requires n <= |a|
    ensures (a + b)[n..] == a[n..] + b
  {
  }

  lemma ConcatStep(buf: Text, chunks: seq<Text>)
    requires chunks != []
    ensures buf + Concat(chunks) == (buf + chunks[0]) + Concat(chunks[1..])
  {
  }

  lemma CleanStep(frames: seq<Frame>, n: nat, m: nat, chunks: seq<Text>)
    requires chunks != [] && m == n + |chunks[0]|
    ensures CleanCuts(frames, n, chunks) <==> !InBreaks(frames, m) && CleanCuts(frames, m, chunks[1..])
  {
  }

  lemma {:induction false} NoneWholeAgain(frames: seq<Frame>, n: nat)
    ensures Whole(frames[Whole(frames, n)..], Into(frames, n)) == 0
    decreases |frames|
  {
    if frames == [] || n < |frames[0].Text()| {
      assert frames[0..] == frames;
    } else {
      var rest, left := frames[1..], n - |frames[0].Text()|;
      NoneWholeAgain(rest, left);
      assert rest[Whole(rest, left)..] == frames[Whole(rest, left) + 1..];
    }
  }

  /** The buffer holds less than one frame, and the chunks to come complete the stream. */
  ghost predicate Waiting(frames: seq<Frame>, buf: Text, chunks: seq<Text>) {
    && (forall f <- frames :: f.Valid())
    && buf + Concat(chunks) == Joined(frames) && Whole(frames, |buf|) == 0
  }

  lemma WaitingNext(frames: seq<Frame>, buf: Text, chunks: seq<Text>, now: Text, k: nat, rest: Text)
    requires Waiting(frames, buf, chunks) && chunks != [] && now == buf + chunks[0]
    requires k == Whole(frames, |now|) && rest == now[|now| - Into(frames, |now|)..]
    ensures now <= Joined(frames) && Waiting(frames[k..], rest, chunks[1..])
  {
    ConcatStep(buf, chunks);
    RestOfStream(frames, now, Concat(chunks[1..]));
    NoneWholeAgain(frames, |now|);
  }

  lemma CutsNext(frames: seq<Frame>, n: nat, m: nat, chunks: seq<Text>)
    requires chunks != [] && m == n + |chunks[0]|
    ensures CleanCuts(frames, n, chunks)
       <==> !InBreaks(frames, m) && CleanCuts(frames[Whole(frames, m)..], Into(frames, m), chunks[1..])
  {
    CleanStep(frames, n, m, chunks);
    CleanRebased(frames, m, chunks[1..]);
  }

  /** One more chunk: `k` frames are complete with it and `rest` is left over. */
  lemma NextChunk(frames: seq<Frame>, buf: Text, chunks: seq<Text>) returns (bad: bool, k: nat, rest: Text)
    requires Waiting(frames, buf, chunks) && chunks != []
    ensures k <= |frames| && Waiting(frames[k..], rest, chunks[1..])
    ensures CleanCuts(frames, |buf|, chunks) <==> !bad && CleanCuts(frames[k..], |rest|, chunks[1..])
    ensures bad ==> k < |frames| && Drain(buf + chunks[0]).messages == Bodies(frames[..k]) + [frames[k].Line()]
    ensures !bad ==> Drain(buf + chunks[0]) == Drained(Bodies(frames[..k]), rest)
  {
    var now := buf + chunks[0];
    bad, k, rest := InBreaks(frames, |now|), Whole(frames, |now|), now[|now| - Into(frames, |now|)..];
    WaitingNext(frames, buf, chunks, now, k, rest);
    CutsNext(frames, |buf|, |now|, chunks);
    DrainFrames(frames, now);
  }

  lemma {:induction false} CleanCutsGiveBodies(frames: seq<Frame>, buf: Text, chunks: seq<Text>)
    requires Waiting(frames, buf, chunks) && CleanCuts(frames, |buf|, chunks)
    ensures Feed(buf, chunks) == Drained(Bodies(frames), [])
    decreases |chunks|
  {
    if chunks == [] {
      assert buf == Joined(frames);
    } else {
      var bad, k, rest := NextChunk(frames, buf, chunks);
      CleanCutsGiveBodies(frames[k..], rest, chunks[1..]);
      BodiesSplit(frames, k);
      FeedDrained(buf, chunks, Bodies(frames[..k]), rest);
    }
  }

  lemma FeedDrained(buf: Text, chunks: seq<Text>, messages: seq<Text>, rest: Text)
    requires chunks != [] && Drain(buf + chunks[0]) == Drained(messages, rest)
    ensures Feed(buf, chunks) == After(messages, Feed(rest, chunks[1..]))
  {
  }

  /** After a cut between line breaks some header is handled in its body's place. */
  lemma {:induction false} BadCutShowsHeader(frames: seq<Frame>, buf: Text, chunks: seq<Text>) returns (k: nat)
    requires Waiting(frames, buf, chunks) && !CleanCuts(frames, |buf|, chunks)
    ensures k < |frames| && k < |Feed(buf, chunks).messages|
    ensures Feed(buf, chunks).messages[k] == frames[k].Line()
    decreases |chunks|
  {
    var bad, whole, rest := NextChunk(frames, buf, chunks);
    k := whole;
    BodiesSplit(frames, k);
    FeedStep(buf, chunks);
    if !bad {
      var j := BadCutShowsHeader(frames[k..], rest, chunks[1..]);
      k := k + j;
    }
  }

  /** Whole frames per chunk, however many, are always handled. */
  lemma {:induction false} WholeFramesAreClean(batches: seq<seq<Frame>>)
    ensures CleanCuts(Flat(batches), 0, Texts(batches)) && Concat(Texts(batches)) == Joined(Flat(batches))
  {
    if batches != [] {
      var first, rest := batches[0], batches[1..];
      WholeFramesAreClean(rest);
      assert Texts(batches)[1..] == Texts(rest);
      TextWhole(first, Flat(rest));
      CleanRebased(first + Flat(rest), |Joined(first)|, Texts(rest));
      assert (first + Flat(rest))[|first|..] == Flat(rest);
    }
  }

  function Flat(batches: seq<seq<Frame>>): seq<Frame> {
    if batches == [] then [] else batches[0] + Flat(batches[1..])
  }

  function Texts(batches: seq<seq<Frame>>): seq<Text> {
    if batches == [] then [] else [Joined(batches[0])] + Texts(batches[1..])
  }

  lemma {:induction false} TextWhole(first: seq<Frame>, more: seq<Frame>)
    ensures Joined(first + more) == Joined(first) + Joined(more)
    ensures Whole(first + more, |Joined(first)|) == |first| && Into(first + more, |Joined(first)|) == 0
  {
    if first == [] {
      assert first + more == more;
    } else {
      var f, rest := first[0], first[1..];
      TextWhole(rest, more);
      assert (first + more)[1..] == rest + more;
      assert |Joined(first)| == |f.Text()| + |Joined(rest)|;
      Associative(f.Text(), Joined(rest), Joined(more));
    }
  }
}
