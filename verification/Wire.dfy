/** What a sender writes, from characters to bytes, and what the server makes of it. */
module Wire {
  import opened Common
  import opened Utf8
  import opened Framing
  import opened Marks
  import opened Margins
  import opened ByteStreams
  import opened FrameStreams

  // ---------- Characters ----------

  /** A Unicode scalar value. */
  type Scalar = n: int | 0 <= n < 0xD800 || 0xE000 <= n < 0x11_0000

  /** Its bytes, as section 3 of RFC 3629 lays them out. */
  function Encode(n: Scalar): Bytes {
    if n < 0x80 then [n]
    else if n < 0x800 then [0xC0 + n / 0x40, 0x80 + n % 0x40]
    else if n < 0x1_0000 then [0xE0 + n / 0x1000, 0x80 + n / 0x40 % 0x40, 0x80 + n % 0x40]
    else [0xF0 + n / 0x4_0000, 0x80 + n / 0x1000 % 0x40, 0x80 + n / 0x40 % 0x40, 0x80 + n % 0x40]
  }

  /** Its UTF-16 code units, as section 2.1 of RFC 2781 has them. */
  function Utf16(n: Scalar): Text {
    if n < 0x1_0000 then [n]
    else [0xD800 + (n - 0x1_0000) / 0x400, 0xDC00 + (n - 0x1_0000) % 0x400]
  }

  lemma Sextets(n: nat)
    ensures n == 0x1000 * (n / 0x1000) + 0x40 * (n / 0x40 % 0x40) + n % 0x40
    ensures n / 0x1000 == 0x40 * (n / 0x4_0000) + n / 0x1000 % 0x40
  {
    assert n / 0x40 == 0x40 * (n / 0x1000) + n / 0x40 % 0x40;
  }

  /** The encoding of every scalar value is a character and is decoded to its units. */
  lemma EncodedIsRead(n: Scalar)
    ensures IsChar(Encode(n)) && Units(Encode(n)) == Utf16(n)
  {
    var b := Encode(n);
    Sextets(n);
    if |b| == 3 { assert Fits(b, 1) && Fits(b, 2); }
    if |b| == 4 { assert Fits(b, 1) && Fits(b, 2) && Fits(b, 3); }
  }

  lemma FromSextets(x: nat, y: nat, z: nat, t: nat)
    requires y < 0x40 && z < 0x40 && t < 0x40
    ensures var n := 0x4_0000 * x + 0x1000 * y + 0x40 * z + t;
            n / 0x4_0000 == x && n / 0x1000 % 0x40 == y && n / 0x40 % 0x40 == z && n % 0x40 == t
  {
    var n := 0x4_0000 * x + 0x1000 * y + 0x40 * z + t;
    assert n / 0x40 == 0x1000 * x + 0x40 * y + z;
    assert n / 0x1000 == 0x40 * x + y;
  }

  /** And nothing else is a character. */
  lemma CharIsEncoded(b: Bytes) returns (n: Scalar)
    requires IsChar(b)
    ensures b == Encode(n)
  {
    if |b| == 1 { n := b[0]; }
    else if |b| == 2 { n := TwoBytes(b); }
    else if |b| == 3 { n := ThreeBytes(b); }
    else { n := FourBytes(b); }
  }

  lemma TwoBytes(b: Bytes) returns (n: Scalar)
    requires IsChar(b) && |b| == 2
    ensures b == Encode(n)
  {
    assert Fits(b, 1);
    n := 0x40 * Low(b[0], 0xC0) + Low(b[1], 0x80);
  }

  lemma ThreeBytes(b: Bytes) returns (n: Scalar)
    requires IsChar(b) && |b| == 3
    ensures b == Encode(n)
  {
    assert Fits(b, 1) && Fits(b, 2);
    var x, y, z := Low(b[0], 0xE0), Low(b[1], 0x80), Low(b[2], 0x80);
    FromSextets(0, x, y, z);
    n := 0x1000 * x + 0x40 * y + z;
    assert 0x800 <= n < 0x1_0000 && n / 0x1000 == x;
  }

  lemma FourBytes(b: Bytes) returns (n: Scalar)
    requires IsChar(b) && |b| == 4
    ensures b == Encode(n)
  {
    assert Fits(b, 1) && Fits(b, 2) && Fits(b, 3);
    var x, y, z, t := Low(b[0], 0xF0), Low(b[1], 0x80), Low(b[2], 0x80), Low(b[3], 0x80);
    FromSextets(x, y, z, t);
    n := 0x4_0000 * x + 0x1000 * y + 0x40 * z + t;
  }

  // ---------- Messages ----------

  type Message = seq<Scalar>

  function Encoded(m: Message): seq<Bytes> {
    seq(|m|, i requires 0 <= i < |m| => Encode(m[i]))
  }

  function Utf16Of(m: Message): Text {
    if m == [] then [] else Utf16(m[0]) + Utf16Of(m[1..])
  }

  /** The codes of ASCII characters. */
  function Codes(s: string): Bytes {
    seq(|s|, i requires 0 <= i < |s| => if s[i] < 128 as char then s[i] as int else 0)
  }

  /** The bytes of one message: its length in decimal, in a header, and its characters. */
  function Written(m: Message): Bytes {
    Codes("Content-Length: ") + Decimal(|Utf16Of(m)|) + Codes("\r\n\r\n") + Concat(Encoded(m))
  }

  function AllWritten(messages: seq<Message>): seq<Bytes> {
    if messages == [] then [] else [Written(messages[0])] + AllWritten(messages[1..])
  }

  function AllUtf16(messages: seq<Message>): seq<Text> {
    if messages == [] then [] else [Utf16Of(messages[0])] + AllUtf16(messages[1..])
  }

  lemma {:induction false} EncodedText(m: Message)
    ensures AllChars(Encoded(m)) && TextOf(Encoded(m)) == Utf16Of(m)
    decreases |m|
  {
    if m != [] {
      EncodedText(m[1..]);
      EncodedIsRead(m[0]);
      assert Encoded(m)[1..] == Encoded(m[1..]) && Encoded(m) == [Encode(m[0])] + Encoded(m[1..]);
      TextOfFirst(Encoded(m));
    }
  }

  function AsSent(m: Message): (s: Sent)
    ensures s.Formed() && TextOf(s.chars) == Utf16Of(m)
  {
    EncodedText(m);
    Sent(Decimal(|Utf16Of(m)|), Encoded(m))
  }

  function AllSent(messages: seq<Message>): (sents: seq<Sent>)
    ensures AllFormed(sents)
  {
    if messages == [] then [] else [AsSent(messages[0])] + AllSent(messages[1..])
  }

  lemma {:induction false} ConcatBoth<T>(a: seq<seq<T>>, b: seq<seq<T>>)
    ensures Concat(a + b) == Concat(a) + Concat(b)
  {
    if a == [] {
      assert a + b == b;
    } else {
      assert (a + b)[1..] == a[1..] + b;
      ConcatBoth(a[1..], b);
    }
  }

  lemma {:induction false} ConcatSingles(t: Text)
    requires forall u <- t :: Ascii(u)
    ensures Concat(Singles(t)) == t
  {
    if t != [] {
      assert t[0] in t && forall u <- t[1..] :: u in t;
      assert Singles(t)[1..] == Singles(t[1..]);
      ConcatSingles(t[1..]);
    }
  }

  lemma HeaderSpelled()
    ensures Codes("Content-Length: ") == HEADER && Codes("\r\n\r\n") == BREAKS
  {
  }

  lemma WrittenChars(m: Message)
    ensures Concat(AsSent(m).Chars()) == Written(m)
  {
    var s := AsSent(m);
    HeadIsAscii(s);
    ConcatSingles(s.AsHead());
    ConcatBoth(Singles(s.AsHead()), s.chars);
    HeaderSpelled();
  }

  lemma {:induction false} AllSentAre(messages: seq<Message>)
    ensures Concat(Stream(AllSent(messages))) == Concat(AllWritten(messages))
    ensures Bodies(Frames(AllSent(messages))) == AllUtf16(messages)
    ensures Announced(AllSent(messages))
  {
    if messages != [] {
      var s, rest := AsSent(messages[0]), AllSent(messages[1..]);
      AllSentAre(messages[1..]);
      WrittenChars(messages[0]);
      ConcatBoth(s.Chars(), Stream(rest));
      assert AllSent(messages)[1..] == rest;
      assert s.digits[0..] == s.digits && s.digits[..0] == [];
    }
  }

  /** The cuts do no harm. */
  predicate WellCut(messages: seq<Message>, chunks: seq<Bytes>) {
    var sents := AllSent(messages);
    NoMarks(chunks) && WholeChars(Stream(sents), 0, chunks) && CleanCuts(Frames(sents), 0, DecodeChunks(chunks))
  }

  /** Messages sent with their length in UTF-16 units, in decimal, are handled as
      they were sent however the bytes are cut, if and only if the cuts do no harm;
      the only-if for messages without U+FFFD that do not spell their own header. */
  lemma WrittenHandledIff(messages: seq<Message>, chunks: seq<Bytes>)
    requires Concat(chunks) == Concat(AllWritten(messages))
    ensures WellCut(messages, chunks) ==> Feed([], DecodeChunks(chunks)) == Drained(AllUtf16(messages), [])
    ensures Ordinary(AllSent(messages)) ==>
              (Feed([], DecodeChunks(chunks)).messages == AllUtf16(messages) <==> WellCut(messages, chunks))
  {
    AllSentAre(messages);
    FramesHandledIff(AllSent(messages), chunks);
  }

  // ---------- One message per chunk ----------

  lemma {:induction false} DecodeAll(chars: seq<Bytes>)
    requires AllChars(chars)
    ensures Decode(Concat(chars)) == TextOf(chars)
    decreases |chars|
  {
    if chars != [] {
      DecodeAll(chars[1..]);
      assert IsChar(chars[0]);
      DecodeWhole(chars[0], Concat(chars[1..]));
      TextOfFirst(chars);
    }
  }

  lemma WrittenDecoded(m: Message)
    ensures DecodeChunk(Written(m)) == AsSent(m).AsFrame().Text()
  {
    var s := AsSent(m);
    assert [s][1..] == [];
    StreamText([s]);
    assert Stream([s]) == s.Chars() + [] == s.Chars();
    assert Joined([s.AsFrame()]) == s.AsFrame().Text() + [] by { assert [s.AsFrame()][1..] == []; }
    DecodeAll(s.Chars());
    WrittenChars(m);
    assert Written(m)[0] == Codes("Content-Length: ")[0] == 67;
  }

  function Singly(frames: seq<Frame>): seq<seq<Frame>> {
    if frames == [] then [] else [[frames[0]]] + Singly(frames[1..])
  }

  lemma {:induction false} SinglyFlat(frames: seq<Frame>)
    ensures Flat(Singly(frames)) == frames
  {
    if frames != [] {
      SinglyFlat(frames[1..]);
      assert Singly(frames)[1..] == Singly(frames[1..]);
    }
  }

  lemma {:induction false} WrittenTexts(messages: seq<Message>)
    ensures DecodeChunks(AllWritten(messages)) == Texts(Singly(Frames(AllSent(messages))))
  {
    if messages != [] {
      var f, more := AsSent(messages[0]).AsFrame(), Frames(AllSent(messages[1..]));
      WrittenTexts(messages[1..]);
      WrittenDecoded(messages[0]);
      assert AllSent(messages)[1..] == AllSent(messages[1..]);
      assert Frames(AllSent(messages)) == [f] + more;
      assert Singly([f] + more) == [[f]] + Singly(more) by { assert ([f] + more)[1..] == more; }
      assert AllWritten(messages)[1..] == AllWritten(messages[1..]);
      assert Joined([f]) == f.Text() by { assert [f][1..] == []; }
      assert ([[f]] + Singly(more))[1..] == Singly(more);
    }
  }

  /** Written one per chunk, all messages are handled as they were sent. */
  lemma EachAlone(messages: seq<Message>)
    ensures Feed([], DecodeChunks(AllWritten(messages))) == Drained(AllUtf16(messages), [])
  {
    var frames := Frames(AllSent(messages));
    AllSentAre(messages);
    AnnouncedValid(AllSent(messages));
    WrittenTexts(messages);
    SinglyFlat(frames);
    WholeFramesAreClean(Singly(frames));
    WaitingFromStart(frames, Texts(Singly(frames)));
    CleanCutsGiveBodies(frames, [], Texts(Singly(frames)));
  }

  // ---------- Lines ----------

  /** The bytes of one message sent as a line. */
  function WrittenLine(m: Message): Bytes {
    Concat(Encoded(m)) + Codes("\n")
  }

  function AllWrittenLines(messages: seq<Message>): seq<Bytes> {
    if messages == [] then [] else [WrittenLine(messages[0])] + AllWrittenLines(messages[1..])
  }

  /** It is not empty, has no line break in it and no white space at its ends. */
  predicate FitsLine(m: Message) {
    var t := Utf16Of(m);
    t != [] && LF !in t && !Space(t[0]) && !Space(t[|t| - 1])
  }

  function LineChars(m: Message): seq<Bytes> {
    Encoded(m) + [[10]]
  }

  function AllLineChars(messages: seq<Message>): seq<Bytes> {
    if messages == [] then [] else LineChars(messages[0]) + AllLineChars(messages[1..])
  }

  lemma LineIs(m: Message)
    ensures AllChars(LineChars(m)) && TextOf(LineChars(m)) == Utf16Of(m) + [LF] && Concat(LineChars(m)) == WrittenLine(m)
  {
    EncodedText(m);
    assert IsChar([10]);
    assert [[10]][1..] == [];
    ConcatBoth(Encoded(m), [[10]]);
    assert Concat([[10]]) == [10] + [] == [10];
    assert Codes("\n") == [10];
    TextOfFirst([[10]]);
    TextOfConcat(Encoded(m), [[10]]);
  }

  lemma {:induction false} LinesAre(messages: seq<Message>)
    requires forall m <- messages :: FitsLine(m)
    ensures var chars := AllLineChars(messages);
            && AllChars(chars) && Concat(chars) == Concat(AllWrittenLines(messages))
            && Lines(TextOf(chars)) == AllUtf16(messages) && Tail(TextOf(chars)) == []
            && Firm(TextOf(chars)) && Tight(TextOf(chars)) && (TextOf(chars) != [] ==> TextOf(chars)[0] != LF)
  {
    if messages != [] {
      var m, rest := messages[0], messages[1..];
      LinesAre(rest);
      var t, more := Utf16Of(m), TextOf(AllLineChars(rest));
      LineIs(m);
      TextOfConcat(LineChars(m), AllLineChars(rest));
      ConcatBoth(LineChars(m), AllLineChars(rest));
      assert m in messages && AllWrittenLines(messages)[1..] == AllWrittenLines(rest);
      LinesStep(t, more);
      Untrimmed(t);
      FirmMore(t, more);
      TightMore(t, more);
    }
  }

  lemma Untrimmed(t: Text)
    requires t != [] && !Space(t[0]) && !Space(t[|t| - 1])
    ensures Trim(t) == t
  {
    TrimIsCore([], t, []);
    assert [] + t + [] == t;
  }

  /** No line ends with white space. */
  predicate Firm(t: Text) {
    forall i :: 0 < i < |t| && t[i] == LF ==> !Space(t[i - 1])
  }

  lemma FirmMore(t: Text, more: Text)
    requires t != [] && LF !in t && !Space(t[|t| - 1]) && Firm(more) && (more != [] ==> more[0] != LF)
    ensures Firm(t + [LF] + more)
  {
    var s := t + [LF] + more;
    forall i | 0 < i < |s| && s[i] == LF ensures !Space(s[i - 1]) {
      if i > |t| + 1 { assert s[i] == more[i - |t| - 1] && s[i - 1] == more[i - 1 - |t| - 1]; }
    }
  }

  lemma FirmHasNoHeader(t: Text)
    requires Firm(t)
    ensures NoHeader(t)
  {
    forall i, d | 0 <= i && 0 < d && i + |HEADER| + d + |BREAKS| <= |t| ensures !IsHeader(t, i, d) {
      var k := i + |HEADER| + d;
      var window := t[k..k + |BREAKS|];
      assert window[0] == t[k] && window[1] == t[k + 1] && BREAKS[0] == CR && BREAKS[1] == LF;
    }
  }

  function Breaks(t: Text): nat { multiset(t)[LF] }

  /** Everything but the line breaks is in the messages. */
  predicate Tight(t: Text) {
    Amount(t) + Breaks(t) == |t|
  }

  lemma {:induction false} AmountAtMost(t: Text)
    ensures Amount(t) + Breaks(t) <= |t|
    decreases |t|
  {
    var nl := IndexOfNewline(t);
    NewlineNone(t);
    if nl.Some? {
      var line, rest := t[..nl.value], t[nl.value + 1..];
      NewlineSplits(t);
      AmountAtMost(rest);
      AmountStep(line, rest);
      var lo, hi := TrimParts(line);
      BreaksIn(line, rest);
    }
  }

  lemma BreaksIn(line: Text, rest: Text)
    requires LF !in line
    ensures Breaks(line + [LF] + rest) == 1 + Breaks(rest)
  {
    assert multiset(line + [LF] + rest) == multiset(line) + multiset([LF]) + multiset(rest);
    assert multiset(line)[LF] == 0;
  }

  lemma TightMore(t: Text, more: Text)
    requires t != [] && LF !in t && !Space(t[0]) && !Space(t[|t| - 1]) && Tight(more)
    ensures Tight(t + [LF] + more)
  {
    Untrimmed(t);
    AmountStep(t, more);
    BreaksIn(t, more);
  }

  lemma {:induction false} KeptStaysFirm(t: Text, gone: seq<bool>)
    requires OnlyFeff(t, gone) && Firm(t)
    ensures Firm(Kept(t, gone))
    ensures Kept(t, gone) != [] && Kept(t, gone)[0] == LF ==> t[0] == LF
    decreases |t|
  {
    if t != [] {
      var rest := Kept(t[1..], gone[1..]);
      FirmRest(t, gone);
      KeptStaysFirm(t[1..], gone[1..]);
      if !gone[0] { FirmCons(t[0], rest); }
    }
  }

  lemma FirmRest(t: Text, gone: seq<bool>)
    requires OnlyFeff(t, gone) && Firm(t) && t != []
    ensures OnlyFeff(t[1..], gone[1..]) && Firm(t[1..])
    ensures |t| > 1 && t[1..][0] == LF ==> !Space(t[0]) && !gone[0]
  {
    assert |t| > 1 ==> t[1..][0] == t[1];
    forall i | 0 < i < |t[1..]| && t[1..][i] == LF ensures !Space(t[1..][i - 1]) {
      assert t[i + 1] == LF;
    }
  }

  lemma {:induction false} KeptBreaks(t: Text, gone: seq<bool>)
    requires OnlyFeff(t, gone)
    ensures Breaks(Kept(t, gone)) == Breaks(t)
    decreases |t|
  {
    if t != [] {
      KeptBreaks(t[1..], gone[1..]);
      assert t == [t[0]] + t[1..];
    }
  }

  lemma FirmCons(u: Unit, rest: Text)
    requires Firm(rest) && (rest != [] && rest[0] == LF ==> !Space(u))
    ensures Firm([u] + rest)
  {
    var s := [u] + rest;
    forall i | 0 < i < |s| && s[i] == LF ensures !Space(s[i - 1]) {
      assert s[i] == rest[i - 1] && (i > 1 ==> s[i - 1] == rest[i - 2]);
    }
  }

  /** Where no line has a margin nothing can be lost unnoticed. */
  lemma TightLosesNothing(t: Text, gone: seq<bool>)
    requires OnlyFeff(t, gone) && Firm(t) && Tight(t)
    ensures GoneInMargins(t, gone) <==> NoneGone(gone)
  {
    MarginsExactly(t, gone);
    KeptLength(t, gone);
    KeptBreaks(t, gone);
    AmountAtMost(Kept(t, gone));
  }

  /** Messages sent as lines are handled as they were sent, however the bytes are
      cut, if and only if no chunk ends inside a character or begins with a mark. */
  lemma LinesHandledIff(messages: seq<Message>, chunks: seq<Bytes>)
    requires (forall m <- messages :: FitsLine(m)) && Concat(chunks) == Concat(AllWrittenLines(messages))
    ensures Feed([], DecodeChunks(chunks)) == Drained(AllUtf16(messages), [])
       <==> WholeChars(AllLineChars(messages), 0, chunks) && NoMarks(chunks)
  {
    var chars, gone, starts := AllLineChars(messages), [], Starts(chunks, 0);
    LinesAre(messages);
    gone := Dropped(chars, chunks);
    var _ := CutWithMarks(chars, chunks);
    DroppedText(chars, 0, starts);
    DroppedCount(chars, 0, starts);
    KeptLength(TextOf(chars), gone);
    KeptStaysFirm(TextOf(chars), gone);
    FirmHasNoHeader(LeftText(chars, chunks));
    TightLosesNothing(TextOf(chars), gone);
    LinesHoweverCut(chars, chunks);
  }
}
