/** The reader on bytes: what is handled when a stream is cut into chunks, each
    decoded by itself. */
module ByteStreams {
  import opened Common
  import opened Utf8
  import opened Framing
  import opened Marks
  import opened Margins

  /** What a decoder that sees the whole stream makes of each character. */
  function UnitsOf(chars: seq<Bytes>): seq<Text>
    requires AllChars(chars)
  {
    if chars == [] then [] else [Units(chars[0])] + UnitsOf(chars[1..])
  }

  function TextOf(chars: seq<Bytes>): Text
    requires AllChars(chars)
  {
    Concat(UnitsOf(chars))
  }

  lemma TextOfFirst(chars: seq<Bytes>)
    requires AllChars(chars) && chars != []
    ensures TextOf(chars) == Units(chars[0]) + TextOf(chars[1..])
  {
    assert UnitsOf(chars)[1..] == UnitsOf(chars[1..]);
  }

  lemma OutsRest(chars: seq<Bytes>, outs: seq<Text>)
    requires Outs(chars, outs) && chars != []
    ensures AllChars(chars) && Outs(chars[1..], outs[1..]) && MayGive(chars[0], outs[0]) && outs[0] != []
    ensures Intact(chars, outs) <==> outs[0] == Units(chars[0]) && Intact(chars[1..], outs[1..])
  {
    forall i | 0 <= i < |chars| ensures IsChar(chars[i]) { assert MayGive(chars[i], outs[i]); }
    forall i | 0 <= i < |chars[1..]| ensures MayGive(chars[1..][i], outs[1..][i]) {
      assert chars[1..][i] == chars[i + 1] && outs[1..][i] == outs[i + 1];
    }
    OutsFirst(chars, outs);
  }

  lemma {:induction false} IntactText(chars: seq<Bytes>, outs: seq<Text>)
    requires Intact(chars, outs)
    ensures AllChars(chars) && Concat(outs) == TextOf(chars)
  {
    if chars != [] {
      OutsRest(chars, outs);
      IntactText(chars[1..], outs[1..]);
      TextOfFirst(chars);
    }
  }

  // ---------- ASCII survives ----------

  predicate Ascii(u: Unit) { u < 0x80 }

  lemma LongIsNotAscii(c: Bytes)
    requires IsChar(c) && |c| > 1
    ensures forall i :: 0 <= i < |Units(c)| ==> !Ascii(Units(c)[i])
  {
    assert Fits(c, 1);
    assert |c| >= 3 ==> Fits(c, 2);
    assert |c| >= 4 ==> Fits(c, 3);
  }

  lemma GarbledIsNotAscii(out: Text)
    requires AllReplaced(out)
    ensures forall i :: 0 <= i < |out| ==> !Ascii(out[i])
  {
    forall i | 0 <= i < |out| ensures !Ascii(out[i]) { assert out[i] in out; }
  }

  lemma AsciiOut(c: Bytes, out: Text, i: nat)
    requires MayGive(c, out) && i < |out| && Ascii(out[i])
    ensures out == Units(c) && |out| == 1
  {
    if Garbled(out) { GarbledIsNotAscii(out); } else if |c| > 1 { LongIsNotAscii(c); }
  }

  /** ASCII text at the start of what came out was at the start of what went in. */
  lemma {:induction false} AsciiStart(chars: seq<Bytes>, outs: seq<Text>, n: nat)
    requires AllChars(chars) && Outs(chars, outs) && n <= |Concat(outs)|
    requires forall k :: 0 <= k < n ==> Ascii(Concat(outs)[k])
    ensures n <= |TextOf(chars)| && TextOf(chars)[..n] == Concat(outs)[..n]
    decreases n
  {
    if n > 0 {
      OutsRest(chars, outs);
      assert Concat(outs)[0] == outs[0][0];
      AsciiOut(chars[0], outs[0], 0);
      var later := Concat(outs[1..]);
      assert forall k :: 0 <= k < n - 1 ==> later[k] == Concat(outs)[k + 1];
      AsciiStart(chars[1..], outs[1..], n - 1);
      TextOfFirst(chars);
      assert Concat(outs)[..n] == outs[0] + later[..n - 1];
      assert (Units(chars[0]) + TextOf(chars[1..]))[..n] == Units(chars[0]) + TextOf(chars[1..])[..n - 1];
    }
  }

  /** The text `w` stands at `i`. */
  predicate At(t: Text, i: nat, w: Text) {
    i + |w| <= |t| && t[i..i + |w|] == w
  }

  /** ASCII text anywhere in what came out was somewhere in what went in. */
  lemma {:induction false} AsciiWindow(chars: seq<Bytes>, outs: seq<Text>, whole: Text, i: nat, w: Text) returns (j: nat)
    requires AllChars(chars) && Outs(chars, outs) && whole == Concat(outs) && w != [] && At(whole, i, w)
    requires forall u <- w :: Ascii(u)
    ensures At(TextOf(chars), j, w)
    decreases |chars|
  {
    OutsRest(chars, outs);
    var first, later := outs[0], Concat(outs[1..]);
    if i < |first| {
      AsciiAtStart(chars, outs, whole, i, w);
      j := 0;
    } else {
      Shifted(first, later, whole, i, w);
      var k := AsciiWindow(chars[1..], outs[1..], later, i - |first|, w);
      TextShifted(chars, k, w);
      j := k + |Units(chars[0])|;
    }
  }

  lemma AsciiAtStart(chars: seq<Bytes>, outs: seq<Text>, whole: Text, i: nat, w: Text)
    requires AllChars(chars) && Outs(chars, outs) && chars != [] && whole == Concat(outs) && w != [] && At(whole, i, w)
    requires i < |outs[0]| && forall u <- w :: Ascii(u)
    ensures At(TextOf(chars), 0, w)
  {
    assert whole[i] == outs[0][i] && whole[i] == w[0];
    AsciiOut(chars[0], outs[0], i);
    forall k | 0 <= k < |w| ensures Ascii(whole[k]) { assert whole[k] == w[k]; }
    AsciiStart(chars, outs, |w|);
    assert whole[0..|w|] == whole[..|w|];
  }

  lemma TextShifted(chars: seq<Bytes>, k: nat, w: Text)
    requires AllChars(chars) && chars != [] && At(TextOf(chars[1..]), k, w)
    ensures At(TextOf(chars), k + |Units(chars[0])|, w)
  {
    TextOfFirst(chars);
    WindowBehind(Units(chars[0]), TextOf(chars[1..]), k, |w|);
  }

  lemma Shifted(first: Text, later: Text, whole: Text, i: nat, w: Text)
    requires whole == first + later && |first| <= i && At(whole, i, w)
    ensures At(later, i - |first|, w)
  {
    WindowBehind(first, later, i - |first|, |w|);
  }

  lemma WindowBehind(front: Text, rest: Text, i: nat, n: nat)
    requires i + n <= |rest|
    ensures (front + rest)[|front| + i..|front| + i + n] == rest[i..i + n]
  {
  }

  lemma HeaderIsAscii(s: Text, i: nat, d: nat)
    requires IsHeader(s, i, d)
    ensures forall u <- s[i..i + |HEADER| + d + |BREAKS|] :: Ascii(u)
    ensures IsHeader(s[i..i + |HEADER| + d + |BREAKS|], 0, d)
  {
    var end := i + |HEADER| + d + |BREAKS|;
    var part := s[i..end];
    forall k | i <= k < end ensures Ascii(s[k]) {
      if k < i + |HEADER| { assert s[k] == s[i..i + |HEADER|][k - i]; }
      else if k < i + |HEADER| + d { assert s[k] == s[i + |HEADER|..i + |HEADER| + d][k - i - |HEADER|]; }
      else { assert s[k] == s[i + |HEADER| + d..end][k - i - |HEADER| - d]; }
    }
    SliceOfSlice(s, i, end, 0, |HEADER|);
    SliceOfSlice(s, i, end, |HEADER|, |HEADER| + d);
    SliceOfSlice(s, i, end, |HEADER| + d, |HEADER| + d + |BREAKS|);
  }

  /** Cutting makes no header out of none. */
  lemma NoHeaderComesOut(chars: seq<Bytes>, outs: seq<Text>)
    requires AllChars(chars) && Outs(chars, outs) && NoHeader(TextOf(chars))
    ensures NoHeader(Concat(outs))
  {
    forall i, d ensures !IsHeader(Concat(outs), i, d) {
      if IsHeader(Concat(outs), i, d) {
        var w := Concat(outs)[i..i + |HEADER| + d + |BREAKS|];
        HeaderIsAscii(Concat(outs), i, d);
        var j := AsciiWindow(chars, outs, Concat(outs), i, w);
        HeaderInPart(TextOf(chars), j, j + |w|, 0, d);
      }
    }
  }

  // ---------- Counting replacements ----------

  function Count(t: Text): nat { multiset(t)[REPLACEMENT] }

  lemma CountReplaced(u: Text)
    requires AllReplaced(u)
    ensures Count(u) == |u|
    decreases |u|
  {
    if u != [] {
      assert u == [u[0]] + u[1..] && u[0] in u;
      assert forall c <- u[1..] :: c in u;
      CountReplaced(u[1..]);
    }
  }

  lemma CountUnits(c: Bytes)
    requires IsChar(c)
    ensures Count(Units(c)) <= 1
  {
    var u := Units(c);
    if |u| == 1 {
      assert u == [u[0]];
    } else {
      assert Fits(c, 1) && Fits(c, 2) && Fits(c, 3);
      assert u == [u[0]] + [u[1]] && u[0] != REPLACEMENT && u[1] != REPLACEMENT;
    }
  }

  /** A cut character adds replacements. */
  lemma {:induction false} CutsAddReplacements(chars: seq<Bytes>, outs: seq<Text>)
    requires AllChars(chars) && Outs(chars, outs)
    ensures Count(Concat(outs)) >= Count(TextOf(chars))
    ensures Count(Concat(outs)) == Count(TextOf(chars)) <==> Intact(chars, outs)
    decreases |chars|
  {
    if chars != [] {
      OutsRest(chars, outs);
      TextOfFirst(chars);
      CutsAddReplacements(chars[1..], outs[1..]);
      assert Count(Concat(outs)) == Count(outs[0]) + Count(Concat(outs[1..]));
      assert Count(TextOf(chars)) == Count(Units(chars[0])) + Count(TextOf(chars[1..]));
      if outs[0] != Units(chars[0]) {
        CountReplaced(outs[0]);
        CountUnits(chars[0]);
      }
    }
  }

  lemma {:induction false} CountTrimStart(s: Text)
    ensures Count(TrimStart(s)) == Count(s)
    decreases |s|
  {
    if s != [] && Space(s[0]) {
      CountTrimStart(s[1..]);
      assert s == [s[0]] + s[1..];
    }
  }

  lemma {:induction false} CountTrimEnd(s: Text)
    ensures Count(TrimEnd(s)) == Count(s)
    decreases |s|
  {
    if s != [] && Space(s[|s| - 1]) {
      CountTrimEnd(s[..|s| - 1]);
      assert s == s[..|s| - 1] + [s[|s| - 1]];
    }
  }

  lemma CountMessage(line: Text)
    ensures Count(Concat(MessageOf(line))) == Count(line)
  {
    CountTrimStart(line);
    CountTrimEnd(TrimStart(line));
    assert Concat([Trim(line)]) == Trim(line) + [];
  }

  /** Cutting a text into lines and trimming them loses no replacement. */
  lemma {:induction false} CountLines(s: Text)
    ensures Count(Concat(Lines(s))) + Count(Tail(s)) == Count(s)
    decreases |s|
  {
    var n := IndexOfNewline(s);
    if n.Some? {
      NewlineSplits(s);
      var line, rest := s[..n.value], s[n.value + 1..];
      assert s == line + [LF] + rest;
      CountMessage(line);
      CountLines(rest);
      ConcatParts(MessageOf(line), Lines(rest));
    }
  }

  // ---------- Dropped marks ----------

  /** Which units of the text belong to a mark that is dropped. */
  function Gone(chars: seq<Bytes>, m: nat, starts: set<nat>): (g: seq<bool>)
    requires AllChars(chars)
    ensures |g| == |TextOf(chars)|
    decreases |chars|
  {
    if chars == [] then []
    else
      TextOfFirst(chars);
      seq(|Units(chars[0])|, _ => m in starts) + Gone(chars[1..], m + |chars[0]|, starts)
  }

  function Dropped(chars: seq<Bytes>, chunks: seq<Bytes>): (g: seq<bool>)
    requires AllChars(chars)
    ensures |g| == |TextOf(chars)|
  {
    Gone(chars, 0, Starts(chunks, 0))
  }

  /** The text of the characters that are not dropped. */
  function LeftText(chars: seq<Bytes>, chunks: seq<Bytes>): Text
    requires AllChars(chars)
  {
    FewerRemain(chars, 0, Starts(chunks, 0));
    TextOf(Left(chars, chunks))
  }

  lemma DroppedText(chars: seq<Bytes>, m: nat, starts: set<nat>)
    requires AllChars(chars) && Marks.OnlyMarks(chars, m, starts)
    ensures AllChars(Remaining(chars, m, starts))
    ensures OnlyFeff(TextOf(chars), Gone(chars, m, starts))
    ensures Kept(TextOf(chars), Gone(chars, m, starts)) == TextOf(Remaining(chars, m, starts))
    ensures Count(TextOf(Remaining(chars, m, starts))) == Count(TextOf(chars))
    ensures |TextOf(Remaining(chars, m, starts))| == |TextOf(chars)| ==> |Remaining(chars, m, starts)| == |chars|
  {
    FewerRemain(chars, m, starts);
    DroppedFeff(chars, m, starts);
    DroppedKept(chars, m, starts);
    DroppedCount(chars, m, starts);
  }

  lemma {:induction false} DroppedFeff(chars: seq<Bytes>, m: nat, starts: set<nat>)
    requires AllChars(chars) && Marks.OnlyMarks(chars, m, starts)
    ensures OnlyFeff(TextOf(chars), Gone(chars, m, starts))
    decreases |chars|
  {
    if chars != [] {
      var c, rest, n := chars[0], chars[1..], m + |chars[0]|;
      var g := seq(|Units(c)|, _ => m in starts);
      DroppedFeff(rest, n, starts);
      TextOfFirst(chars);
      OneUnitGone(c, m in starts, g);
      FeffConcat(Units(c), g, TextOf(rest), Gone(rest, n, starts));
    }
  }

  lemma FeffConcat(a: Text, ga: seq<bool>, b: Text, gb: seq<bool>)
    requires OnlyFeff(a, ga) && OnlyFeff(b, gb)
    ensures OnlyFeff(a + b, ga + gb)
  {
  }

  /** What remains behind the first character. */
  lemma RemainingText(chars: seq<Bytes>, m: nat, starts: set<nat>)
    requires AllChars(chars) && chars != []
    ensures AllChars(Remaining(chars, m, starts)) && AllChars(Remaining(chars[1..], m + |chars[0]|, starts))
    ensures TextOf(Remaining(chars, m, starts))
         == (if m in starts then [] else Units(chars[0])) + TextOf(Remaining(chars[1..], m + |chars[0]|, starts))
  {
    var later := Remaining(chars[1..], m + |chars[0]|, starts);
    FewerRemain(chars, m, starts);
    FewerRemain(chars[1..], m + |chars[0]|, starts);
    if m in starts {
      assert [] + later == later;
    } else {
      assert ([chars[0]] + later)[1..] == later;
      TextOfFirst([chars[0]] + later);
    }
  }

  lemma {:induction false} DroppedKept(chars: seq<Bytes>, m: nat, starts: set<nat>)
    requires AllChars(chars) && Marks.OnlyMarks(chars, m, starts)
    ensures AllChars(Remaining(chars, m, starts))
    ensures Kept(TextOf(chars), Gone(chars, m, starts)) == TextOf(Remaining(chars, m, starts))
    decreases |chars|
  {
    if chars != [] {
      var c, rest, n := chars[0], chars[1..], m + |chars[0]|;
      var g := seq(|Units(c)|, _ => m in starts);
      DroppedKept(rest, n, starts);
      TextOfFirst(chars);
      OneUnitGone(c, m in starts, g);
      KeptConcat(Units(c), g, TextOf(rest), Gone(rest, n, starts));
      RemainingText(chars, m, starts);
    }
  }

  lemma {:induction false} DroppedCount(chars: seq<Bytes>, m: nat, starts: set<nat>)
    requires AllChars(chars) && Marks.OnlyMarks(chars, m, starts)
    ensures AllChars(Remaining(chars, m, starts))
    ensures Count(TextOf(Remaining(chars, m, starts))) == Count(TextOf(chars))
    ensures |TextOf(Remaining(chars, m, starts))| <= |TextOf(chars)|
    ensures |TextOf(Remaining(chars, m, starts))| == |TextOf(chars)| ==> |Remaining(chars, m, starts)| == |chars|
    decreases |chars|
  {
    if chars != [] {
      var c, rest, n := chars[0], chars[1..], m + |chars[0]|;
      DroppedCount(rest, n, starts);
      TextOfFirst(chars);
      OneUnitGone(c, m in starts, seq(|Units(c)|, _ => m in starts));
      RemainingText(chars, m, starts);
      CountConcat(Units(c), TextOf(rest));
      CountConcat(Units(c), TextOf(Remaining(rest, n, starts)));
    }
  }

  lemma CountConcat(a: Text, b: Text)
    ensures Count(a + b) == Count(a) + Count(b)
  {
  }

  lemma OneUnitGone(c: Bytes, gone: bool, g: seq<bool>)
    requires IsChar(c) && (gone ==> c == MARK) && g == seq(|Units(c)|, _ => gone)
    ensures OnlyFeff(Units(c), g) && Kept(Units(c), g) == (if gone then [] else Units(c))
    ensures gone ==> Units(c) == [FEFF] && Count(Units(c)) == 0
  {
    if gone {
      assert Units(MARK) == [FEFF] && g == [true];
      assert [FEFF][1..] == [] && [true][1..] == [];
    } else {
      KeptLength(Units(c), g);
    }
  }

  // ---------- Lines ----------

  /** A stream of characters without headers, cut into chunks of bytes, is handled
      as its complete lines, trimmed and without the blank ones, if and only if no
      chunk ends inside a character and every mark that is dropped at the start of a
      chunk lies in the margin of a complete line. */
  lemma LinesHoweverCut(chars: seq<Bytes>, chunks: seq<Bytes>)
    requires AllChars(chars) && Concat(chunks) == Concat(chars) && NoHeader(LeftText(chars, chunks))
    ensures Feed([], DecodeChunks(chunks)) == Drained(Lines(TextOf(chars)), Tail(TextOf(chars)))
       <==> WholeChars(chars, 0, chunks) && GoneInMargins(TextOf(chars), Dropped(chars, chunks))
  {
    var text, left, gone := TextOf(chars), Left(chars, chunks), Dropped(chars, chunks);
    var outs := CutWithMarks(chars, chunks);
    DroppedText(chars, 0, Starts(chunks, 0));
    NoHeaderComesOut(left, outs);
    LinesOfText(DecodeChunks(chunks));
    CountLines(Concat(outs));
    CountLines(text);
    CutsAddReplacements(left, outs);
    SameLinesIffMargins(text, gone);
    if Intact(left, outs) { IntactText(left, outs); }
  }

  // ---------- Two cuts that go wrong ----------

  lemma ShortHasNoHeader(t: Text)
    requires |t| <= |HEADER|
    ensures NoHeader(t)
  {
  }

  lemma HalvesDecoded(a: Bytes, b: Bytes)
    requires a == [0xC3] && b == [0xA9, 10]
    ensures DecodeChunks([a, b]) == [[0xFFFD], [0xFFFD, 10]]
  {
    var c: Bytes := [0xC3, 0xA9];
    DecodeCut(c, 1);
    assert c[..1] == a;
    var end: Bytes := [10];
    DecodeOneStray(0xA9, end);
    DecodeWhole(end, []);
    assert end + [] == end && Units(end) == [10] && Decode([]) == [];
    assert [0xA9] + end == b;
    assert Decode(end) == [10];
    var one: Text, two: Text := [0xFFFD], [0xFFFD, 10];
    assert DecodeChunk(a) == one && DecodeChunk(b) == two;
    TwoDecoded(a, b);
  }

  /** A two-byte character cut in half: two replacement characters in its place. */
  lemma HalfCharacter() returns (chars: seq<Bytes>, chunks: seq<Bytes>)
    ensures AllChars(chars) && Concat(chunks) == Concat(chars) && NoMarks(chunks) && NoHeader(TextOf(chars))
    ensures Feed([], DecodeChunks(chunks)) != Drained(Lines(TextOf(chars)), Tail(TextOf(chars)))
    ensures chunks == [[0xC3], [0xA9, 10]] && DecodeChunks(chunks) == [[0xFFFD], [0xFFFD, 10]]
  {
    chars, chunks := [[0xC3, 0xA9], [10]], [[0xC3], [0xA9, 10]];
    HalvesDecoded(chunks[0], chunks[1]);
    Halves(chars, chunks);
    ShortLeft(chars, chunks);
    LinesHoweverCut(chars, chunks);
  }

  lemma Halves(chars: seq<Bytes>, chunks: seq<Bytes>)
    requires chars == [[0xC3, 0xA9], [10]] && chunks == [[0xC3], [0xA9, 10]]
    ensures AllChars(chars) && Concat(chunks) == Concat(chars) && NoMarks(chunks)
    ensures |TextOf(chars)| == 2 && !WholeChars(chars, 0, chunks)
  {
    TwoParts(chars[0], chars[1]);
    TwoParts(chunks[0], chunks[1]);
    assert chars == [chars[0], chars[1]] && chunks == [chunks[0], chunks[1]];
    assert |TextOf(chars)| == 2 by { TextOfFirst(chars); TextOfFirst(chars[1..]); assert chars[1..][1..] == []; }
    assert !CharBoundary(chars, 1);
  }

  lemma ShortLeft(chars: seq<Bytes>, chunks: seq<Bytes>)
    requires AllChars(chars) && Concat(chunks) == Concat(chars) && |TextOf(chars)| <= |HEADER|
    ensures NoHeader(TextOf(chars)) && NoHeader(LeftText(chars, chunks))
  {
    var outs := CutWithMarks(chars, chunks);
    DroppedText(chars, 0, Starts(chunks, 0));
    KeptLength(TextOf(chars), Dropped(chars, chunks));
    ShortHasNoHeader(TextOf(chars));
    ShortHasNoHeader(LeftText(chars, chunks));
  }

  lemma OneLine(line: Text)
    requires line != [] && LF !in line && !Space(line[0]) && !Space(line[|line| - 1])
    ensures Lines(line + [LF]) == [line]
  {
    NewlineFirst(line, []);
    assert line + [LF] + [] == line + [LF];
    assert (line + [LF])[..|line|] == line && (line + [LF])[|line| + 1..] == [];
    assert Trim(line) == line;
  }

  /** A chunk that begins with U+FEFF loses it, in the middle of a line too. */
  lemma DroppedMark() returns (chars: seq<Bytes>, chunks: seq<Bytes>)
    ensures AllChars(chars) && Concat(chunks) == Concat(chars) && WholeChars(chars, 0, chunks) && NoHeader(TextOf(chars))
    ensures Feed([], DecodeChunks(chunks)) != Drained(Lines(TextOf(chars)), Tail(TextOf(chars)))
  {
    var a, mark, b, end := [97], [0xEF, 0xBB, 0xBF], [98], [10];
    chars, chunks := [a, mark, b, end], [a, mark + b + end];
    MarkedChunks(a, mark, b, end, chars, chunks);
    OneLine([97, 98]);
    OneLine([97, 0xFEFF, 98]);
    assert [97, 98] + [LF] == [97, 98, 10] && [97, 0xFEFF, 98] + [LF] == [97, 0xFEFF, 98, 10];
    LinesOfText(DecodeChunks(chunks));
    Lengths([97, 98], [97, 0xFEFF, 98]);
  }

  lemma Lengths(a: Text, b: Text)
    requires |a| != |b|
    ensures [a] != [b]
  {
    assert [a][0] == a && [b][0] == b;
  }

  lemma MarkedChunks(a: Bytes, mark: Bytes, b: Bytes, end: Bytes, chars: seq<Bytes>, chunks: seq<Bytes>)
    requires a == [97] && mark == [0xEF, 0xBB, 0xBF] && b == [98] && end == [10]
    requires chars == [a, mark, b, end] && chunks == [a, mark + b + end]
    ensures AllChars(chars) && TextOf(chars) == [97, 0xFEFF, 98, 10] && Concat(chunks) == Concat(chars)
    ensures Concat(DecodeChunks(chunks)) == [97, 98, 10] && WholeChars(chars, 0, chunks)
  {
    MarkedText(a, mark, b, end, chars);
    MarkedDecoded(a, mark, b, end, chunks);
    MarkedWhole(a, mark, b, end, chars, chunks);
    FourParts(a, mark, b, end);
    TwoParts(a, mark + b + end);
  }

  lemma FourParts<T>(a: seq<T>, b: seq<T>, c: seq<T>, d: seq<T>)
    ensures Concat([a, b, c, d]) == a + (b + c + d)
  {
    var all := [a, b, c, d];
    assert all[1..] == [b, c, d] && [b, c, d][1..] == [c, d] && [c, d][1..] == [d] && [d][1..] == [];
    assert Concat([d]) == d + [] == d;
    assert Concat([c, d]) == c + d;
    assert Concat([b, c, d]) == b + (c + d);
  }

  lemma TwoParts<T>(a: seq<T>, b: seq<T>)
    ensures Concat([a, b]) == a + b
  {
    assert [a, b][1..] == [b] && [b][1..] == [];
    assert Concat([b]) == b + [] == b;
  }

  lemma MarkedText(a: Bytes, mark: Bytes, b: Bytes, end: Bytes, chars: seq<Bytes>)
    requires a == [97] && mark == [0xEF, 0xBB, 0xBF] && b == [98] && end == [10] && chars == [a, mark, b, end]
    ensures AllChars(chars) && TextOf(chars) == [97, 0xFEFF, 98, 10]
  {
    assert IsChar(a) && IsChar(mark) && IsChar(b) && IsChar(end);
    assert chars[1..] == [mark, b, end] && [mark, b, end][1..] == [b, end] && [b, end][1..] == [end] && [end][1..] == [];
    assert Units(mark) == [0xFEFF];
    TextOfFirst(chars);
    TextOfFirst([mark, b, end]);
    TextOfFirst([b, end]);
    TextOfFirst([end]);
  }

  lemma MarkedDecoded(a: Bytes, mark: Bytes, b: Bytes, end: Bytes, chunks: seq<Bytes>)
    requires a == [97] && mark == [0xEF, 0xBB, 0xBF] && b == [98] && end == [10] && chunks == [a, mark + b + end]
    ensures Concat(DecodeChunks(chunks)) == [97, 98, 10]
  {
    assert chunks[1..] == [mark + b + end] && chunks[1..][1..] == [];
    assert a + [] == a && end + [] == end && (mark + b + end)[3..] == b + end;
    DecodeWhole(a, []);
    DecodeWhole(b, end);
    DecodeWhole(end, []);
    TwoParts(DecodeChunk(a), DecodeChunk(mark + b + end));
    TwoDecoded(a, mark + b + end);
  }

  lemma TwoDecoded(a: Bytes, b: Bytes)
    ensures DecodeChunks([a, b]) == [DecodeChunk(a), DecodeChunk(b)]
  {
    assert [a, b][1..] == [b] && [b][1..] == [];
    assert DecodeChunks([b]) == [DecodeChunk(b)] + DecodeChunks([]);
  }

  lemma MarkedWhole(a: Bytes, mark: Bytes, b: Bytes, end: Bytes, chars: seq<Bytes>, chunks: seq<Bytes>)
    requires |a| == 1 && |mark| == 3 && |b| == 1 && |end| == 1
    requires chars == [a, mark, b, end] && chunks == [a, mark + b + end]
    ensures WholeChars(chars, 0, chunks)
  {
    assert chars[1..] == [mark, b, end] && [mark, b, end][1..] == [b, end] && [b, end][1..] == [end] && [end][1..] == [];
    BoundaryPeeled(chars, 6);
    BoundaryPeeled([mark, b, end], 5);
    BoundaryPeeled([b, end], 2);
    BoundaryPeeled([end], 1);
    BoundaryPeeled(chars, 1);
    assert chunks[1..] == [mark + b + end] && chunks[1..][1..] == [];
  }
}
