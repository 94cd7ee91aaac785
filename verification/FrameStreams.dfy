/** Streams of `Content-Length` frames in bytes: exactly when each body is handled. */
module FrameStreams {
  import opened Common
  import opened Utf8
  import opened Framing
  import opened Marks
  import opened Margins
  import opened ByteStreams

  // ---------- The first message ----------

  /** How the first frame of a stream comes out: its header as a line, nothing
      yet, or as much text as it announces. */
  datatype How = AsLine | NotYet | AsBody

  predicate InFirstBreaks(f: Frame, n: nat) {
    |f.Line()| + 2 <= n <= |f.Line()| + 3
  }

  /** The buffer holds less of the stream than the first frame announces. */
  predicate Begun(f: Frame, tail: Text, buf: Text, chunks: seq<Text>) {
    && f.Formed() && buf + Concat(chunks) == f.Head() + tail
    && |buf| < |f.Head()| + Value(f.digits) && !InFirstBreaks(f, |buf|)
  }

  lemma TakeAnnounced(f: Frame, tail: Text, now: Text)
    requires f.Formed() && now <= f.Head() + tail && |f.Head()| + Value(f.digits) <= |now|
    ensures var start := |f.Head()|;
            var length := Value(f.digits);
            Take(now) == Took([tail[..length]], now[start + length..])
  {
    HeadParts(f);
    PrefixPastFirst(f.Head(), tail, now);
    HeadFound(f, now);
    var start, length := |f.Head()|, Value(f.digits);
    assert now[start..] == tail[..|now| - start];
    assert now[start..start + length] == tail[..length];
  }

  lemma DrainBegun(f: Frame, tail: Text, now: Text)
    requires f.Formed() && now <= f.Head() + tail && |now| < |f.Head()| + Value(f.digits)
    ensures if InFirstBreaks(f, |now|) then Drain(now).messages == [f.Line()] else Drain(now) == Drained([], now)
  {
    HeadParts(f);
    if |f.Head()| <= |now| {
      PrefixPastFirst(f.Head(), tail, now);
      HeadFound(f, now);
    } else {
      PrefixOfFirst(f.Head(), tail, now);
      if |now| <= |f.Line()| + 1 { TakeNothing(f, now); } else { TakeHeaderAsLine(f, now); }
    }
  }

  lemma PrefixOf(now: Text, later: Text, whole: Text)
    requires now + later == whole
    ensures now <= whole && later == whole[|now|..]
  {
  }

  /** What becomes of the first frame of a stream, whatever it announces and
      however the stream is cut. */
  lemma {:induction false} FirstMessage(frames: seq<Frame>, tail: Text, buf: Text, chunks: seq<Text>)
    returns (how: How, later: seq<Text>)
    requires frames != [] && Begun(frames[0], tail, buf, chunks)
    ensures how.AsLine? ==> Feed(buf, chunks).messages != [] && Feed(buf, chunks).messages[0] == frames[0].Line()
    ensures how.NotYet? ==> Feed(buf, chunks).messages == []
    ensures var length := Value(frames[0].digits);
            how.AsBody? ==>
              && length <= |tail| && Concat(later) == tail[length..]
              && Feed(buf, chunks) == After([tail[..length]], Feed([], later))
              && (length == |frames[0].body| && CleanCuts(frames[1..], 0, later) ==> CleanCuts(frames, |buf|, chunks))
    decreases |chunks|
  {
    later := [];
    if chunks == [] {
      how := NotYet;
    } else {
      var f, now := frames[0], buf + chunks[0];
      ConcatStep(buf, chunks);
      PrefixOf(now, Concat(chunks[1..]), f.Head() + tail);
      FeedStep(buf, chunks);
      if |f.Head()| + Value(f.digits) <= |now| {
        how := AsBody;
        later := Complete(frames, tail, buf, chunks);
      } else {
        DrainBegun(f, tail, now);
        if InFirstBreaks(f, |now|) {
          how := AsLine;
        } else {
          how, later := FirstMessage(frames, tail, now, chunks[1..]);
          if Value(f.digits) == |f.body| { CleanWithin(frames, |buf|, chunks); }
        }
      }
    }
  }

  /** A cut inside the first frame that is not between its line breaks. */
  lemma CleanWithin(frames: seq<Frame>, n: nat, chunks: seq<Text>)
    requires frames != [] && chunks != [] && n + |chunks[0]| < |frames[0].Text()|
    requires !InFirstBreaks(frames[0], n + |chunks[0]|)
    ensures CleanCuts(frames, n, chunks) <==> CleanCuts(frames, n + |chunks[0]|, chunks[1..])
  {
  }

  /** The chunk that completes what the first frame announces. */
  lemma Complete(frames: seq<Frame>, tail: Text, buf: Text, chunks: seq<Text>) returns (later: seq<Text>)
    requires frames != [] && chunks != [] && Begun(frames[0], tail, buf, chunks)
    requires |frames[0].Head()| + Value(frames[0].digits) <= |buf + chunks[0]|
    ensures var length := Value(frames[0].digits);
            && length <= |tail| && Concat(later) == tail[length..]
            && Feed(buf, chunks) == After([tail[..length]], Feed([], later))
            && (length == |frames[0].body| && CleanCuts(frames[1..], 0, later) ==> CleanCuts(frames, |buf|, chunks))
  {
    var f, now, length := frames[0], buf + chunks[0], Value(frames[0].digits);
    var y := now[|f.Head()| + length..];
    later := [y] + chunks[1..];
    ConcatStep(buf, chunks);
    PrefixOf(now, Concat(chunks[1..]), f.Head() + tail);
    TakeAnnounced(f, tail, now);
    FeedTaken(buf, chunks, tail[..length], y);
    RestAfter(f.Head(), tail, now, Concat(chunks[1..]), length);
    assert later[1..] == chunks[1..];
    if length == |f.body| { CleanBehind(frames, |buf|, chunks, y); }
  }

  lemma RestAfter(head: Text, tail: Text, now: Text, more: Text, length: nat)
    requires now + more == head + tail && |head| + length <= |now|
    ensures length <= |tail| && now[|head| + length..] + more == tail[length..]
  {
    assert (now + more)[|head| + length..] == now[|head| + length..] + more;
    assert (head + tail)[|head| + length..] == tail[length..];
  }

  /** Handling the first message and then the rest of the chunk as a chunk of its own. */
  lemma FeedTaken(buf: Text, chunks: seq<Text>, message: Text, y: Text)
    requires chunks != [] && Take(buf + chunks[0]) == Took([message], y)
    ensures Feed(buf, chunks) == After([message], Feed([], [y] + chunks[1..]))
  {
    var now := buf + chunks[0];
    FeedStep(buf, chunks);
    DrainTakes(now);
    FeedNext([], y, chunks[1..]);
    assert [] + y == y;
    AfterTwice([message], Drain(y).messages, Feed(Drain(y).rest, chunks[1..]));
  }

  lemma CleanBehind(frames: seq<Frame>, n: nat, chunks: seq<Text>, y: Text)
    requires frames != [] && chunks != [] && |frames[0].Text()| <= n + |chunks[0]|
    requires |y| == n + |chunks[0]| - |frames[0].Text()|
    ensures CleanCuts(frames[1..], 0, [y] + chunks[1..]) ==> CleanCuts(frames, n, chunks)
  {
    var m := n + |chunks[0]|;
    assert ([y] + chunks[1..])[1..] == chunks[1..];
    CleanPeeled(frames, m, chunks[1..]);
    CleanStep(frames, n, m, chunks);
    CleanStep(frames[1..], 0, |y|, [y] + chunks[1..]);
    BreaksPeeled(frames, m);
  }

  lemma BreaksPeeled(frames: seq<Frame>, n: nat)
    requires frames != [] && |frames[0].Text()| <= n
    ensures InBreaks(frames, n) <==> InBreaks(frames[1..], n - |frames[0].Text()|)
  {
  }

  // ---------- All messages ----------

  function Feffs(t: Text): nat { multiset(t)[FEFF] }

  /** A replacement character stands where there was none. */
  predicate Shows(came: Text, sent: Text) {
    REPLACEMENT !in sent && exists p :: 0 <= p < |came| && p < |sent| && came[p] == REPLACEMENT
  }

  /** Shorter by some marks. */
  predicate Lost(came: Text, sent: Text) {
    |came| < |sent| && Feffs(sent) == Feffs(came) + (|sent| - |came|)
  }

  /** A body that came through, or one that shows that it did not. */
  predicate Through(came: Text, sent: Text) {
    came == sent || Shows(came, sent) || Lost(came, sent)
  }

  /** What came of the frames that were sent: the same headers. */
  predicate Came(came: seq<Frame>, sent: seq<Frame>) {
    |came| == |sent|
    && forall k :: 0 <= k < |sent| ==>
         && sent[k].Formed() && came[k].digits == sent[k].digits && Through(came[k].body, sent[k].body)
         && sent[k].body != sent[k].Line()
  }

  lemma CameRest(came: seq<Frame>, sent: seq<Frame>)
    requires Came(came, sent) && sent != []
    ensures Came(came[1..], sent[1..])
  {
    forall k | 0 <= k < |sent[1..]|
      ensures && sent[1..][k].Formed() && came[1..][k].digits == sent[1..][k].digits
              && Through(came[1..][k].body, sent[1..][k].body) && sent[1..][k].body != sent[1..][k].Line()
    {
      assert came[1..][k] == came[k + 1] && sent[1..][k] == sent[k + 1];
    }
  }

  /** If the messages are the bodies that were sent, then every body came
      through, every length was announced right and every cut was clean. */
  lemma {:induction false} HandledIsExact(came: seq<Frame>, sent: seq<Frame>, chunks: seq<Text>)
    requires Came(came, sent) && Concat(chunks) == Joined(came)
    requires Feed([], chunks).messages == Bodies(sent)
    ensures came == sent && CleanCuts(came, 0, chunks)
    ensures forall f <- sent :: f.Valid()
    decreases |sent|
  {
    if sent == [] {
      NeverInBreaks(0, chunks);
    } else {
      var later := FirstIsExact(came, sent, chunks);
      CameRest(came, sent);
      HandledIsExact(came[1..], sent[1..], later);
      AllExact(came, sent);
    }
  }

  lemma AllExact(came: seq<Frame>, sent: seq<Frame>)
    requires came != [] && sent != [] && came[0] == sent[0] && came[1..] == sent[1..]
    requires sent[0].Valid() && forall f <- sent[1..] :: f.Valid()
    ensures came == sent && forall f <- sent :: f.Valid()
  {
    assert came == [came[0]] + came[1..] && sent == [sent[0]] + sent[1..];
  }

  lemma FirstIsExact(came: seq<Frame>, sent: seq<Frame>, chunks: seq<Text>) returns (later: seq<Text>)
    requires Came(came, sent) && sent != [] && Concat(chunks) == Joined(came)
    requires Feed([], chunks).messages == Bodies(sent)
    ensures came[0] == sent[0] && sent[0].Valid() && Concat(later) == Joined(came[1..])
    ensures Feed([], later).messages == Bodies(sent[1..])
    ensures CleanCuts(came[1..], 0, later) ==> CleanCuts(came, 0, chunks)
  {
    var f, g, rest := came[0], sent[0], Joined(came[1..]);
    var tail := f.body + rest;
    JoinedFirst(came);
    assert [] + Concat(chunks) == Concat(chunks);
    HeadParts(f);
    var how;
    how, later := FirstMessage(came, tail, [], chunks);
    FirstBody(sent, Feed([], chunks).messages);
    NextBegins(came[1..]);
    if how.AsBody? {
      AfterOne(tail[..Value(f.digits)], Feed([], later), Bodies(sent[1..]), g.body);
      ThroughExactly(f, g, rest, Value(f.digits));
    } else {
      SameLine(f, g);
    }
  }

  lemma NextBegins(frames: seq<Frame>)
    ensures Joined(frames) != [] ==> Joined(frames)[0] != FEFF
  {
    if frames != [] {
      HeadParts(frames[0]);
      JoinedFirst(frames);
      assert Joined(frames)[0] == frames[0].Head()[..|HEADER|][0];
    }
  }

  lemma JoinedFirst(frames: seq<Frame>)
    requires frames != []
    ensures Joined(frames) == frames[0].Head() + (frames[0].body + Joined(frames[1..]))
  {
    Associative(frames[0].Head(), frames[0].body, Joined(frames[1..]));
  }

  lemma SameLine(f: Frame, g: Frame)
    requires f.digits == g.digits
    ensures f.Line() == g.Line()
  {
  }

  lemma FirstBody(sent: seq<Frame>, messages: seq<Text>)
    requires sent != [] && messages == Bodies(sent)
    ensures messages != [] && messages[0] == sent[0].body && messages == [sent[0].body] + Bodies(sent[1..])
  {
  }

  lemma AfterOne(message: Text, more: Drained, bodies: seq<Text>, body: Text)
    requires After([message], more).messages == [body] + bodies
    ensures message == body && more.messages == bodies
  {
    var all := [message] + more.messages;
    assert all[0] == message && all[1..] == more.messages;
    assert ([body] + bodies)[1..] == bodies;
  }

  lemma ThroughExactly(f: Frame, g: Frame, rest: Text, length: nat)
    requires Through(f.body, g.body) && f.digits == g.digits && g.Formed() && length == Value(f.digits)
    requires length <= |f.body + rest| && (f.body + rest)[..length] == g.body && (rest != [] ==> rest[0] != FEFF)
    ensures f == g && f.Valid() && (f.body + rest)[length..] == rest
  {
    assert |g.body| == length;
    if Shows(f.body, g.body) { NoReplacementShows(f.body, g.body, rest); }
    else if Lost(f.body, g.body) { NothingMakesUp(f.body, g.body, rest); }
    assert f.body == g.body;
  }

  lemma NoReplacementShows(came: Text, sent: Text, rest: Text)
    requires |sent| <= |came + rest| && (came + rest)[..|sent|] == sent
    ensures !Shows(came, sent)
  {
    forall p | 0 <= p < |came| && p < |sent| ensures came[p] == sent[p] {
      assert (came + rest)[..|sent|][p] == came[p];
    }
  }

  /** What follows cannot make up for lost marks: it does not begin with one. */
  lemma NothingMakesUp(came: Text, sent: Text, rest: Text)
    requires |sent| <= |came + rest| && (came + rest)[..|sent|] == sent && (rest != [] ==> rest[0] != FEFF)
    ensures !Lost(came, sent)
  {
    if |came| < |sent| {
      var d := |sent| - |came|;
      var more := rest[..d];
      assert sent == came + more;
      assert more == [more[0]] + more[1..] && more[0] == rest[0];
      FeffsAtMost(more[1..]);
      assert Feffs(more) == Feffs([more[0]]) + Feffs(more[1..]);
    }
  }

  lemma {:induction false} FeffsAtMost(t: Text)
    ensures Feffs(t) <= |t|
    decreases |t|
  {
    if t != [] {
      FeffsAtMost(t[1..]);
      assert t == [t[0]] + t[1..];
    }
  }

  lemma {:induction false} NeverInBreaks(n: nat, chunks: seq<Text>)
    ensures CleanCuts([], n, chunks)
    decreases |chunks|
  {
    if chunks != [] { NeverInBreaks(n + |chunks[0]|, chunks[1..]); }
  }

  // ---------- In bytes ----------

  /** A frame as it is sent: announced digits and the characters of its body. */
  datatype Sent = Sent(digits: Text, chars: seq<Bytes>) {
    predicate Formed() { digits != [] && AllDigits(digits) && AllChars(chars) }

    function AsFrame(): Frame
      requires Formed()
    {
      Frame(digits, TextOf(chars))
    }

    /** Head and body, character by character. */
    function Chars(): seq<Bytes> { Singles(AsHead()) + chars }

    function AsHead(): Text { Frame(digits, []).Head() }
  }

  /** One byte per unit, for ASCII text. */
  function Singles(t: Text): seq<Bytes> {
    seq(|t|, i requires 0 <= i < |t| => [if Ascii(t[i]) then t[i] else 0])
  }

  predicate AllFormed(sents: seq<Sent>) {
    forall s <- sents :: s.Formed()
  }

  function Frames(sents: seq<Sent>): seq<Frame>
    requires AllFormed(sents)
  {
    if sents == [] then [] else [sents[0].AsFrame()] + Frames(sents[1..])
  }

  function Stream(sents: seq<Sent>): seq<Bytes> {
    if sents == [] then [] else sents[0].Chars() + Stream(sents[1..])
  }

  lemma {:induction false} SinglesOut(t: Text, outs: seq<Text>)
    requires (forall u <- t :: Ascii(u)) && Outs(Singles(t), outs)
    ensures Concat(outs) == t
    decreases |t|
  {
    if t != [] {
      assert t[0] in t && MayGive(Singles(t)[0], outs[0]);
      assert forall u <- t[1..] :: u in t;
      assert Singles(t)[1..] == Singles(t[1..]);
      OutsRest(Singles(t), outs);
      SinglesOut(t[1..], outs[1..]);
    }
  }

  lemma HeadIsAscii(s: Sent)
    requires s.Formed()
    ensures forall u <- s.AsHead() :: Ascii(u)
  {
    var f := Frame(s.digits, []);
    HeadParts(f);
    forall i | 0 <= i < |f.Head()| ensures Ascii(f.Head()[i]) {
      if |HEADER| <= i < |f.Line()| { assert f.Head()[i] == s.digits[i - |HEADER|]; }
      else if i >= |f.Line()| { assert f.Head()[i] == BREAKS[i - |f.Line()|]; }
      else { assert f.Head()[i] == HEADER[i]; }
    }
  }

  lemma OutsSplit(a: seq<Bytes>, b: seq<Bytes>, outs: seq<Text>)
    requires Outs(a + b, outs)
    ensures Outs(a, outs[..|a|]) && Outs(b, outs[|a|..]) && Concat(outs) == Concat(outs[..|a|]) + Concat(outs[|a|..])
  {
    forall i | 0 <= i < |a| ensures MayGive(a[i], outs[i]) { assert MayGive((a + b)[i], outs[i]); }
    forall i | 0 <= i < |b| ensures MayGive(b[i], outs[|a| + i]) { assert MayGive((a + b)[|a| + i], outs[|a| + i]); }
    ConcatParts(outs[..|a|], outs[|a|..]);
    assert outs == outs[..|a|] + outs[|a|..];
  }

  /** A body without replacement characters comes through, or shows that it did not. */
  lemma {:induction false} BodyThrough(chars: seq<Bytes>, m: nat, starts: set<nat>, outs: seq<Text>)
    requires AllChars(chars) && OnlyMarks(chars, m, starts)
    requires Outs(Remaining(chars, m, starts), outs) && REPLACEMENT !in TextOf(chars)
    ensures Through(Concat(outs), TextOf(chars))
    decreases |chars|
  {
    if chars != [] {
      var c, rest, n := chars[0], chars[1..], m + |chars[0]|;
      var remaining := Remaining(chars, m, starts);
      TextOfFirst(chars);
      assert forall u <- TextOf(rest) :: u in TextOf(chars);
      if m in starts {
        assert remaining == Remaining(rest, n, starts);
        BodyThrough(rest, n, starts, outs);
        OneUnitGone(c, true, seq(|Units(c)|, _ => true));
        MarkLost(Concat(outs), TextOf(rest));
      } else {
        assert remaining[0] == c && remaining[1..] == Remaining(rest, n, starts);
        OutsRest(remaining, outs);
        if outs[0] == Units(c) {
          BodyThrough(rest, n, starts, outs[1..]);
          ThroughBehind(Units(c), Concat(outs[1..]), TextOf(rest));
        } else {
          assert outs[0][0] in outs[0];
          assert Concat(outs)[0] == REPLACEMENT;
        }
      }
    }
  }

  lemma MarkLost(came: Text, sent: Text)
    requires Through(came, sent)
    ensures REPLACEMENT !in sent ==> Through(came, [FEFF] + sent)
  {
    assert Feffs([FEFF] + sent) == 1 + Feffs(sent);
  }

  lemma ThroughBehind(front: Text, came: Text, sent: Text)
    requires Through(came, sent) && REPLACEMENT !in front
    ensures Through(front + came, front + sent)
  {
    if Shows(came, sent) {
      var p :| 0 <= p < |came| && p < |sent| && came[p] == REPLACEMENT;
      assert (front + came)[|front| + p] == REPLACEMENT;
    } else if Lost(came, sent) {
      assert Feffs(front + came) == Feffs(front) + Feffs(came) && Feffs(front + sent) == Feffs(front) + Feffs(sent);
    }
  }

  lemma {:induction false} RemainingCons(c: Bytes, rest: seq<Bytes>, m: nat, starts: set<nat>)
    ensures Remaining([c] + rest, m, starts) == (if m in starts then [] else [c]) + Remaining(rest, m + |c|, starts)
  {
    assert ([c] + rest)[1..] == rest;
  }

  lemma {:induction false} RemainingConcat(a: seq<Bytes>, b: seq<Bytes>, m: nat, starts: set<nat>)
    ensures Remaining(a + b, m, starts) == Remaining(a, m, starts) + Remaining(b, m + |Concat(a)|, starts)
    decreases |a|
  {
    if a == [] {
      assert a + b == b;
    } else {
      var c, rest := a[0], a[1..];
      assert a == [c] + rest && a + b == [c] + (rest + b);
      RemainingCons(c, rest + b, m, starts);
      RemainingCons(c, rest, m, starts);
      RemainingConcat(rest, b, m + |c|, starts);
      assert m + |c| + |Concat(rest)| == m + |Concat(a)|;
      Associative(if m in starts then [] else [c], Remaining(rest, m + |c|, starts), Remaining(b, m + |Concat(a)|, starts));
    }
  }

  lemma {:induction false} OnlyMarksConcat(a: seq<Bytes>, b: seq<Bytes>, m: nat, starts: set<nat>)
    ensures OnlyMarks(a + b, m, starts) <==> OnlyMarks(a, m, starts) && OnlyMarks(b, m + |Concat(a)|, starts)
    decreases |a|
  {
    if a == [] {
      assert a + b == b;
    } else {
      var m' := m + |a[0]|;
      assert (a + b)[0] == a[0] && (a + b)[1..] == a[1..] + b;
      OnlyMarksConcat(a[1..], b, m', starts);
      assert m' + |Concat(a[1..])| == m + |Concat(a)|;
    }
  }

  lemma {:induction false} SinglesRemain(t: Text, m: nat, starts: set<nat>)
    requires OnlyMarks(Singles(t), m, starts)
    ensures Remaining(Singles(t), m, starts) == Singles(t)
    decreases |t|
  {
    if t != [] {
      assert Singles(t)[1..] == Singles(t[1..]) && |Singles(t)[0]| == 1;
      SinglesRemain(t[1..], m + 1, starts);
      assert Singles(t) == [Singles(t)[0]] + Singles(t[1..]);
    }
  }

  /** What came of each frame. */
  lemma {:induction false} FramesCame(sents: seq<Sent>, m: nat, starts: set<nat>, outs: seq<Text>) returns (came: seq<Frame>)
    requires AllFormed(sents) && Ordinary(sents) && OnlyMarks(Stream(sents), m, starts)
    requires Outs(Remaining(Stream(sents), m, starts), outs)
    ensures Came(came, Frames(sents)) && Concat(outs) == Joined(came)
    decreases |sents|
  {
    came := [];
    if sents != [] {
      var s, rest := sents[0], sents[1..];
      var n := m + |Concat(s.Chars())|;
      RemainingConcat(s.Chars(), Stream(rest), m, starts);
      OnlyMarksConcat(s.Chars(), Stream(rest), m, starts);
      var first := Remaining(s.Chars(), m, starts);
      OutsSplit(first, Remaining(Stream(rest), n, starts), outs);
      var body := OneCame(s, m, starts, outs[..|first|]);
      var later := FramesCame(rest, n, starts, outs[|first|..]);
      came := [Frame(s.digits, body)] + later;
      assert came[1..] == later;
      assert Frames(sents)[1..] == Frames(rest) && Frames(sents)[0] == s.AsFrame();
      CameFirst(came, Frames(sents));
    }
  }

  /** The head as it was sent, and the body as it came. */
  lemma OneCame(s: Sent, m: nat, starts: set<nat>, outs: seq<Text>) returns (body: Text)
    requires s.Formed() && REPLACEMENT !in TextOf(s.chars) && OnlyMarks(s.Chars(), m, starts)
    requires Outs(Remaining(s.Chars(), m, starts), outs)
    ensures Concat(outs) == Frame(s.digits, body).Text() && Through(body, TextOf(s.chars))
  {
    var head := Singles(s.AsHead());
    var n, h := m + |Concat(head)|, |head|;
    RemainingConcat(head, s.chars, m, starts);
    OnlyMarksConcat(head, s.chars, m, starts);
    SinglesRemain(s.AsHead(), m, starts);
    OutsSplit(head, Remaining(s.chars, n, starts), outs);
    HeadIsAscii(s);
    SinglesOut(s.AsHead(), outs[..h]);
    body := Concat(outs[h..]);
    BodyThrough(s.chars, n, starts, outs[h..]);
  }

  lemma CameFirst(came: seq<Frame>, sent: seq<Frame>)
    requires came != [] && sent != [] && Came(came[1..], sent[1..])
    requires sent[0].Formed() && came[0].digits == sent[0].digits && Through(came[0].body, sent[0].body)
    requires sent[0].body != sent[0].Line()
    ensures Came(came, sent)
  {
    forall k | 0 <= k < |sent|
      ensures && sent[k].Formed() && came[k].digits == sent[k].digits
              && Through(came[k].body, sent[k].body) && sent[k].body != sent[k].Line()
    {
      if k > 0 { assert came[1..][k - 1] == came[k] && sent[1..][k - 1] == sent[k]; }
    }
  }

  /** No body holds U+FFFD or spells its own header line. */
  predicate Ordinary(sents: seq<Sent>) {
    forall s <- sents :: s.Formed() ==> REPLACEMENT !in TextOf(s.chars) && TextOf(s.chars) != s.AsFrame().Line()
  }

  lemma {:induction false} TextOfConcat(a: seq<Bytes>, b: seq<Bytes>)
    requires AllChars(a) && AllChars(b)
    ensures AllChars(a + b) && TextOf(a + b) == TextOf(a) + TextOf(b)
    decreases |a|
  {
    if a == [] {
      assert a + b == b;
    } else {
      assert (a + b)[1..] == a[1..] + b;
      TextOfConcat(a[1..], b);
      TextOfFirst(a);
      TextOfFirst(a + b);
      Associative(Units(a[0]), TextOf(a[1..]), TextOf(b));
    }
  }

  lemma {:induction false} SinglesText(t: Text)
    requires forall u <- t :: Ascii(u)
    ensures AllChars(Singles(t)) && TextOf(Singles(t)) == t
    decreases |t|
  {
    if t != [] {
      assert t[0] in t;
      assert forall u <- t[1..] :: u in t;
      assert Singles(t)[1..] == Singles(t[1..]) && Singles(t) == [[t[0]]] + Singles(t[1..]);
      SinglesText(t[1..]);
      TextOfFirst(Singles(t));
    }
  }

  /** Decoded in one go, the stream is the text of its frames. */
  lemma {:induction false} StreamText(sents: seq<Sent>)
    requires AllFormed(sents)
    ensures AllChars(Stream(sents)) && TextOf(Stream(sents)) == Joined(Frames(sents))
    decreases |sents|
  {
    if sents != [] {
      var s := sents[0];
      StreamText(sents[1..]);
      HeadIsAscii(s);
      SinglesText(s.AsHead());
      TextOfConcat(Singles(s.AsHead()), s.chars);
      TextOfConcat(s.Chars(), Stream(sents[1..]));
      assert Frames(sents)[1..] == Frames(sents[1..]);
      assert s.AsFrame().Text() == s.AsHead() + TextOf(s.chars);
    }
  }

  predicate Announced(sents: seq<Sent>)
    requires AllFormed(sents)
  {
    forall s <- sents :: Spells(s.digits, |TextOf(s.chars)|)
  }

  lemma {:induction false} AnnouncedValid(sents: seq<Sent>)
    requires AllFormed(sents)
    ensures Announced(sents) <==> forall f <- Frames(sents) :: f.Valid()
    decreases |sents|
  {
    if sents != [] {
      var s, rest := sents[0], sents[1..];
      AnnouncedValid(rest);
      assert s in sents && forall t <- rest :: t in sents;
      assert forall t <- sents :: t == s || t in rest;
      assert Frames(sents) == [s.AsFrame()] + Frames(rest);
      assert s.AsFrame() in Frames(sents) && forall f <- Frames(rest) :: f in Frames(sents);
      assert forall f <- Frames(sents) :: f == s.AsFrame() || f in Frames(rest);
      assert s.AsFrame().Valid() <==> Spells(s.digits, |TextOf(s.chars)|);
    }
  }

  /** No chunk begins with a mark or ends inside a character or between the two line
      breaks of a header, and each header announces the number of UTF-16 units of
      its body. */
  predicate Understood(sents: seq<Sent>, chunks: seq<Bytes>)
    requires AllFormed(sents)
  {
    && NoMarks(chunks) && WholeChars(Stream(sents), 0, chunks)
    && CleanCuts(Frames(sents), 0, DecodeChunks(chunks)) && Announced(sents)
  }

  /** A stream of frames in bytes, however it is cut into chunks, is handled as the
      bodies that were sent, with nothing left over, if it is understood; and, for
      ordinary bodies, only then. */
  lemma FramesHandledIff(sents: seq<Sent>, chunks: seq<Bytes>)
    requires AllFormed(sents) && Concat(chunks) == Concat(Stream(sents))
    ensures Understood(sents, chunks) ==> Feed([], DecodeChunks(chunks)) == Drained(Bodies(Frames(sents)), [])
    ensures Ordinary(sents) ==>
              (Feed([], DecodeChunks(chunks)).messages == Bodies(Frames(sents)) <==> Understood(sents, chunks))
  {
    var texts := DecodeChunks(chunks);
    AnnouncedValid(sents);
    if Understood(sents, chunks) { UnderstoodIsHandled(sents, chunks); }
    if Ordinary(sents) && Feed([], texts).messages == Bodies(Frames(sents)) { HandledIsUnderstood(sents, chunks); }
  }

  lemma UnderstoodIsHandled(sents: seq<Sent>, chunks: seq<Bytes>)
    requires AllFormed(sents) && Concat(chunks) == Concat(Stream(sents)) && Understood(sents, chunks)
    ensures Feed([], DecodeChunks(chunks)) == Drained(Bodies(Frames(sents)), [])
  {
    var chars, texts := Stream(sents), DecodeChunks(chunks);
    StreamText(sents);
    assert Concat(chars)[0..] == Concat(chars);
    var outs := CutStream(chars, 0, chunks);
    UnmarkedChunks(chunks);
    IntactText(chars, outs);
    AnnouncedValid(sents);
    WaitingFromStart(Frames(sents), texts);
    CleanCutsGiveBodies(Frames(sents), [], texts);
  }

  lemma HandledIsUnderstood(sents: seq<Sent>, chunks: seq<Bytes>)
    requires AllFormed(sents) && Concat(chunks) == Concat(Stream(sents)) && Ordinary(sents)
    requires Feed([], DecodeChunks(chunks)).messages == Bodies(Frames(sents))
    ensures Understood(sents, chunks)
  {
    var chars, starts := Stream(sents), Starts(chunks, 0);
    StreamText(sents);
    var outs := CutWithMarks(chars, chunks);
    var came := FramesCame(sents, 0, starts, outs);
    HandledIsExact(came, Frames(sents), DecodeChunks(chunks));
    AnnouncedValid(sents);
    DroppedText(chars, 0, starts);
    CutsAddReplacements(Left(chars, chunks), outs);
    IntactText(Left(chars, chunks), outs);
  }

  lemma WaitingFromStart(frames: seq<Frame>, chunks: seq<Text>)
    requires (forall f <- frames :: f.Valid()) && Concat(chunks) == Joined(frames)
    ensures Waiting(frames, [], chunks)
  {
    assert [] + Concat(chunks) == Concat(chunks);
  }

  /** A length counted in bytes is the number of units exactly for ASCII bodies. */
  lemma {:induction false} BytesAreUnits(chars: seq<Bytes>)
    requires AllChars(chars)
    ensures |Concat(chars)| >= |TextOf(chars)|
    ensures |Concat(chars)| == |TextOf(chars)| <==> forall c <- chars :: |c| == 1
    decreases |chars|
  {
    if chars != [] {
      BytesAreUnits(chars[1..]);
      TextOfFirst(chars);
      assert IsChar(chars[0]);
      assert chars == [chars[0]] + chars[1..];
    }
  }

  /** So a sender that counts bytes is understood exactly in ASCII. */
  lemma CountedInBytes(sents: seq<Sent>)
    requires AllFormed(sents) && forall s <- sents :: Spells(s.digits, |Concat(s.chars)|)
    ensures Announced(sents) <==> forall s <- sents :: forall c <- s.chars :: |c| == 1
  {
    forall s <- sents ensures Spells(s.digits, |TextOf(s.chars)|) <==> forall c <- s.chars :: |c| == 1 {
      ValueIsDecimal(s.digits, |Concat(s.chars)|);
      ValueIsDecimal(s.digits, |TextOf(s.chars)|);
      BytesAreUnits(s.chars);
    }
  }
}
