/** Byte order marks at the start of chunks: the decoder of each chunk drops one. */
module Marks {
  import opened Common
  import opened Utf8

  const MARK: Bytes := [0xEF, 0xBB, 0xBF]

  /** What is left of the chunks; the first one loses its mark only if it is whole. */
  function StripFrom(entire: bool, chunks: seq<Bytes>): seq<Bytes> {
    if chunks == [] then []
    else [if entire && Marked(chunks[0]) then chunks[0][3..] else chunks[0]] + Strip(chunks[1..])
  }

  function Strip(chunks: seq<Bytes>): seq<Bytes> {
    if chunks == [] then [] else [if Marked(chunks[0]) then chunks[0][3..] else chunks[0]] + Strip(chunks[1..])
  }

  /** The positions in the stream at which a mark is dropped, `n` bytes having come before. */
  function StartsFrom(entire: bool, chunks: seq<Bytes>, n: nat): set<nat> {
    if chunks == [] then {}
    else (if entire && Marked(chunks[0]) then {n} else {}) + Starts(chunks[1..], n + |chunks[0]|)
  }

  function Starts(chunks: seq<Bytes>, n: nat): set<nat>
    decreases |chunks|
  {
    if chunks == [] then {}
    else (if Marked(chunks[0]) then {n} else {}) + Starts(chunks[1..], n + |chunks[0]|)
  }

  /** The characters that are not dropped; the first one stands at `m`. */
  function Remaining(chars: seq<Bytes>, m: nat, starts: set<nat>): seq<Bytes>
    decreases |chars|
  {
    if chars == [] then []
    else (if m in starts then [] else [chars[0]]) + Remaining(chars[1..], m + |chars[0]|, starts)
  }

  /** Only marks are dropped. */
  predicate OnlyMarks(chars: seq<Bytes>, m: nat, starts: set<nat>)
    decreases |chars|
  {
    chars == [] || ((m in starts ==> chars[0] == MARK) && OnlyMarks(chars[1..], m + |chars[0]|, starts))
  }

  lemma {:induction false} StartsAbove(chunks: seq<Bytes>, n: nat)
    ensures forall p <- Starts(chunks, n) :: p >= n
    decreases |chunks|
  {
    if chunks != [] { StartsAbove(chunks[1..], n + |chunks[0]|); }
  }

  lemma {:induction false} StripDecodes(chunks: seq<Bytes>)
    ensures DecodeChunks(chunks) == DecodeEach(Strip(chunks))
  {
    if chunks != [] {
      StripDecodes(chunks[1..]);
      assert Strip(chunks)[1..] == Strip(chunks[1..]);
    }
  }

  lemma {:induction false} FewerRemain(chars: seq<Bytes>, m: nat, starts: set<nat>)
    requires AllChars(chars)
    ensures |Remaining(chars, m, starts)| <= |chars| && AllChars(Remaining(chars, m, starts))
    decreases |chars|
  {
    if chars != [] { FewerRemain(chars[1..], m + |chars[0]|, starts); }
  }

  lemma {:induction false} NoStarts(chunks: seq<Bytes>, n: nat)
    ensures Starts(chunks, n) == {} <==> NoMarks(chunks)
    decreases |chunks|
  {
    if chunks != [] {
      NoStarts(chunks[1..], n + |chunks[0]|);
      assert chunks == [chunks[0]] + chunks[1..];
    }
  }

  /** From `n` on the dropped marks are those of the chunks to come. */
  ghost predicate Ahead(starts: set<nat>, entire: bool, chunks: seq<Bytes>, n: nat) {
    forall p: nat :: p >= n ==> (p in starts <==> p in StartsFrom(entire, chunks, n))
  }

  // ---------- One chunk ----------

  lemma Continuing(c: Bytes, o: nat)
    requires IsChar(c) && 0 < o < |c|
    ensures Continues(c[o])
  {
    assert Fits(c, o);
  }

  /** A whole chunk that begins with a mark begins with the character. */
  lemma MarkIsChar(chars: seq<Bytes>, o: nat, chunks: seq<Bytes>)
    requires Pending(chars, o, chunks) && chunks != [] && Marked(chunks[0])
    ensures o == 0 && chars != [] && chars[0] == MARK
  {
    StartsWithChar(chars, o, chunks);
    var c, chunk := chars[0], chunks[0];
    assert IsChar(c);
    PendingParts(chars, o, chunks);
    var all := c[o..] + Concat(chars[1..]);
    assert all[0] == c[o] && all[0] == chunk[0];
    if o > 0 {
      Continuing(c, o);
    } else {
      assert c[1] == all[1] && c[2] == all[2] && all[1] == chunk[1] && all[2] == chunk[2];
    }
  }

  lemma AheadRest(starts: set<nat>, entire: bool, chunks: seq<Bytes>, n: nat)
    requires Ahead(starts, entire, chunks, n) && chunks != [] && (chunks[0] != [] || !Marked(chunks[0]))
    ensures Ahead(starts, true, chunks[1..], n + |chunks[0]|)
  {
    StartsTrue(chunks[1..], n + |chunks[0]|);
  }

  lemma StartsTrue(chunks: seq<Bytes>, n: nat)
    ensures StartsFrom(true, chunks, n) == Starts(chunks, n) && StripFrom(true, chunks) == Strip(chunks)
  {
  }

  /** The same after the first `k` bytes of a chunk. */
  lemma AheadTrimmed(starts: set<nat>, entire: bool, chunks: seq<Bytes>, n: nat, k: nat)
    requires Ahead(starts, entire, chunks, n) && chunks != [] && 0 < k <= |chunks[0]|
    ensures Ahead(starts, false, Trimmed(chunks, k), n + k)
    ensures entire && Marked(chunks[0]) <==> n in starts
  {
    var trimmed := Trimmed(chunks, k);
    assert trimmed[1..] == chunks[1..];
    StartsAbove(chunks[1..], n + |chunks[0]|);
  }

  lemma WholeTrimAt(chars: seq<Bytes>, o: nat, chunk: Bytes, y: Bytes, more: seq<Bytes>)
    requires chars != [] && o < |chars[0]| <= o + |chunk| && |y| == o + |chunk| - |chars[0]|
    ensures WholeChars(chars, o, [chunk] + more) <==> WholeChars(chars[1..], 0, [y] + more)
  {
    assert ([chunk] + more)[1..] == more;
    WholeCons(chars[1..], y, more);
    WholePeeled(chars, o + |chunk|, more);
    BoundaryPeeled(chars, o + |chunk|);
  }

  lemma CutIsNotWhole(chars: seq<Bytes>, o: nat, chunks: seq<Bytes>)
    requires chars != [] && chunks != [] && 0 < o + |chunks[0]| < |chars[0]|
    ensures !WholeChars(chars, o, chunks)
  {
  }

  // ---------- The whole stream ----------

  /** The remaining characters, the first one included when it has been begun. */
  function Rest(chars: seq<Bytes>, m: nat, o: nat, starts: set<nat>): seq<Bytes> {
    if o == 0 then Remaining(chars, m, starts)
    else if chars == [] then []
    else [chars[0]] + Remaining(chars[1..], m + |chars[0]|, starts)
  }

  /** What is left of the chunks is a cutting of the characters that remain, and it
      cuts one of them exactly if the chunks cut one. */
  ghost predicate Stripped(chars: seq<Bytes>, m: nat, o: nat, chunks: seq<Bytes>, entire: bool, starts: set<nat>) {
    var rest, left := Rest(chars, m, o, starts), StripFrom(entire, chunks);
    && o <= |Concat(rest)| && Concat(rest)[o..] == Concat(left)
    && (WholeChars(chars, o, chunks) <==> WholeChars(rest, o, left))
    && (o == 0 ==> OnlyMarks(chars, m, starts))
    && (o > 0 ==> chars != [] && OnlyMarks(chars[1..], m + |chars[0]|, starts))
    && (|rest| == |chars| ==> StartsFrom(entire, chunks, m + o) == {})
  }

  lemma {:induction false} StripStream(chars: seq<Bytes>, m: nat, o: nat, chunks: seq<Bytes>, entire: bool, starts: set<nat>)
    requires Pending(chars, o, chunks) && Ahead(starts, entire, chunks, m + o)
    ensures Stripped(chars, m, o, chunks, entire, starts)
    decreases |chunks| + |chars|, 1
  {
    if chunks == [] {
      NothingLeft(chars, o);
      NothingStripped(m, entire, starts);
    } else if chunks[0] == [] {
      StripEmpty(chars, m, o, chunks, entire, starts);
    } else {
      StartsWithChar(chars, o, chunks);
      if entire && Marked(chunks[0]) {
        MarkIsChar(chars, o, chunks);
        StripMark(chars, m, chunks, starts);
      } else if o + |chunks[0]| < |chars[0]| {
        StripInside(chars, m, o, chunks, entire, starts);
      } else {
        StripBehind(chars, m, o, chunks, entire, starts);
      }
    }
  }

  lemma NothingStripped(m: nat, entire: bool, starts: set<nat>)
    ensures Stripped([], m, 0, [], entire, starts)
  {
  }

  lemma {:induction false} StripEmpty(chars: seq<Bytes>, m: nat, o: nat, chunks: seq<Bytes>, entire: bool, starts: set<nat>)
    requires Pending(chars, o, chunks) && Ahead(starts, entire, chunks, m + o) && chunks != [] && chunks[0] == []
    ensures Stripped(chars, m, o, chunks, entire, starts)
    decreases |chunks| + |chars|, 0
  {
    EmptyStripped(chars, m, o, chunks, entire, starts);
    StripStream(chars, m, o, chunks[1..], true, starts);
    EmptyBack(chars, m, o, chunks, entire, starts);
  }

  lemma {:induction false} StripMark(chars: seq<Bytes>, m: nat, chunks: seq<Bytes>, starts: set<nat>)
    requires Pending(chars, 0, chunks) && Ahead(starts, true, chunks, m)
    requires chars != [] && chars[0] == MARK && chunks != [] && Marked(chunks[0])
    ensures Stripped(chars, m, 0, chunks, true, starts)
    decreases |chunks| + |chars|, 0
  {
    MarkDropped(chars, m, chunks, starts);
    StripStream(chars[1..], m + 3, 0, Trimmed(chunks, 3), false, starts);
    MarkBack(chars, m, chunks, starts);
  }

  lemma {:induction false} StripInside(chars: seq<Bytes>, m: nat, o: nat, chunks: seq<Bytes>, entire: bool, starts: set<nat>)
    requires Pending(chars, o, chunks) && Ahead(starts, entire, chunks, m + o)
    requires chars != [] && chunks != [] && chunks[0] != [] && o + |chunks[0]| < |chars[0]|
    requires !(entire && Marked(chunks[0]))
    ensures Stripped(chars, m, o, chunks, entire, starts)
    decreases |chunks| + |chars|, 0
  {
    StillPending(chars, o, chunks);
    AheadRest(starts, entire, chunks, m + o);
    StripStream(chars, m, o + |chunks[0]|, chunks[1..], true, starts);
    InsideBack(chars, m, o, chunks, entire, starts);
  }

  lemma {:induction false} StripBehind(chars: seq<Bytes>, m: nat, o: nat, chunks: seq<Bytes>, entire: bool, starts: set<nat>)
    requires Pending(chars, o, chunks) && Ahead(starts, entire, chunks, m + o)
    requires chars != [] && chunks != [] && o < |chars[0]| <= o + |chunks[0]| && !(entire && Marked(chunks[0]))
    ensures Stripped(chars, m, o, chunks, entire, starts)
    decreases |chunks| + |chars|, 0
  {
    TrimmedPending(chars, o, chunks);
    AheadTrimmed(starts, entire, chunks, m + o, |chars[0]| - o);
    StripStream(chars[1..], m + |chars[0]|, 0, Trimmed(chunks, |chars[0]| - o), false, starts);
    BehindBack(chars, m, o, chunks, entire, starts);
  }

  lemma EmptyStripped(chars: seq<Bytes>, m: nat, o: nat, chunks: seq<Bytes>, entire: bool, starts: set<nat>)
    requires Pending(chars, o, chunks) && Ahead(starts, entire, chunks, m + o) && chunks != [] && chunks[0] == []
    ensures Pending(chars, o, chunks[1..]) && Ahead(starts, true, chunks[1..], m + o)
  {
    EmptyChunk(chars, o, chunks);
    AheadRest(starts, entire, chunks, m + o);
  }

  lemma EmptyBack(chars: seq<Bytes>, m: nat, o: nat, chunks: seq<Bytes>, entire: bool, starts: set<nat>)
    requires Pending(chars, o, chunks) && chunks != [] && chunks[0] == []
    requires Stripped(chars, m, o, chunks[1..], true, starts)
    ensures Stripped(chars, m, o, chunks, entire, starts)
  {
    var rest, left := Rest(chars, m, o, starts), Strip(chunks[1..]);
    StartsTrue(chunks[1..], m + o);
    assert StripFrom(entire, chunks) == [[]] + left && ([[]] + left)[1..] == left;
    assert [] + Concat(left) == Concat(left);
    assert CharBoundary(chars, o) <==> CharBoundary(rest, o);
  }

  lemma MarkDropped(chars: seq<Bytes>, m: nat, chunks: seq<Bytes>, starts: set<nat>)
    requires Pending(chars, 0, chunks) && Ahead(starts, true, chunks, m)
    requires chars != [] && chars[0] == MARK && chunks != [] && Marked(chunks[0])
    ensures Pending(chars[1..], 0, Trimmed(chunks, 3)) && Ahead(starts, false, Trimmed(chunks, 3), m + 3) && m in starts
  {
    TrimmedPending(chars, 0, chunks);
    AheadTrimmed(starts, true, chunks, m, 3);
  }

  lemma MarkBack(chars: seq<Bytes>, m: nat, chunks: seq<Bytes>, starts: set<nat>)
    requires AllChars(chars) && chars != [] && chars[0] == MARK && chunks != [] && Marked(chunks[0]) && m in starts
    requires Stripped(chars[1..], m + 3, 0, Trimmed(chunks, 3), false, starts)
    ensures Stripped(chars, m, 0, chunks, true, starts)
  {
    var trimmed := Trimmed(chunks, 3);
    assert trimmed[1..] == chunks[1..] && trimmed[0] == chunks[0][3..];
    assert StripFrom(true, chunks) == StripFrom(false, trimmed);
    assert Rest(chars, m, 0, starts) == Rest(chars[1..], m + 3, 0, starts) by {
      assert [] + Remaining(chars[1..], m + 3, starts) == Remaining(chars[1..], m + 3, starts);
    }
    TrimmedWhole(chars, chunks);
    FewerRemain(chars[1..], m + 3, starts);
  }

  /** The chunk ends inside the first character. */
  lemma InsideBack(chars: seq<Bytes>, m: nat, o: nat, chunks: seq<Bytes>, entire: bool, starts: set<nat>)
    requires Pending(chars, o, chunks) && Ahead(starts, entire, chunks, m + o)
    requires chars != [] && chunks != [] && chunks[0] != [] && o + |chunks[0]| < |chars[0]|
    requires !(entire && Marked(chunks[0]))
    requires Stripped(chars, m, o + |chunks[0]|, chunks[1..], true, starts)
    ensures Stripped(chars, m, o, chunks, entire, starts)
  {
    var c, chunk, left := chars[0], chunks[0], Strip(chunks[1..]);
    var rest := Rest(chars, m, o + |chunk|, starts);
    StartsTrue(chunks[1..], m + o + |chunk|);
    AheadTrimmed(starts, entire, chunks, m + o, |chunk|);
    assert Rest(chars, m, o, starts) == rest;
    assert StripFrom(entire, chunks) == [chunk] + left && ([chunk] + left)[1..] == left;
    PendingParts(chars, o, chunks);
    Overlap(c[o..], Concat(chars[1..]), chunk, Concat(chunks[1..]));
    RestBegins(c, Remaining(chars[1..], m + |c|, starts), o, chunk);
    CutIsNotWhole(chars, o, chunks);
    CutIsNotWhole(rest, o, [chunk] + left);
  }

  lemma RestBegins(c: Bytes, others: seq<Bytes>, o: nat, chunk: Bytes)
    requires o + |chunk| < |c| && chunk == c[o..][..|chunk|]
    ensures var all := Concat([c] + others);
            o + |chunk| <= |all| && all[o..] == chunk + all[o + |chunk|..]
  {
    assert ([c] + others)[1..] == others;
    var all := c + Concat(others);
    assert all[o..o + |chunk|] == chunk;
    assert all[o..] == all[o..o + |chunk|] + all[o + |chunk|..];
  }

  /** The chunk reaches the end of the first character. */
  lemma BehindBack(chars: seq<Bytes>, m: nat, o: nat, chunks: seq<Bytes>, entire: bool, starts: set<nat>)
    requires Pending(chars, o, chunks) && Ahead(starts, entire, chunks, m + o)
    requires chars != [] && chunks != [] && o < |chars[0]| <= o + |chunks[0]| && !(entire && Marked(chunks[0]))
    requires Stripped(chars[1..], m + |chars[0]|, 0, Trimmed(chunks, |chars[0]| - o), false, starts)
    ensures Stripped(chars, m, o, chunks, entire, starts)
  {
    var c, chunk, left := chars[0], chunks[0], Strip(chunks[1..]);
    var trimmed := Trimmed(chunks, |c| - o);
    var y, others := chunk[|c| - o..], Remaining(chars[1..], m + |c|, starts);
    assert trimmed[1..] == chunks[1..];
    AheadTrimmed(starts, entire, chunks, m + o, |c| - o);
    TrimmedPending(chars, o, chunks);
    assert StripFrom(entire, chunks) == [chunk] + left && StripFrom(false, trimmed) == [y] + left;
    assert Rest(chars, m, o, starts) == [c] + others;
    WholeTrimAt(chars, o, chunk, y, chunks[1..]);
    assert chunks == [chunk] + chunks[1..] && trimmed == [y] + chunks[1..];
    assert ([c] + others)[1..] == others;
    WholeTrimAt([c] + others, o, chunk, y, left);
    RestContinues(c, others, o, chunk, y, left);
  }

  lemma RestContinues(c: Bytes, others: seq<Bytes>, o: nat, chunk: Bytes, y: Bytes, left: seq<Bytes>)
    requires o < |c| <= o + |chunk| && chunk[..|c| - o] == c[o..] && y == chunk[|c| - o..]
    requires Concat(others) == Concat([y] + left)
    ensures o <= |Concat([c] + others)| && Concat([c] + others)[o..] == Concat([chunk] + left)
  {
    assert ([c] + others)[1..] == others && ([y] + left)[1..] == left && ([chunk] + left)[1..] == left;
    assert (c + Concat(others))[o..] == c[o..] + Concat(others);
    assert chunk == c[o..] + y;
    Associative(c[o..], y, Concat(left));
  }

  /** The characters that no chunk drops as its mark. */
  function Left(chars: seq<Bytes>, chunks: seq<Bytes>): seq<Bytes> {
    Remaining(chars, 0, Starts(chunks, 0))
  }

  lemma {:induction false} AllRemain(chars: seq<Bytes>, m: nat)
    ensures Remaining(chars, m, {}) == chars
    decreases |chars|
  {
    if chars != [] {
      AllRemain(chars[1..], m + |chars[0]|);
      assert chars == [chars[0]] + chars[1..];
    }
  }

  /** A stream cut into chunks, marks included: decoding the chunks one by one
      gives what may come out of each character that is not dropped as a mark; all
      of them come out if and only if no chunk ends inside a character; and none is
      dropped if and only if no chunk begins with a mark. */
  lemma CutWithMarks(chars: seq<Bytes>, chunks: seq<Bytes>) returns (outs: seq<Text>)
    requires AllChars(chars) && Concat(chunks) == Concat(chars)
    ensures Concat(DecodeChunks(chunks)) == Concat(outs) && AllChars(Left(chars, chunks))
    ensures Outs(Left(chars, chunks), outs) && (WholeChars(chars, 0, chunks) <==> Intact(Left(chars, chunks), outs))
    ensures OnlyMarks(chars, 0, Starts(chunks, 0))
    ensures Left(chars, chunks) == chars <==> NoMarks(chunks)
    ensures |Left(chars, chunks)| == |chars| ==> NoMarks(chunks)
  {
    var starts := Starts(chunks, 0);
    StartsTrue(chunks, 0);
    StripStream(chars, 0, 0, chunks, true, starts);
    StripDecodes(chunks);
    FewerRemain(chars, 0, starts);
    NoStarts(chunks, 0);
    if NoMarks(chunks) { AllRemain(chars, 0); }
    outs := CutStream(Left(chars, chunks), 0, Strip(chunks));
  }
}
