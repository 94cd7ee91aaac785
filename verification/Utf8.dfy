/** Text as the permissions server sees it: bytes decoded chunk by chunk into
    UTF-16 code units, each chunk by a decoder of its own. */
module Utf8 {
  import opened Common

  type Byte = n: int | 0 <= n < 0x100
  type Unit = n: int | 0 <= n < 0x1_0000
  type Bytes = seq<Byte>
  type Text = seq<Unit>

  /** What malformed bytes are decoded to. */
  const REPLACEMENT: Unit := 0xFFFD

  // ---------- One character ----------

  /** How many continuation bytes a first byte asks for; none for a byte that
      cannot begin a longer character. */
  function Needs(lead: Byte): nat {
    if 0xC2 <= lead <= 0xDF then 1
    else if 0xE0 <= lead <= 0xEF then 2
    else if 0xF0 <= lead <= 0xF4 then 3
    else 0
  }

  predicate Continues(b: Byte) { 0x80 <= b <= 0xBF }

  /** The second byte is bounded further: no overlong forms, no surrogates, no
      more than U+10FFFF. */
  predicate Seconds(lead: Byte, b: Byte) {
    && Continues(b)
    && (lead == 0xE0 ==> b >= 0xA0) && (lead == 0xED ==> b <= 0x9F)
    && (lead == 0xF0 ==> b >= 0x90) && (lead == 0xF4 ==> b <= 0x8F)
  }

  /** Byte `k` may follow the `k` before it. */
  predicate Fits(b: Bytes, k: nat)
    requires 0 < k < |b|
  {
    if k == 1 then Seconds(b[0], b[1]) else Continues(b[k])
  }

  /** How many bytes, up to the needed ones, belong to the character that begins here. */
  function Reach(b: Bytes, k: nat): (n: nat)
    requires b != [] && 0 < k <= |b|
    ensures k <= n <= |b|
    decreases |b| - k
  {
    if k < |b| && k <= Needs(b[0]) && Fits(b, k) then Reach(b, k + 1) else k
  }

  /** A well-formed character, byte for byte. */
  predicate IsChar(b: Bytes) {
    b != [] && (b[0] < 0x80 || Needs(b[0]) > 0) && |b| == 1 + Needs(b[0])
    && forall k :: 0 < k < |b| ==> Fits(b, k)
  }

  /** Its code units: one, or a surrogate pair. */
  function Units(b: Bytes): (u: Text)
    requires IsChar(b)
    ensures |u| == if |b| == 4 then 2 else 1
  {
    if |b| == 1 then [b[0]]
    else if |b| == 2 then [64 * Low(b[0], 0xC0) + Low(b[1], 0x80)]
    else if |b| == 3 then
      assert Fits(b, 1) && Fits(b, 2);
      [4096 * Low(b[0], 0xE0) + 64 * Low(b[1], 0x80) + Low(b[2], 0x80)]
    else
      assert Fits(b, 1) && Fits(b, 2) && Fits(b, 3);
      var c := 262144 * Low(b[0], 0xF0) + 4096 * Low(b[1], 0x80) + 64 * Low(b[2], 0x80) + Low(b[3], 0x80) - 0x1_0000;
      [0xD800 + c / 0x400, 0xDC00 + c % 0x400]
  }

  function Low(b: Byte, base: int): int { b - base }

  // ---------- Decoding ----------

  /** Malformed bytes give one replacement per longest well-formed beginning. */
  function Decode(b: Bytes): Text
    decreases |b|
  {
    if b == [] then []
    else
      var n := Reach(b, 1);
      (if IsChar(b[..n]) then Units(b[..n]) else [REPLACEMENT]) + Decode(b[n..])
  }

  predicate Marked(b: Bytes) {
    |b| >= 3 && b[0] == 0xEF && b[1] == 0xBB && b[2] == 0xBF
  }

  /** One chunk by a fresh decoder: a byte order mark at its start is dropped. */
  function DecodeChunk(b: Bytes): Text {
    if Marked(b) then Decode(b[3..]) else Decode(b)
  }

  function DecodeChunks(chunks: seq<Bytes>): seq<Text> {
    if chunks == [] then [] else [DecodeChunk(chunks[0])] + DecodeChunks(chunks[1..])
  }

  function Concat<T>(parts: seq<seq<T>>): seq<T> {
    if parts == [] then [] else parts[0] + Concat(parts[1..])
  }

  lemma {:induction false} ReachesAll(b: Bytes, k: nat, n: nat)
    requires b != [] && 0 < k <= n <= |b| && n <= 1 + Needs(b[0])
    requires forall j :: k <= j < n ==> Fits(b, j)
    requires n == |b| || n == 1 + Needs(b[0])
    ensures Reach(b, k) == n
    decreases n - k
  {
    if k < n { ReachesAll(b, k + 1, n); }
  }

  /** A character in front is decoded by itself. */
  lemma DecodeWhole(c: Bytes, rest: Bytes)
    requires IsChar(c)
    ensures Decode(c + rest) == Units(c) + Decode(rest)
  {
    var b := c + rest;
    forall j | 0 < j < |c| ensures Fits(b, j) { assert Fits(c, j); }
    ReachesAll(b, 1, |c|);
    assert b[..|c|] == c && b[|c|..] == rest;
  }

  /** The beginning of a character gives one replacement. */
  lemma DecodeCut(c: Bytes, n: nat)
    requires IsChar(c) && 0 < n < |c|
    ensures Decode(c[..n]) == [REPLACEMENT]
  {
    var b := c[..n];
    forall j | 0 < j < n ensures Fits(b, j) { assert Fits(c, j); }
    ReachesAll(b, 1, n);
    assert b[..n] == b && b[n..] == [];
  }

  function Replacements(n: nat): Text { seq(n, _ => REPLACEMENT) }

  /** Continuation bytes without a beginning give one replacement each. */
  lemma {:induction false} DecodeStray(stray: Bytes, rest: Bytes)
    requires forall b <- stray :: Continues(b)
    ensures Decode(stray + rest) == Replacements(|stray|) + Decode(rest)
    decreases |stray|
  {
    if stray == [] {
      assert stray + rest == rest;
    } else {
      assert stray + rest == [stray[0]] + (stray[1..] + rest);
      DecodeOneStray(stray[0], stray[1..] + rest);
      DecodeStray(stray[1..], rest);
      assert Replacements(|stray|) == [REPLACEMENT] + Replacements(|stray| - 1);
      Associative([REPLACEMENT], Replacements(|stray| - 1), Decode(rest));
    }
  }

  lemma DecodeOneStray(b: Byte, rest: Bytes)
    requires Continues(b)
    ensures Decode([b] + rest) == [REPLACEMENT] + Decode(rest)
  {
    var all := [b] + rest;
    assert Reach(all, 1) == 1 && all[..1] == [b] && all[1..] == rest;
  }

  // ---------- Cuts ----------

  /** Position `n` of the stream lies between two characters. */
  predicate CharBoundary(chars: seq<Bytes>, n: nat) {
    n == 0 || (chars != [] && |chars[0]| <= n && CharBoundary(chars[1..], n - |chars[0]|))
  }

  /** No chunk ends inside a character; `n` bytes came before. */
  predicate WholeChars(chars: seq<Bytes>, n: nat, chunks: seq<Bytes>)
    decreases |chunks|
  {
    chunks == []
    || (CharBoundary(chars, n + |chunks[0]|) && WholeChars(chars, n + |chunks[0]|, chunks[1..]))
  }

  lemma {:induction false} WholePeeled(chars: seq<Bytes>, n: nat, chunks: seq<Bytes>)
    requires chars != [] && chars[0] != [] && |chars[0]| <= n
    ensures WholeChars(chars, n, chunks) <==> WholeChars(chars[1..], n - |chars[0]|, chunks)
    decreases |chunks|
  {
    if chunks != [] { WholePeeled(chars, n + |chunks[0]|, chunks[1..]); }
  }

  /** No chunk begins with a byte order mark. */
  predicate NoMarks(chunks: seq<Bytes>) {
    forall c <- chunks :: !Marked(c)
  }

  function DecodeEach(chunks: seq<Bytes>): seq<Text> {
    if chunks == [] then [] else [Decode(chunks[0])] + DecodeEach(chunks[1..])
  }

  lemma {:induction false} UnmarkedChunks(chunks: seq<Bytes>)
    requires NoMarks(chunks)
    ensures DecodeChunks(chunks) == DecodeEach(chunks)
  {
    if chunks != [] { UnmarkedChunks(chunks[1..]); }
  }

  predicate AllReplaced(u: Text) {
    forall c <- u :: c == REPLACEMENT
  }

  /** What comes out of a character that was cut. */
  predicate Garbled(u: Text) { |u| >= 2 && AllReplaced(u) }

  predicate AllChars(chars: seq<Bytes>) {
    forall c <- chars :: IsChar(c)
  }

  /** What may come out of each character. */
  predicate Outs(chars: seq<Bytes>, outs: seq<Text>) {
    |outs| == |chars|
    && forall i :: 0 <= i < |chars| ==> MayGive(chars[i], outs[i])
  }

  /** Itself, or garbled text for a character that can be cut. */
  predicate MayGive(c: Bytes, out: Text) {
    IsChar(c) && (out == Units(c) || (|c| > 1 && Garbled(out)))
  }

  /** Nothing was garbled. */
  predicate Intact(chars: seq<Bytes>, outs: seq<Text>) {
    |outs| == |chars| && forall i :: 0 <= i < |chars| ==> IsChar(chars[i]) && outs[i] == Units(chars[i])
  }

  /** The first character was cut `o` bytes in, and its rest is still to come. */
  predicate Pending(chars: seq<Bytes>, o: nat, chunks: seq<Bytes>) {
    && AllChars(chars) && (o > 0 ==> chars != [] && o < |chars[0]|)
    && o <= |Concat(chars)| && Concat(chars)[o..] == Concat(chunks)
  }

  lemma {:induction false} CharRest(c: Bytes, o: nat)
    requires IsChar(c) && 0 < o <= |c|
    ensures forall b <- c[o..] :: Continues(b)
  {
    forall k | o <= k < |c| ensures Continues(c[k]) { assert Fits(c, k); }
  }

  /** The rest of a cut character, then whole characters and cut ones: decoding the
      chunks one by one gives, in order, what may come out of each. */
  lemma {:induction false} CutStream(chars: seq<Bytes>, o: nat, chunks: seq<Bytes>) returns (outs: seq<Text>)
    requires Pending(chars, o, chunks)
    ensures Concat(DecodeEach(chunks)) == Concat(outs)
    ensures o == 0 ==> Outs(chars, outs) && (WholeChars(chars, 0, chunks) <==> Intact(chars, outs))
    ensures o > 0 ==> outs != [] && outs[0] != [] && AllReplaced(outs[0]) && Outs(chars[1..], outs[1..])
    decreases |chunks| + |chars|, 1
  {
    if chunks == [] {
      NothingLeft(chars, o);
      outs := [];
    } else if chunks[0] == [] {
      EmptyChunk(chars, o, chunks);
      outs := CutStream(chars, o, chunks[1..]);
    } else {
      StartsWithChar(chars, o, chunks);
      var c, chunk := chars[0], chunks[0];
      var left := |c| - o;
      if |chunk| < left {
        outs := CutInside(chars, o, chunks);
      } else {
        outs := CutBehind(chars, o, chunks);
      }
    }
  }

  lemma Overlap(a: Bytes, more: Bytes, b: Bytes, rest: Bytes)
    requires a + more == b + rest && |b| <= |a|
    ensures b == a[..|b|] && a[|b|..] + more == rest
  {
    var whole := a + more;
    assert whole[..|b|] == b && whole[|b|..] == rest;
    assert whole[..|b|] == a[..|b|] && whole[|b|..] == a[|b|..] + more;
  }

  /** The stream from inside its first character on. */
  lemma PendingParts(chars: seq<Bytes>, o: nat, chunks: seq<Bytes>)
    requires Pending(chars, o, chunks) && chars != [] && chunks != [] && o <= |chars[0]|
    ensures chars[0][o..] + Concat(chars[1..]) == chunks[0] + Concat(chunks[1..])
  {
    assert (chars[0] + Concat(chars[1..]))[o..] == chars[0][o..] + Concat(chars[1..]);
  }

  lemma NothingLeft(chars: seq<Bytes>, o: nat)
    requires Pending(chars, o, [])
    ensures chars == []
  {
    if chars != [] { FirstIsThere(chars); }
  }

  lemma FirstIsThere(chars: seq<Bytes>)
    requires chars != [] && AllChars(chars)
    ensures |Concat(chars)| >= |chars[0]| > 0
  {
    assert IsChar(chars[0]);
  }

  lemma EmptyChunk(chars: seq<Bytes>, o: nat, chunks: seq<Bytes>)
    requires Pending(chars, o, chunks) && chunks != [] && chunks[0] == []
    ensures Pending(chars, o, chunks[1..])
    ensures Concat(DecodeEach(chunks)) == Concat(DecodeEach(chunks[1..]))
    ensures o == 0 ==> (WholeChars(chars, 0, chunks) <==> WholeChars(chars, 0, chunks[1..]))
  {
    assert [] + Concat(chunks[1..]) == Concat(chunks[1..]);
    DecodeEachFirst(chunks);
    assert [] + Concat(DecodeEach(chunks[1..])) == Concat(DecodeEach(chunks[1..]));
  }

  lemma DecodeEachFirst(chunks: seq<Bytes>)
    requires chunks != []
    ensures Concat(DecodeEach(chunks)) == Decode(chunks[0]) + Concat(DecodeEach(chunks[1..]))
  {
    assert DecodeEach(chunks)[1..] == DecodeEach(chunks[1..]);
  }

  lemma StartsWithChar(chars: seq<Bytes>, o: nat, chunks: seq<Bytes>)
    requires Pending(chars, o, chunks) && chunks != [] && chunks[0] != []
    ensures chars != [] && o < |chars[0]|
  {
    if chars != [] { assert IsChar(chars[0]); }
  }

  lemma UnitsNotGarbled(c: Bytes)
    requires IsChar(c)
    ensures !Garbled(Units(c))
  {
    if |c| == 4 {
      assert Fits(c, 1) && Fits(c, 2) && Fits(c, 3);
      assert Units(c)[0] != REPLACEMENT;
      assert Units(c)[0] in Units(c);
    }
  }

  lemma ReplacedConcat(a: Text, b: Text)
    requires AllReplaced(a) && AllReplaced(b)
    ensures AllReplaced(a + b)
  {
  }

  lemma JoinFirst(a: Text, outs: seq<Text>)
    requires outs != []
    ensures Concat([a + outs[0]] + outs[1..]) == a + Concat(outs)
  {
    assert ([a + outs[0]] + outs[1..])[1..] == outs[1..];
  }

  /** The chunk ends inside the first character. */
  lemma {:induction false} CutInside(chars: seq<Bytes>, o: nat, chunks: seq<Bytes>) returns (outs: seq<Text>)
    requires Pending(chars, o, chunks) && chars != [] && chunks != [] && chunks[0] != [] && o + |chunks[0]| < |chars[0]|
    ensures Concat(DecodeEach(chunks)) == Concat(outs)
    ensures o == 0 ==> Outs(chars, outs) && !WholeChars(chars, 0, chunks) && !Intact(chars, outs)
    ensures o > 0 ==> outs != [] && outs[0] != [] && AllReplaced(outs[0]) && Outs(chars[1..], outs[1..])
    decreases |chunks| + |chars|, 0
  {
    var c, chunk := chars[0], chunks[0];
    PendingParts(chars, o, chunks);
    Overlap(c[o..], Concat(chars[1..]), chunk, Concat(chunks[1..]));
    StillPending(chars, o, chunks);
    var later := CutStream(chars, o + |chunk|, chunks[1..]);
    var first := Decode(chunk);
    FirstPiece(c, o, chunk);
    outs := [first + later[0]] + later[1..];
    assert outs[1..] == later[1..];
    ReplacedConcat(first, later[0]);
    JoinFirst(first, later);
    DecodeEachFirst(chunks);
    UnitsNotGarbled(c);
    if o == 0 { OutsFirst(chars, outs); }
  }

  lemma OutsFirst(chars: seq<Bytes>, outs: seq<Text>)
    requires chars != [] && outs != [] && IsChar(chars[0]) && Outs(chars[1..], outs[1..])
    requires MayGive(chars[0], outs[0])
    ensures Outs(chars, outs)
    ensures Intact(chars, outs) <==> outs[0] == Units(chars[0]) && Intact(chars[1..], outs[1..])
  {
    forall i | 0 <= i < |chars| ensures MayGive(chars[i], outs[i]) {
      if i > 0 { assert chars[1..][i - 1] == chars[i] && outs[1..][i - 1] == outs[i]; }
    }
    if Intact(chars, outs) {
      forall i | 0 <= i < |chars[1..]| ensures outs[1..][i] == Units(chars[1..][i]) {
        assert chars[1..][i] == chars[i + 1] && outs[1..][i] == outs[i + 1];
      }
    }
    if outs[0] == Units(chars[0]) && Intact(chars[1..], outs[1..]) {
      forall i | 0 <= i < |chars| ensures IsChar(chars[i]) && outs[i] == Units(chars[i]) {
        if i > 0 { assert chars[1..][i - 1] == chars[i] && outs[1..][i - 1] == outs[i]; }
      }
    }
  }

  lemma StillPending(chars: seq<Bytes>, o: nat, chunks: seq<Bytes>)
    requires Pending(chars, o, chunks) && chars != [] && chunks != [] && chunks[0] != [] && o + |chunks[0]| < |chars[0]|
    ensures Pending(chars, o + |chunks[0]|, chunks[1..])
  {
    var all, chunk := Concat(chars), chunks[0];
    assert all[o..][|chunk|..] == all[o + |chunk|..];
    assert (chunk + Concat(chunks[1..]))[|chunk|..] == Concat(chunks[1..]);
  }

  lemma FirstPiece(c: Bytes, o: nat, chunk: Bytes)
    requires IsChar(c) && chunk != [] && o + |chunk| < |c| && chunk == c[o..][..|chunk|]
    ensures Decode(chunk) != [] && AllReplaced(Decode(chunk))
  {
    if o == 0 {
      assert chunk == c[..|chunk|];
      DecodeCut(c, |chunk|);
    } else {
      CharRest(c, o);
      assert forall b <- chunk :: b in c[o..];
      DecodeStray(chunk, []);
      assert chunk + [] == chunk;
    }
  }

  /** The chunk reaches the end of the first character. */
  lemma {:induction false} CutBehind(chars: seq<Bytes>, o: nat, chunks: seq<Bytes>) returns (outs: seq<Text>)
    requires Pending(chars, o, chunks) && chars != [] && chunks != [] && o < |chars[0]| <= o + |chunks[0]|
    ensures Concat(DecodeEach(chunks)) == Concat(outs)
    ensures o == 0 ==> Outs(chars, outs) && (WholeChars(chars, 0, chunks) <==> Intact(chars, outs))
    ensures o > 0 ==> outs != [] && outs[0] != [] && AllReplaced(outs[0]) && Outs(chars[1..], outs[1..])
    decreases |chunks| + |chars|, 0
  {
    var c, trimmed := chars[0], Trimmed(chunks, |chars[0]| - o);
    var first := if o == 0 then Units(c) else Replacements(|c| - o);
    TrimmedPending(chars, o, chunks);
    var later := CutStream(chars[1..], 0, trimmed);
    outs := [first] + later;
    assert outs[1..] == later;
    TrimmedDecode(chars, o, chunks, first);
    if o == 0 {
      OutsFirst(chars, outs);
      TrimmedWhole(chars, chunks);
    }
  }

  /** The chunks without their first `n` bytes. */
  function Trimmed(chunks: seq<Bytes>, n: nat): seq<Bytes>
    requires chunks != [] && n <= |chunks[0]|
  {
    [chunks[0][n..]] + chunks[1..]
  }

  lemma TrimmedPending(chars: seq<Bytes>, o: nat, chunks: seq<Bytes>)
    requires Pending(chars, o, chunks) && chars != [] && chunks != [] && o < |chars[0]| <= o + |chunks[0]|
    ensures Pending(chars[1..], 0, Trimmed(chunks, |chars[0]| - o))
    ensures chunks[0][..|chars[0]| - o] == chars[0][o..]
  {
    var c, chunk := chars[0], chunks[0];
    PendingParts(chars, o, chunks);
    Overlap(chunk, Concat(chunks[1..]), c[o..], Concat(chars[1..]));
    assert Trimmed(chunks, |c| - o)[1..] == chunks[1..];
    assert Concat(chars[1..])[0..] == Concat(chars[1..]);
  }

  lemma TrimmedDecode(chars: seq<Bytes>, o: nat, chunks: seq<Bytes>, first: Text)
    requires Pending(chars, o, chunks) && chars != [] && chunks != [] && o < |chars[0]| <= o + |chunks[0]|
    requires first == if o == 0 then Units(chars[0]) else Replacements(|chars[0]| - o)
    ensures Concat(DecodeEach(chunks)) == first + Concat(DecodeEach(Trimmed(chunks, |chars[0]| - o)))
  {
    var trimmed := Trimmed(chunks, |chars[0]| - o);
    TrimmedPending(chars, o, chunks);
    FrontDecoded(chars[0], o, chunks[0], trimmed[0]);
    DecodeEachFirst(chunks);
    DecodeEachCons(trimmed[0], chunks[1..]);
    Associative(first, Decode(trimmed[0]), Concat(DecodeEach(chunks[1..])));
  }

  lemma DecodeEachCons(chunk: Bytes, chunks: seq<Bytes>)
    ensures Concat(DecodeEach([chunk] + chunks)) == Decode(chunk) + Concat(DecodeEach(chunks))
  {
    DecodeEachFirst([chunk] + chunks);
    assert ([chunk] + chunks)[1..] == chunks;
  }

  lemma Associative<T>(a: seq<T>, b: seq<T>, c: seq<T>)
    ensures a + (b + c) == a + b + c
  {
  }

  lemma WholeCons(chars: seq<Bytes>, chunk: Bytes, chunks: seq<Bytes>)
    ensures WholeChars(chars, 0, [chunk] + chunks) <==> CharBoundary(chars, |chunk|) && WholeChars(chars, |chunk|, chunks)
  {
    assert ([chunk] + chunks)[1..] == chunks;
  }

  lemma TrimmedWhole(chars: seq<Bytes>, chunks: seq<Bytes>)
    requires chars != [] && chunks != [] && 0 < |chars[0]| <= |chunks[0]|
    ensures WholeChars(chars, 0, chunks) <==> WholeChars(chars[1..], 0, Trimmed(chunks, |chars[0]|))
  {
    assert chunks == [chunks[0]] + chunks[1..];
    WholeTrim(chars, chunks[0], chunks[0][|chars[0]|..], chunks[1..]);
  }

  lemma WholeTrim(chars: seq<Bytes>, chunk: Bytes, y: Bytes, more: seq<Bytes>)
    requires chars != [] && 0 < |chars[0]| <= |chunk| && |y| == |chunk| - |chars[0]|
    ensures WholeChars(chars, 0, [chunk] + more) <==> WholeChars(chars[1..], 0, [y] + more)
  {
    WholeCons(chars, chunk, more);
    WholeCons(chars[1..], y, more);
    WholePeeled(chars, |chunk|, more);
    BoundaryPeeled(chars, |chunk|);
  }

  lemma BoundaryPeeled(chars: seq<Bytes>, n: nat)
    requires chars != [] && 0 < |chars[0]| <= n
    ensures CharBoundary(chars, n) <==> CharBoundary(chars[1..], n - |chars[0]|)
  {
  }

  lemma FrontDecoded(c: Bytes, o: nat, chunk: Bytes, y: Bytes)
    requires IsChar(c) && o < |c| && |c| - o <= |chunk| && chunk[..|c| - o] == c[o..] && y == chunk[|c| - o..]
    ensures Decode(chunk) == (if o == 0 then Units(c) else Replacements(|c| - o)) + Decode(y)
  {
    assert chunk == c[o..] + y;
    if o == 0 {
      assert c[0..] == c;
      DecodeWhole(c, y);
    } else {
      CharRest(c, o);
      DecodeStray(c[o..], y);
    }
  }
}
