/** Dropping white space from a text: it does not show exactly in the margins of
    complete lines. */
module Margins {
  import opened Common
  import opened Utf8
  import opened Framing

  const FEFF: Unit := 0xFEFF

  /** The text without the units that are gone. */
  function Kept(t: Text, gone: seq<bool>): Text
    requires |gone| == |t|
  {
    if t == [] then [] else (if gone[0] then [] else [t[0]]) + Kept(t[1..], gone[1..])
  }

  /** Nothing but U+FEFF is gone, which is white space to `trim`. */
  predicate OnlyFeff(t: Text, gone: seq<bool>) {
    |gone| == |t| && forall k :: 0 <= k < |t| && gone[k] ==> t[k] == FEFF
  }

  predicate NoneGone(gone: seq<bool>) {
    forall k :: 0 <= k < |gone| ==> !gone[k]
  }

  lemma {:induction false} KeptLength(t: Text, gone: seq<bool>)
    requires |gone| == |t|
    ensures |Kept(t, gone)| <= |t|
    ensures |Kept(t, gone)| == |t| <==> NoneGone(gone)
    ensures NoneGone(gone) ==> Kept(t, gone) == t
    decreases |t|
  {
    if t != [] {
      KeptLength(t[1..], gone[1..]);
      assert t == [t[0]] + t[1..] && gone == [gone[0]] + gone[1..];
      assert NoneGone(gone) <==> !gone[0] && NoneGone(gone[1..]);
    }
  }

  lemma {:induction false} KeptConcat(a: Text, ga: seq<bool>, b: Text, gb: seq<bool>)
    requires |ga| == |a| && |gb| == |b|
    ensures Kept(a + b, ga + gb) == Kept(a, ga) + Kept(b, gb)
    decreases |a|
  {
    if a == [] {
      assert a + b == b && ga + gb == gb;
    } else {
      assert (a + b)[1..] == a[1..] + b && (ga + gb)[1..] == ga[1..] + gb;
      KeptConcat(a[1..], ga[1..], b, gb);
      Associative(if ga[0] then [] else [a[0]], Kept(a[1..], ga[1..]), Kept(b, gb));
    }
  }

  lemma KeptSplit(t: Text, gone: seq<bool>, n: nat)
    requires |gone| == |t| && n <= |t|
    ensures Kept(t, gone) == Kept(t[..n], gone[..n]) + Kept(t[n..], gone[n..])
  {
    KeptConcat(t[..n], gone[..n], t[n..], gone[n..]);
    assert t == t[..n] + t[n..] && gone == gone[..n] + gone[n..];
  }

  lemma {:induction false} KeptFrom(t: Text, gone: seq<bool>)
    requires |gone| == |t|
    ensures forall u <- Kept(t, gone) :: u in t
    decreases |t|
  {
    if t != [] { KeptFrom(t[1..], gone[1..]); }
  }

  // ---------- Trimming ----------

  predicate AllSpace(t: Text) {
    forall k :: 0 <= k < |t| ==> Space(t[k])
  }

  /** Empty, or with no white space at either end. */
  predicate Core(t: Text) {
    t == [] || (!Space(t[0]) && !Space(t[|t| - 1]))
  }

  lemma {:induction false} TrimStartSpaces(a: Text, t: Text)
    requires AllSpace(a)
    ensures TrimStart(a + t) == TrimStart(t)
    decreases |a|
  {
    if a == [] {
      assert a + t == t;
    } else {
      assert (a + t)[1..] == a[1..] + t && (a + t)[0] == a[0];
      TrimStartSpaces(a[1..], t);
    }
  }

  lemma {:induction false} TrimEndSpaces(t: Text, b: Text)
    requires AllSpace(b)
    ensures TrimEnd(t + b) == TrimEnd(t)
    decreases |b|
  {
    if b == [] {
      assert t + b == t;
    } else {
      assert (t + b)[..|t + b| - 1] == t + b[..|b| - 1] && (t + b)[|t + b| - 1] == b[|b| - 1];
      TrimEndSpaces(t, b[..|b| - 1]);
    }
  }

  lemma TrimIsCore(a: Text, core: Text, b: Text)
    requires AllSpace(a) && AllSpace(b) && Core(core)
    ensures Trim(a + core + b) == core
  {
    Associative(a, core, b);
    TrimStartSpaces(a, core + b);
    if core == [] {
      assert core + b == b && b + [] == b;
      TrimStartSpaces(b, []);
    } else {
      assert (core + b)[0] == core[0];
      TrimEndSpaces(core, b);
    }
  }

  lemma {:induction false} LeadingSpaces(t: Text) returns (i: nat)
    ensures i <= |t| && AllSpace(t[..i]) && (i < |t| ==> !Space(t[i]))
    decreases |t|
  {
    i := 0;
    if t != [] && Space(t[0]) {
      var j := LeadingSpaces(t[1..]);
      i := j + 1;
      assert t[..i] == [t[0]] + t[1..][..j];
    }
  }

  lemma {:induction false} TrailingSpaces(t: Text) returns (j: nat)
    ensures j <= |t| && AllSpace(t[j..]) && (j > 0 ==> !Space(t[j - 1]))
    decreases |t|
  {
    j := |t|;
    if t != [] && Space(t[|t| - 1]) {
      j := TrailingSpaces(t[..|t| - 1]);
      assert t[j..] == t[..|t| - 1][j..] + [t[|t| - 1]];
    }
  }

  /** White space, then what trimming leaves, then white space. */
  lemma TrimParts(t: Text) returns (i: nat, j: nat)
    ensures i <= j <= |t| && AllSpace(t[..i]) && AllSpace(t[j..]) && Core(t[i..j]) && Trim(t) == t[i..j]
  {
    i := LeadingSpaces(t);
    j := TrailingSpaces(t);
    if j < i { j := i; }
    assert t == t[..i] + t[i..j] + t[j..];
    TrimIsCore(t[..i], t[i..j], t[j..]);
  }

  /** A complete line gives one message, what stands between the white space at its
      ends, unless that is nothing; a text without a line break gives none. */
  lemma LinesMeaning(line: Text, rest: Text) returns (i: nat, j: nat)
    requires LF !in line
    ensures i <= j <= |line| && AllSpace(line[..i]) && AllSpace(line[j..]) && Core(line[i..j])
    ensures Lines(line + [LF] + rest) == (if i == j then [] else [line[i..j]]) + Lines(rest)
    ensures Tail(line + [LF] + rest) == Tail(rest)
    ensures Lines(line) == [] && Tail(line) == line
  {
    i, j := TrimParts(line);
    LinesStep(line, rest);
    NewlineNone(line);
  }

  // ---------- One line ----------

  /** Only white space before, or only white space after. */
  predicate Margin(line: Text, k: nat)
    requires k < |line|
  {
    (forall j :: 0 <= j < k ==> Space(line[j])) || (forall j :: k < j < |line| ==> Space(line[j]))
  }

  predicate InMargins(line: Text, gone: seq<bool>) {
    |gone| == |line| && forall k :: 0 <= k < |line| && gone[k] ==> Margin(line, k)
  }

  lemma MarginsAreOutside(line: Text, gone: seq<bool>, i: nat, j: nat)
    requires OnlyFeff(line, gone) && i <= j <= |line|
    requires AllSpace(line[..i]) && AllSpace(line[j..]) && Core(line[i..j])
    ensures InMargins(line, gone) <==> NoneGone(gone[i..j])
  {
    if NoneGone(gone[i..j]) {
      forall k | 0 <= k < |line| && gone[k] ensures Margin(line, k) {
        if k < i { forall n | 0 <= n < k ensures Space(line[n]) { assert line[..i][n] == line[n]; } }
        if k >= j { forall n | k < n < |line| ensures Space(line[n]) { assert line[j..][n - j] == line[n]; } }
      }
    } else {
      var k :| 0 <= k < j - i && gone[i..j][k];
      var core := line[i..j];
      assert core[k] == FEFF && Space(core[k]);
      assert line[i] == core[0] && line[j - 1] == core[|core| - 1];
      assert !Margin(line, i + k);
    }
  }

  /** Dropping marks from a line shows in its trimmed text exactly if one of them
      is not in the margin, and then by its length. */
  lemma TrimKept(line: Text, gone: seq<bool>)
    requires OnlyFeff(line, gone)
    ensures |Trim(Kept(line, gone))| <= |Trim(line)|
    ensures |Trim(Kept(line, gone))| == |Trim(line)| <==> InMargins(line, gone)
    ensures InMargins(line, gone) ==> Trim(Kept(line, gone)) == Trim(line)
  {
    var i, j := TrimParts(line);
    var a, core, b := line[..i], line[i..j], line[j..];
    var kept := Kept(core, gone[i..j]);
    KeptThree(line, gone, i, j);
    KeptSpaces(a, gone[..i]);
    KeptSpaces(b, gone[j..]);
    KeptCore(core, gone[i..j]);
    TrimIsCore(Kept(a, gone[..i]), kept, Kept(b, gone[j..]));
    KeptLength(core, gone[i..j]);
    MarginsAreOutside(line, gone, i, j);
  }

  lemma KeptThree(t: Text, gone: seq<bool>, i: nat, j: nat)
    requires |gone| == |t| && i <= j <= |t|
    ensures Kept(t, gone) == Kept(t[..i], gone[..i]) + Kept(t[i..j], gone[i..j]) + Kept(t[j..], gone[j..])
  {
    KeptSplit(t, gone, j);
    KeptSplit(t[..j], gone[..j], i);
    assert t[..j][..i] == t[..i] && gone[..j][..i] == gone[..i];
    assert t[..j][i..] == t[i..j] && gone[..j][i..] == gone[i..j];
  }

  lemma KeptSpaces(t: Text, gone: seq<bool>)
    requires |gone| == |t| && AllSpace(t)
    ensures AllSpace(Kept(t, gone))
  {
    KeptFrom(t, gone);
    forall k | 0 <= k < |Kept(t, gone)| ensures Space(Kept(t, gone)[k]) {
      assert Kept(t, gone)[k] in t;
    }
  }

  lemma KeptCore(core: Text, gone: seq<bool>)
    requires Core(core) && OnlyFeff(core, gone)
    ensures Core(Kept(core, gone))
  {
    if core != [] {
      var n := |core| - 1;
      assert !gone[0] && !gone[n];
      assert Kept(core, gone)[0] == core[0];
      KeptSplit(core, gone, n);
      assert core[n..] == [core[n]] && gone[n..] == [gone[n]];
      assert Kept([core[n]], [gone[n]]) == [core[n]] by { assert [core[n]][1..] == [] && [gone[n]][1..] == []; }
    }
  }

  // ---------- A whole text ----------

  /** Everything that is gone lies in the margin of a complete line. */
  predicate GoneInMargins(t: Text, gone: seq<bool>)
    requires |gone| == |t|
    decreases |t|
  {
    match IndexOfNewline(t)
    case None => NoneGone(gone)
    case Some(n) => InMargins(t[..n], gone[..n]) && GoneInMargins(t[n + 1..], gone[n + 1..])
  }

  /** How much text is in the messages and in what is left over. */
  function Amount(t: Text): nat { |Concat(Lines(t))| + |Tail(t)| }

  lemma MessageLength(line: Text)
    ensures |Concat(MessageOf(line))| == |Trim(line)|
  {
    assert Concat([Trim(line)]) == Trim(line) + [];
  }

  lemma {:induction false} ConcatParts(a: seq<Text>, b: seq<Text>)
    ensures Concat(a + b) == Concat(a) + Concat(b)
    decreases |a|
  {
    if a == [] {
      assert a + b == b;
    } else {
      ConcatParts(a[1..], b);
      assert (a + b)[1..] == a[1..] + b;
    }
  }

  lemma AmountStep(line: Text, rest: Text)
    requires LF !in line
    ensures Amount(line + [LF] + rest) == |Trim(line)| + Amount(rest)
  {
    LinesStep(line, rest);
    MessageLength(line);
    ConcatParts(MessageOf(line), Lines(rest));
  }

  /** The first line and the rest, before and after. */
  lemma KeptLine(t: Text, gone: seq<bool>, n: nat)
    requires OnlyFeff(t, gone) && IndexOfNewline(t) == Some(n)
    ensures t == t[..n] + [LF] + t[n + 1..] && LF !in t[..n] && LF !in Kept(t[..n], gone[..n])
    ensures Kept(t, gone) == Kept(t[..n], gone[..n]) + [LF] + Kept(t[n + 1..], gone[n + 1..])
    ensures OnlyFeff(t[..n], gone[..n]) && OnlyFeff(t[n + 1..], gone[n + 1..])
  {
    NewlineSplits(t);
    assert t[n] == LF && !gone[n];
    KeptThree(t, gone, n, n + 1);
    assert t[n..n + 1] == [LF] && gone[n..n + 1] == [gone[n]];
    assert Kept([LF], [gone[n]]) == [LF] by { assert [LF][1..] == [] && [gone[n]][1..] == []; }
    KeptFrom(t[..n], gone[..n]);
  }

  /** Dropping marks from a text takes nothing from its messages and its rest if
      and only if all of them lie in the margins of complete lines. */
  lemma {:induction false} MarginsExactly(t: Text, gone: seq<bool>)
    requires OnlyFeff(t, gone)
    ensures Amount(Kept(t, gone)) <= Amount(t)
    ensures Amount(Kept(t, gone)) == Amount(t) <==> GoneInMargins(t, gone)
    ensures GoneInMargins(t, gone) ==> Lines(Kept(t, gone)) == Lines(t) && Tail(Kept(t, gone)) == Tail(t)
    decreases |t|
  {
    var nl := IndexOfNewline(t);
    if nl.None? {
      UnendedLine(t, gone);
    } else {
      var n := nl.value;
      var line, rest, g, h := t[..n], t[n + 1..], gone[..n], gone[n + 1..];
      KeptLine(t, gone, n);
      TrimKept(line, g);
      MarginsExactly(rest, h);
      AmountStep(line, rest);
      AmountStep(Kept(line, g), Kept(rest, h));
      LinesStep(line, rest);
      LinesStep(Kept(line, g), Kept(rest, h));
      assert InMargins(line, g) ==> MessageOf(Kept(line, g)) == MessageOf(line);
    }
  }

  lemma UnendedLine(t: Text, gone: seq<bool>)
    requires OnlyFeff(t, gone) && IndexOfNewline(t).None?
    ensures Amount(Kept(t, gone)) <= Amount(t)
    ensures Amount(Kept(t, gone)) == Amount(t) <==> NoneGone(gone)
    ensures NoneGone(gone) ==> Kept(t, gone) == t
  {
    NewlineNone(t);
    KeptFrom(t, gone);
    NewlineNone(Kept(t, gone));
    KeptLength(t, gone);
  }

  /** So the messages and the rest are the same exactly then. */
  lemma SameLinesIffMargins(t: Text, gone: seq<bool>)
    requires OnlyFeff(t, gone)
    ensures Lines(Kept(t, gone)) == Lines(t) && Tail(Kept(t, gone)) == Tail(t) <==> GoneInMargins(t, gone)
  {
    MarginsExactly(t, gone);
  }
}
