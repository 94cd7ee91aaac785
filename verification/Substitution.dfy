/** `${VAR}` substitution in bind-mount paths: a loop that rewrites the string in
    place and searches it from the start again each round. */
module Substitution {
  import opened Common

  type Env = map<string, string>

  datatype Result = Text(text: string) | Unclosed | Missing(name: string)

  // ---------- Searching ----------

  predicate OpensAt(s: string, i: int) {
    0 <= i && i + 1 < |s| && s[i] == '$' && s[i + 1] == '{'
  }

  ghost predicate HasOpen(s: string) {
    exists i :: OpensAt(s, i)
  }

  /** Index of the first `${`. */
  function FindOpen(s: string): (r: Option<nat>)
    ensures r.Some? ==> OpensAt(s, r.value)
  {
    if |s| < 2 then None
    else if OpensAt(s, 0) then Some(0)
    else
      var r := FindOpen(s[1..]);
      if r.Some? then Some(r.value + 1) else None
  }

  /** Nothing opens before the index that was found. */
  lemma {:induction false} FindOpenFirst(s: string, i: int)
    requires OpensAt(s, i)
    ensures FindOpen(s).Some? && FindOpen(s).value <= i
  {
    if i > 0 { FindOpenFirst(s[1..], i - 1); }
  }

  lemma NoneFound(s: string)
    requires FindOpen(s).None?
    ensures !HasOpen(s)
  {
    forall i ensures !OpensAt(s, i) {
      if OpensAt(s, i) { FindOpenFirst(s, i); }
    }
  }

  /** Index of the first `}`. */
  function FindClose(s: string): (r: Option<nat>)
    ensures r.Some? ==> r.value < |s| && s[r.value] == '}'
  {
    if s == [] then None
    else if s[0] == '}' then Some(0)
    else
      var r := FindClose(s[1..]);
      if r.Some? then Some(r.value + 1) else None
  }

  lemma {:induction false} CloseIsFirst(s: string)
    requires FindClose(s).Some?
    ensures '}' !in s[..FindClose(s).value]
  {
    if s[0] != '}' {
      CloseIsFirst(s[1..]);
      assert s[..FindClose(s).value] == [s[0]] + s[1..][..FindClose(s).value - 1];
    }
  }

  /** A `}` found after the opening of a placeholder lies behind its two characters. */
  lemma CloseAfterOpen(s: string)
    requires OpensAt(s, 0) && FindClose(s).Some?
    ensures FindClose(s).value >= 2
  {
  }

  // ---------- One round ----------

  /** The first placeholder: the text before it, its value, the text after it. */
  datatype Cut = Plain | Fails(result: Result) | Piece(before: string, value: string, after: string)

  function CutOf(s: string, env: Env): Cut {
    match FindOpen(s)
    case None => Plain
    case Some(start) => CutAt(s[..start], s[start..], env)
  }

  /** The placeholder is what `tail` begins with. */
  function CutAt(before: string, tail: string, env: Env): Cut {
    match FindClose(tail)
    case None => Fails(Unclosed)
    case Some(length) =>
      var key := if length >= 2 then tail[2..length] else [];
      if key !in env then Fails(Missing(key)) else Piece(before, env[key], tail[length + 1..])
  }

  lemma CutFrom(s: string, start: nat, env: Env)
    requires FindOpen(s) == Some(start)
    ensures CutOf(s, env) == CutAt(s[..start], s[start..], env)
  {
  }

  datatype Round = Settled(result: Result) | Continue(text: string)

  /** What the loop body does to the current string. */
  function RoundOf(s: string, env: Env): Round {
    match CutOf(s, env)
    case Plain => Settled(Text(s))
    case Fails(result) => Settled(result)
    case Piece(before, value, after) => Continue(before + value + after)
  }

  /** The strings of one run of the loop, from the first to the one it stops at. */
  ghost predicate IsRun(texts: seq<string>, env: Env) {
    && texts != []
    && (forall k {:trigger texts[k]} :: 0 <= k < |texts| - 1 ==> RoundOf(texts[k], env) == Continue(texts[k + 1]))
    && RoundOf(texts[|texts| - 1], env).Settled?
  }

  /** Only the last string of a run is settled. */
  lemma SettledIsLast(texts: seq<string>, env: Env, k: nat)
    requires IsRun(texts, env) && k < |texts| && RoundOf(texts[k], env).Settled?
    ensures k == |texts| - 1
  {
    if k < |texts| - 1 { assert false; }
  }

  /** The loop ends when it starts from `s`. */
  ghost predicate Halts(s: string, env: Env) {
    exists texts :: IsRun(texts, env) && texts[0] == s
  }

  function Outcome(texts: seq<string>, env: Env): Result
    requires texts != [] && RoundOf(texts[|texts| - 1], env).Settled?
  {
    RoundOf(texts[|texts| - 1], env).result
  }

  /** The body of the loop: look the first placeholder up and put its value in. */
  method Rewrite(text: string, start: nat, env: Env) returns (r: Round)
    requires FindOpen(text) == Some(start)
    ensures r == RoundOf(text, env)
  {
    CutFrom(text, start, env);
    var tail := text[start..];
    var close := FindClose(tail);
    if close.None? { return Settled(Unclosed); }
    assert OpensAt(tail, 0);
    CloseAfterOpen(tail);
    var name := tail[2..close.value];
    if name !in env { return Settled(Missing(name)); }
    return Continue(text[..start] + env[name] + tail[close.value + 1..]);
  }

  lemma RunGoesOn(texts: seq<string>, env: Env, k: nat)
    requires IsRun(texts, env) && k < |texts| && RoundOf(texts[k], env).Continue?
    ensures k + 1 < |texts| && RoundOf(texts[k], env) == Continue(texts[k + 1])
  {
  }

  /** The loop itself. It may be called exactly when it ends, which its run `texts` shows. */
  method SubstituteEnv(s: string, env: Env, ghost texts: seq<string>) returns (r: Result)
    requires IsRun(texts, env) && texts[0] == s
    ensures r == Outcome(texts, env)
    ensures r.Text? ==> !HasOpen(r.text)
  {
    var text := s;
    ghost var k := 0;
    var open := FindOpen(text);
    while open.Some?
      invariant 0 <= k < |texts| && text == texts[k]
      invariant open == FindOpen(text)
      decreases |texts| - k
    {
      var round := Rewrite(text, open.value, env);
      if round.Settled? {
        SettledIsLast(texts, env, k);
        SettledWithoutText(text, env);
        return round.result;
      }
      RunGoesOn(texts, env, k);
      text := round.text;
      k := k + 1;
      open := FindOpen(text);
    }
    NoneFound(text);
    RoundOfPlain(text, env);
    SettledIsLast(texts, env, k);
    return Text(text);
  }

  /** A round that finds a placeholder settles only with an error. */
  lemma SettledWithoutText(s: string, env: Env)
    requires FindOpen(s).Some? && RoundOf(s, env).Settled?
    ensures !RoundOf(s, env).result.Text?
  {
  }

  lemma RoundOfPlain(s: string, env: Env)
    requires FindOpen(s).None?
    ensures RoundOf(s, env) == Settled(Text(s))
  {
  }

  lemma OpensFirst(before: string, rest: string)
    requires !HasOpen(before)
    ensures FindOpen(before + ("${" + rest)) == Some(|before|)
  {
    var s := before + ("${" + rest);
    assert s[|before|] == '$' && s[|before| + 1] == '{';
    assert OpensAt(s, |before|);
    FindOpenFirst(s, |before|);
    forall i | 0 <= i < |before| ensures !OpensAt(s, i) {
      assert !OpensAt(before, i);
      assert s[i] == before[i] && (i + 1 < |before| ==> s[i + 1] == before[i + 1]);
    }
  }

  lemma {:induction false} ClosesFirst(front: string, after: string)
    requires '}' !in front
    ensures FindClose(front + ("}" + after)) == Some(|front|)
  {
    if front != [] {
      assert (front + ("}" + after))[1..] == front[1..] + ("}" + after);
      ClosesFirst(front[1..], after);
    }
  }

  lemma {:induction false} NeverCloses(s: string)
    requires '}' !in s
    ensures FindClose(s).None?
  {
    if s != [] { NeverCloses(s[1..]); }
  }

  /** One round on the text itself: the first `${`, the name up to the next `}`. */
  lemma PlaceholderReplaced(before: string, name: string, after: string, env: Env)
    requires !HasOpen(before) && '}' !in name
    ensures RoundOf(before + ("${" + (name + ("}" + after))), env)
         == if name in env then Continue(before + env[name] + after) else Settled(Missing(name))
  {
    var rest := name + ("}" + after);
    var s, tail := before + ("${" + rest), "${" + rest;
    OpensFirst(before, rest);
    CutFrom(s, |before|, env);
    assert s[..|before|] == before && s[|before|..] == tail;
    assert tail == ("${" + name) + ("}" + after);
    ClosesFirst("${" + name, after);
    assert tail[2..2 + |name|] == name && tail[2 + |name| + 1..] == after;
  }

  /** Without a `}` behind it the text is refused, and without a `${` it is done. */
  lemma PlaceholderUnclosed(before: string, rest: string, env: Env)
    requires !HasOpen(before) && '}' !in rest
    ensures RoundOf(before + ("${" + rest), env) == Settled(Unclosed)
    ensures RoundOf(before, env) == Settled(Text(before))
  {
    var s, tail := before + ("${" + rest), "${" + rest;
    OpensFirst(before, rest);
    CutFrom(s, |before|, env);
    assert s[..|before|] == before && s[|before|..] == tail;
    NeverCloses(tail);
  }

  // ---------- Termination ----------

  /** How often a character occurs. */
  function Times(c: char, s: string): nat {
    if s == [] then 0 else Times(c, s[..|s| - 1]) + if s[|s| - 1] == c then 1 else 0
  }

  lemma {:induction false} TimesConcat(c: char, a: string, b: string)
    ensures Times(c, a + b) == Times(c, a) + Times(c, b)
    decreases |b|
  {
    if b == [] {
      assert a + b == a;
    } else {
      assert (a + b)[..|a + b| - 1] == a + b[..|b| - 1];
      TimesConcat(c, a, b[..|b| - 1]);
    }
  }

  lemma {:induction false} TimesNone(c: char, s: string)
    ensures Times(c, s) == 0 <==> c !in s
  {
    if s != [] {
      TimesNone(c, s[..|s| - 1]);
      assert s == s[..|s| - 1] + [s[|s| - 1]];
    }
  }

  /** No value holds the character. */
  predicate Lacking(env: Env, c: char) {
    forall k :: k in env ==> c !in env[k]
  }

  lemma TimesAround(c: char, s: string, before: string, hole: string, after: string)
    requires s == before + (hole + after) && c in hole
    ensures Times(c, before) + Times(c, after) < Times(c, s)
  {
    TimesConcat(c, before, hole + after);
    TimesConcat(c, hole, after);
    TimesNone(c, hole);
  }

  lemma NoneBefore(s: string, start: nat)
    requires FindOpen(s) == Some(start)
    ensures !HasOpen(s[..start])
  {
    forall i ensures !OpensAt(s[..start], i) {
      if OpensAt(s[..start], i) { FindOpenFirst(s, i); }
    }
  }

  /** The placeholder at the start of a text: its name, and itself. */
  lemma HoleParts(tail: string, env: Env, before: string) returns (hole: string)
    requires OpensAt(tail, 0) && CutAt(before, tail, env).Piece?
    ensures tail == hole + CutAt(before, tail, env).after && '$' in hole && '}' in hole
    ensures exists k :: k in env && '}' !in k && env[k] == CutAt(before, tail, env).value
  {
    var length := FindClose(tail).value;
    hole := tail[..length + 1];
    CloseIsFirst(tail);
    CloseAfterOpen(tail);
    var key := tail[2..length];
    assert '}' !in key by { assert forall c <- key :: c in tail[..length]; }
    assert hole[0] == '$' && hole[length] == '}';
  }

  /** The placeholder starts with a dollar sign, ends with a brace and is left out. */
  lemma CutParts(s: string, env: Env) returns (hole: string)
    requires CutOf(s, env).Piece?
    ensures var c := CutOf(s, env);
            && s == c.before + (hole + c.after) && '$' in hole && '}' in hole
            && FindOpen(s) == Some(|c.before|) && c.before == s[..|c.before|]
            && exists k :: k in env && '}' !in k && env[k] == c.value
  {
    var start := FindOpen(s).value;
    var before, tail := s[..start], s[start..];
    CutFrom(s, start, env);
    assert OpensAt(tail, 0);
    hole := HoleParts(tail, env, before);
    assert s == before + tail;
  }

  /** What a placeholder leaves out holds a dollar sign and a closing brace. */
  lemma CutLoses(s: string, env: Env, c: char)
    requires CutOf(s, env).Piece? && (c == '$' || c == '}')
    ensures var cut := CutOf(s, env);
            && Times(c, cut.before) + Times(c, cut.after) < Times(c, s)
            && |cut.before| + |cut.after| < |s|
            && !HasOpen(cut.before)
            && exists k :: k in env && '}' !in k && env[k] == cut.value
  {
    var cut := CutOf(s, env);
    var hole := CutParts(s, env);
    TimesAround(c, s, cut.before, hole, cut.after);
    NoneBefore(s, |cut.before|);
  }

  /** Each replacement removes one. */
  lemma RoundLoses(s: string, env: Env, c: char)
    requires (c == '$' || c == '}') && Lacking(env, c) && RoundOf(s, env).Continue?
    ensures Times(c, RoundOf(s, env).text) < Times(c, s)
  {
    var cut := CutOf(s, env);
    CutLoses(s, env, c);
    TimesConcat(c, cut.before + cut.value, cut.after);
    TimesConcat(c, cut.before, cut.value);
    TimesNone(c, cut.value);
  }

  /** No value with a dollar sign, or no value with a closing brace: the loop ends,
      after no more replacements than the string has of that character. */
  lemma {:induction false} EndsWhenLacking(s: string, env: Env, c: char) returns (texts: seq<string>)
    requires (c == '$' || c == '}') && Lacking(env, c)
    ensures IsRun(texts, env) && texts[0] == s && |texts| <= Times(c, s) + 1
    ensures Halts(s, env)
    decreases Times(c, s)
  {
    var round := RoundOf(s, env);
    texts := [s];
    if round.Continue? {
      RoundLoses(s, env, c);
      var more := EndsWhenLacking(round.text, env, c);
      RunCons(s, more, env);
      texts := [s] + more;
    }
  }

  lemma SelfReferenceReturns(s: string, env: Env)
    requires s == "${A}" && env == map["A" := s]
    ensures RoundOf(s, env) == Continue(s)
  {
    assert OpensAt(s, 0) && FindOpen(s) == Some(0);
    CutFrom(s, 0, env);
    assert s[0..] == s;
    CloseThird(s);
    assert s[2..3] == "A" && s[4..] == "" && s[..0] == "";
  }

  lemma {:induction false} SelfReferenceStays(texts: seq<string>, s: string, env: Env, k: nat)
    requires s == "${A}" && env == map["A" := s] && k < |texts| && texts[0] == s
    requires forall j :: 0 <= j < |texts| - 1 ==> RoundOf(texts[j], env) == Continue(texts[j + 1])
    ensures texts[k] == s
  {
    if k > 0 {
      SelfReferenceStays(texts, s, env, k - 1);
      SelfReferenceReturns(s, env);
      assert RoundOf(texts[k - 1], env) == Continue(texts[k - 1 + 1]);
    }
  }

  /** A value that mentions its own variable keeps the loop going for ever. */
  lemma SelfReferenceNeverEnds(s: string, env: Env)
    requires s == "${A}" && env == map["A" := s]
    ensures !Halts(s, env)
  {
    forall texts: seq<string> | texts != [] && texts[0] == s ensures !IsRun(texts, env) {
      if forall j :: 0 <= j < |texts| - 1 ==> RoundOf(texts[j], env) == Continue(texts[j + 1]) {
        SelfReferenceStays(texts, s, env, |texts| - 1);
        SelfReferenceReturns(s, env);
      }
    }
  }

  lemma CloseThird(s: string)
    requires |s| >= 4 && s[0] != '}' && s[1] != '}' && s[2] != '}' && s[3] == '}'
    ensures FindClose(s) == Some(3)
  {
    var a, b, c := s[1..], s[1..][1..], s[1..][1..][1..];
    assert a[0] == s[1] && b[0] == s[2] && c[0] == s[3];
    assert FindClose(c) == Some(0);
    assert FindClose(b) == Some(1);
    assert FindClose(a) == Some(2);
  }

  // ---------- One pass ----------

  function Prepend(front: string, r: Result): Result {
    if r.Text? then Text(front + r.text) else r
  }

  /** Left to right, never looking back at what was put in. */
  function OnePass(s: string, env: Env): Result
    decreases |s|
  {
    match CutOf(s, env)
    case Plain => Text(s)
    case Fails(result) => result
    case Piece(before, value, after) =>
      CutLoses(s, env, '$');
      Prepend(before + value, OnePass(after, env))
  }

  /** A value that cannot take part in a new `${`: it is not empty, holds none, and
      neither ends nor begins in the middle of one. */
  ghost predicate Tame(value: string) {
    value != [] && !HasOpen(value) && value[0] != '{' && value[|value| - 1] != '$'
  }

  /** All values a placeholder can name; a name with a closing brace never is one. */
  ghost predicate TameValues(env: Env) {
    forall k <- env :: '}' !in k ==> Tame(env[k])
  }

  /** Text in front that neither contains nor can begin a `${`. */
  ghost predicate Inert(front: string) {
    !HasOpen(front) && (front == [] || front[|front| - 1] != '$')
  }

  lemma OpensBehind(front: string, rest: string, i: int)
    requires Inert(front)
    ensures OpensAt(front + rest, i) <==> OpensAt(rest, i - |front|)
  {
    var whole := front + rest;
    if 0 <= i && i + 1 < |front| {
      assert !OpensAt(front, i);
      assert whole[i] == front[i] && whole[i + 1] == front[i + 1];
    } else if 0 <= i && i + 1 == |front| {
      assert whole[i] == front[i];
    } else if i >= |front| && i + 1 < |whole| {
      assert whole[i] == rest[i - |front|] && whole[i + 1] == rest[i + 1 - |front|];
    }
  }

  lemma FindOpenIs(s: string, i: nat)
    requires OpensAt(s, i) && forall j :: OpensAt(s, j) ==> i <= j
    ensures FindOpen(s) == Some(i)
  {
    FindOpenFirst(s, i);
  }

  lemma FindOpenBehind(front: string, rest: string, whole: string)
    requires Inert(front) && whole == front + rest
    ensures FindOpen(whole) ==
            if FindOpen(rest).Some? then Some(|front| + FindOpen(rest).value) else None
  {
    var found := FindOpen(rest);
    forall j ensures OpensAt(whole, j) ==> found.Some? && |front| + found.value <= j {
      OpensBehind(front, rest, j);
      if OpensAt(whole, j) { FindOpenFirst(rest, j - |front|); }
    }
    if found.Some? {
      OpensBehind(front, rest, |front| + found.value);
      FindOpenIs(whole, |front| + found.value);
    }
  }

  lemma FrontGrows(front: string, before: string, value: string)
    requires Inert(front) && !HasOpen(before) && Tame(value)
    ensures Inert(front + before + value)
  {
    var all := front + before + value;
    forall i ensures !OpensAt(all, i) {
      if 0 <= i && i + 1 < |all| {
        if i + 1 < |front| {
          assert !OpensAt(front, i);
        } else if i + 1 == |front| {
          assert all[i] == front[i];
        } else if i + 1 < |front| + |before| {
          assert !OpensAt(before, i - |front|);
        } else if i + 1 == |front| + |before| {
          assert all[i + 1] == value[0];
        } else {
          assert !OpensAt(value, i - |front| - |before|);
        }
      }
    }
    assert all[|all| - 1] == value[|value| - 1];
  }

  lemma SliceBehind(front: string, rest: string, start: nat)
    requires start <= |rest|
    ensures (front + rest)[|front| + start..] == rest[start..]
    ensures (front + rest)[..|front| + start] == front + rest[..start]
  {
  }

  function Behind(front: string, c: Cut): Cut {
    if c.Piece? then Piece(front + c.before, c.value, c.after) else c
  }

  lemma CutAtBehind(front: string, before: string, tail: string, env: Env)
    ensures CutAt(front + before, tail, env) == Behind(front, CutAt(before, tail, env))
  {
  }

  lemma CutPlain(s: string, env: Env)
    requires FindOpen(s).None?
    ensures CutOf(s, env) == Plain
  {
  }

  /** Text in front of it does not change where the first placeholder is. */
  lemma CutBehind(front: string, rest: string, whole: string, env: Env)
    requires Inert(front) && whole == front + rest
    ensures CutOf(whole, env) == Behind(front, CutOf(rest, env))
  {
    FindOpenBehind(front, rest, whole);
    if FindOpen(rest).Some? {
      var start := FindOpen(rest).value;
      SliceBehind(front, rest, start);
      CutBehindAt(front, rest[..start], rest[start..], rest, start, whole, |front| + start, env);
    } else {
      CutPlain(whole, env);
      CutPlain(rest, env);
    }
  }

  lemma CutBehindAt(front: string, before: string, tail: string, rest: string, start: nat, whole: string, n: nat, env: Env)
    requires FindOpen(rest) == Some(start) && rest[..start] == before && rest[start..] == tail
    requires FindOpen(whole) == Some(n) && whole[..n] == front + before && whole[n..] == tail
    ensures CutOf(whole, env) == Behind(front, CutOf(rest, env))
  {
    CutFrom(rest, start, env);
    CutFrom(whole, n, env);
    CutAtBehind(front, before, tail, env);
  }

  lemma PrependInto(a: string, b: string, c: string, r: Result)
    ensures Prepend(a + b + c, r) == Prepend(a, Prepend(b + c, r))
  {
    if r.Text? { assert a + b + c + r.text == a + (b + c + r.text); }
  }

  lemma OnePassStep(s: string, env: Env)
    requires CutOf(s, env).Piece?
    ensures var c := CutOf(s, env); OnePass(s, env) == Prepend(c.before + c.value, OnePass(c.after, env))
  {
  }

  /** What a round makes of text behind an inert front. */
  lemma RoundBehind(front: string, rest: string, env: Env)
    requires Inert(front)
    ensures var c := CutOf(rest, env);
            RoundOf(front + rest, env) ==
            if c.Piece? then Continue(front + c.before + c.value + c.after) else Settled(Prepend(front, OnePass(rest, env)))
  {
    CutBehind(front, rest, front + rest, env);
  }

  lemma RunCons(s: string, texts: seq<string>, env: Env)
    requires IsRun(texts, env) && RoundOf(s, env) == Continue(texts[0])
    ensures IsRun([s] + texts, env) && Outcome([s] + texts, env) == Outcome(texts, env)
  {
    var more := [s] + texts;
    assert more[|more| - 1] == texts[|texts| - 1];
    forall k | 0 <= k < |more| - 1 ensures RoundOf(more[k], env) == Continue(more[k + 1]) {
      if k > 0 { assert more[k] == texts[k - 1] && texts[k - 1 + 1] == more[k + 1]; }
    }
  }

  /** The loop ends with this result. */
  ghost predicate HaltsWith(s: string, env: Env, r: Result) {
    exists texts :: IsRun(texts, env) && texts[0] == s && Outcome(texts, env) == r
  }

  lemma {:induction false} InPlaceIsOnePass(front: string, rest: string, env: Env) returns (texts: seq<string>)
    requires TameValues(env) && Inert(front)
    ensures IsRun(texts, env) && texts[0] == front + rest
    ensures Outcome(texts, env) == Prepend(front, OnePass(rest, env))
    decreases |rest|
  {
    var c := CutOf(rest, env);
    RoundBehind(front, rest, env);
    if c.Piece? {
      CutLoses(rest, env, '$');
      FrontGrows(front, c.before, c.value);
      texts := InPlaceIsOnePass(front + c.before + c.value, c.after, env);
      RunCons(front + rest, texts, env);
      texts := [front + rest] + texts;
      OnePassStep(rest, env);
      PrependInto(front, c.before, c.value, OnePass(c.after, env));
    } else {
      texts := [front + rest];
    }
  }

  lemma TameIsOnePass(s: string, env: Env)
    requires TameValues(env)
    ensures HaltsWith(s, env, OnePass(s, env))
  {
    assert Inert([]);
    var texts := InPlaceIsOnePass([], s, env);
    assert [] + s == s;
    assert OnePass(s, env).Text? ==> [] + OnePass(s, env).text == OnePass(s, env).text;
  }

  /** The loop never ends with an opening left. */
  lemma NoOpenLeft(s: string, env: Env, r: Result)
    requires HaltsWith(s, env, r) && r.Text?
    ensures !HasOpen(r.text)
  {
    var texts :| IsRun(texts, env) && texts[0] == s && Outcome(texts, env) == r;
    var last := texts[|texts| - 1];
    if FindOpen(last).Some? { SettledWithoutText(last, env); } else { RoundOfPlain(last, env); NoneFound(last); }
  }

  // ---------- The string that tells ----------

  lemma {:induction false} CloseBehind(front: string, rest: string)
    requires '}' !in front
    ensures FindClose(front + ['}'] + rest) == Some(|front|)
  {
    if front != [] {
      CloseBehind(front[1..], rest);
      assert (front + ['}'] + rest)[1..] == front[1..] + ['}'] + rest;
    }
  }

  /** A placeholder between a dollar sign and an opening brace. */
  function Probe(key: string): string {
    ['$'] + (['$', '{'] + key + ['}'] + ['{'])
  }

  lemma ProbeCut(key: string, env: Env)
    requires key in env && '}' !in key
    ensures CutOf(Probe(key), env) == Piece(['$'], env[key], ['{'])
  {
    var s, tail := Probe(key), ['$', '{'] + key + ['}'] + ['{'];
    assert OpensAt(s, 1) && !OpensAt(s, 0);
    FindOpenIs(s, 1);
    assert s[..1] == ['$'] && s[1..] == tail;
    CutFrom(s, 1, env);
    CloseBehind(['$', '{'] + key, ['{']);
    var length := |key| + 2;
    assert tail[2..length] == key && tail[length + 1..] == ['{'];
  }

  lemma ProbeOnePass(key: string, env: Env)
    requires key in env && '}' !in key
    ensures OnePass(Probe(key), env) == Text(['$'] + env[key] + ['{'])
  {
    ProbeCut(key, env);
    OnePassStep(Probe(key), env);
    assert FindOpen(['{']).None?;
    CutPlain(['{'], env);
  }

  lemma UntameOpens(value: string)
    requires !Tame(value)
    ensures HasOpen(['$'] + value + ['{'])
  {
    var all := ['$'] + value + ['{'];
    if value == [] || value[0] == '{' {
      assert OpensAt(all, 0);
    } else if value[|value| - 1] == '$' {
      assert OpensAt(all, |value|);
    } else {
      var i :| OpensAt(value, i);
      assert OpensAt(all, i + 1);
    }
  }

  /** Rewriting in place with rescans ends, and gives what one left-to-right pass
      gives, errors included, for every string, if and only if every value that a
      placeholder can name is tame. */
  lemma SubstitutionIsOnePass(env: Env)
    ensures (forall s :: HaltsWith(s, env, OnePass(s, env))) <==> TameValues(env)
  {
    if TameValues(env) {
      forall s ensures HaltsWith(s, env, OnePass(s, env)) { TameIsOnePass(s, env); }
    } else {
      var key :| key in env && '}' !in key && !Tame(env[key]);
      ProbeOnePass(key, env);
      UntameOpens(env[key]);
      if HaltsWith(Probe(key), env, OnePass(Probe(key), env)) {
        NoOpenLeft(Probe(key), env, OnePass(Probe(key), env));
      }
    }
  }

  /** An empty value, or one with a brace, can complete a new placeholder that
      one pass would not see. */
  lemma RescanSeesMore(s: string, t: string, env: Env)
    requires s == "$${A}{B}" && t == "${B}" && env == map["A" := "", "B" := "x"]
    ensures OnePass(s, env) == Text(t)
    ensures IsRun([s, t, "x"], env) && Outcome([s, t, "x"], env) == Text("x")
  {
    FirstCut(s, env);
    OnePassStep(s, env);
    ClosingIsPlain("{B}", env);
    assert "$" + "" + "{B}" == t;
    SecondCut(t, env);
    assert "" + "x" + "" == "x";
    RoundOfPlain("x", env);
    ThreeRounds(s, t, "x", env);
  }

  lemma ClosingIsPlain(s: string, env: Env)
    requires s == "{B}"
    ensures OnePass(s, env) == Text(s)
  {
    assert s[1..] == "B}" && s[1..][1..] == "}";
    assert FindOpen(s) == None;
  }

  lemma ThreeRounds(s: string, t: string, u: string, env: Env)
    requires RoundOf(s, env) == Continue(t) && RoundOf(t, env) == Continue(u) && RoundOf(u, env) == Settled(Text(u))
    ensures IsRun([s, t, u], env) && Outcome([s, t, u], env) == Text(u)
  {
  }

  lemma FirstCut(s: string, env: Env)
    requires s == "$${A}{B}" && "A" in env
    ensures CutOf(s, env) == Piece("$", env["A"], "{B}")
  {
    var tail := s[1..];
    assert OpensAt(tail, 0) && !OpensAt(s, 0);
    assert FindOpen(s) == Some(1);
    CutFrom(s, 1, env);
    CloseThird(tail);
    assert tail[2..3] == "A" && tail[4..] == "{B}" && s[..1] == "$";
  }

  lemma SecondCut(s: string, env: Env)
    requires s == "${B}" && "B" in env
    ensures CutOf(s, env) == Piece("", env["B"], "")
  {
    assert OpensAt(s, 0) && FindOpen(s) == Some(0);
    CutFrom(s, 0, env);
    assert s[0..] == s;
    CloseThird(s);
    assert s[2..3] == "B" && s[4..] == "" && s[..0] == "";
  }

  // ---------- The two environment readers ----------

  /** White space, as Unicode has it. */
  predicate White(c: char) {
    || '\t' <= c <= '\r' || c == ' ' || c == '\U{85}' || c == '\U{A0}' || c == '\U{1680}'
    || '\U{2000}' <= c <= '\U{200A}' || c == '\U{2028}' || c == '\U{2029}' || c == '\U{202F}'
    || c == '\U{205F}' || c == '\U{3000}'
  }

  predicate Blank(line: string) {
    forall i :: 0 <= i < |line| ==> White(line[i])
  }

  /** Blank lines and comments are skipped. */
  predicate Kept(line: string) {
    !Blank(line) && line[0] != '#'
  }

  function IndexOfEquals(line: string): Option<nat> {
    if line == [] then None
    else if line[0] == '=' then Some(0)
    else
      var r := IndexOfEquals(line[1..]);
      if r.Some? then Some(r.value + 1) else None
  }

  lemma {:induction false} IndexInRange(line: string)
    ensures IndexOfEquals(line).Some? ==> IndexOfEquals(line).value < |line|
  {
    if line != [] { IndexInRange(line[1..]); }
  }

  /** Later lines win. */
  function Enter(env: Env, line: string): Env {
    IndexInRange(line);
    var at := IndexOfEquals(line);
    if at.None? then env else env[line[..at.value] := line[at.value + 1..]]
  }

  /** The line sets this name: it is no comment, and the name is all before its first `=`. */
  predicate Names(line: string, name: string) {
    name + "=" <= line && '=' !in name && !("#" <= line)
  }

  predicate Sets(line: string, name: string, value: string) {
    line == name + "=" + value && '=' !in name && !("#" <= line)
  }

  /** Line `i` sets it and no later one does. */
  predicate SetLast(lines: seq<string>, i: nat, name: string, value: string) {
    && i < |lines| && Sets(lines[i], name, value)
    && forall j :: i < j < |lines| ==> !Names(lines[j], name)
  }

  predicate Has(env: Env, name: string, value: string) {
    name in env && env[name] == value
  }

  /** A name has the value that the last line setting it gives. */
  ghost predicate Reads(env: Env, lines: seq<string>) {
    forall name, value :: Has(env, name, value) <==> exists i: nat :: SetLast(lines, i, name, value)
  }

  lemma {:induction false} EqualsFirst(name: string, rest: string)
    requires '=' !in name
    ensures IndexOfEquals(name + "=" + rest) == Some(|name|)
  {
    if name != [] {
      assert (name + "=" + rest)[1..] == name[1..] + "=" + rest;
      EqualsFirst(name[1..], rest);
    }
  }

  lemma {:induction false} EqualsSplits(line: string)
    ensures IndexOfEquals(line).Some? ==>
              var at := IndexOfEquals(line).value;
              at < |line| && '=' !in line[..at] && line == line[..at] + "=" + line[at + 1..]
  {
    if line != [] && line[0] != '=' {
      EqualsSplits(line[1..]);
      if IndexOfEquals(line).Some? {
        var at := IndexOfEquals(line).value;
        assert line[..at] == [line[0]] + line[1..][..at - 1];
      }
    }
  }

  lemma NamesSplit(line: string, name: string)
    requires Names(line, name)
    ensures Kept(line) && IndexOfEquals(line) == Some(|name|) && name == line[..|name|]
    ensures Sets(line, name, line[|name| + 1..])
  {
    var rest := line[|name| + 1..];
    assert line == name + "=" + rest;
    EqualsFirst(name, rest);
    assert line[|name|] == '=' && !White('=');
  }

  /** What one more line adds. */
  lemma EnterHas(env: Env, line: string, name: string, value: string)
    requires Kept(line)
    ensures Has(Enter(env, line), name, value) <==>
              Sets(line, name, value) || (Has(env, name, value) && !Names(line, name))
  {
    var at := IndexOfEquals(line);
    EqualsSplits(line);
    if Names(line, name) { NamesSplit(line, name); }
    if Sets(line, name, value) { SetsNames(line, name, value); NamesSplit(line, name); }
    if at.Some? && name == line[..at.value] { assert name + "=" <= line; }
  }

  lemma SetsNames(line: string, name: string, value: string)
    requires Sets(line, name, value)
    ensures Names(line, name) && line[|name| + 1..] == value
  {
  }

  lemma LastNext(lines: seq<string>, line: string, name: string, value: string)
    ensures (exists i: nat :: SetLast(lines + [line], i, name, value)) <==>
              Sets(line, name, value) || ((exists i: nat :: SetLast(lines, i, name, value)) && !Names(line, name))
  {
    var all, n := lines + [line], |lines|;
    assert all[n] == line;
    if i: nat :| SetLast(all, i, name, value) {
      if i < n {
        assert SetLast(lines, i, name, value) by {
          forall j | i < j < |lines| ensures !Names(lines[j], name) { assert all[j] == lines[j]; }
        }
      }
    }
    if Sets(line, name, value) { assert SetLast(all, n, name, value); }
    if i: nat :| SetLast(lines, i, name, value) && !Names(line, name) { assert SetLast(all, i, name, value); }
  }

  lemma ReadsNext(env: Env, lines: seq<string>, line: string)
    requires Reads(env, lines)
    ensures Reads(if Kept(line) then Enter(env, line) else env, lines + [line])
  {
    var env' := if Kept(line) then Enter(env, line) else env;
    forall name, value
      ensures Has(env', name, value) <==> exists i: nat :: SetLast(lines + [line], i, name, value)
    {
      LastNext(lines, line, name, value);
      assert Has(env, name, value) <==> exists i: nat :: SetLast(lines, i, name, value);
      if Kept(line) {
        EnterHas(env, line, name, value);
      } else {
        if Names(line, name) { NamesSplit(line, name); }
        if Sets(line, name, value) { SetsNames(line, name, value); NamesSplit(line, name); }
      }
    }
  }

  /** Line by line, a name has the value of the last line that sets it. */
  lemma {:induction false} EnvMeaning(lines: seq<string>)
    ensures Reads(EnvOf(KeptLines(lines)), lines)
  {
    if lines != [] {
      var n := |lines| - 1;
      EnvMeaning(lines[..n]);
      ReadsNext(EnvOf(KeptLines(lines[..n])), lines[..n], lines[n]);
      assert lines == lines[..n] + [lines[n]];
      var front := KeptLines(lines[..n]);
      assert KeptLines(lines) == if Kept(lines[n]) then front + [lines[n]] else front;
      if Kept(lines[n]) { EnvNext(front, lines[n]); }
    } else {
      forall name, value ensures !Has(EnvOf([]), name, value) && !exists i: nat :: SetLast([], i, name, value) { }
    }
  }

  lemma KeptNext(lines: seq<string>, i: nat)
    requires i < |lines|
    ensures KeptLines(lines[..i + 1]) == if Kept(lines[i]) then KeptLines(lines[..i]) + [lines[i]] else KeptLines(lines[..i])
  {
    assert lines[..i + 1][..i] == lines[..i];
  }

  lemma EnvNext(lines: seq<string>, line: string)
    ensures EnvOf(lines + [line]) == Enter(EnvOf(lines), line)
  {
    assert (lines + [line])[..|lines|] == lines;
  }

  /** Validation reads the file in one go. */
  method LoadEnvMap(lines: seq<string>) returns (env: Env)
    ensures env == EnvOf(KeptLines(lines)) && Reads(env, lines)
  {
    EnvMeaning(lines);
    env := map[];
    for i := 0 to |lines|
      invariant env == EnvOf(KeptLines(lines[..i]))
    {
      KeptNext(lines, i);
      if Kept(lines[i]) {
        EnvNext(KeptLines(lines[..i]), lines[i]);
        env := Enter(env, lines[i]);
      }
    }
    assert lines[..|lines|] == lines;
  }

  function KeptLines(lines: seq<string>): seq<string> {
    if lines == [] then []
    else KeptLines(lines[..|lines| - 1]) + if Kept(lines[|lines| - 1]) then [lines[|lines| - 1]] else []
  }

  function EnvOf(lines: seq<string>): Env {
    if lines == [] then map[] else Enter(EnvOf(lines[..|lines| - 1]), lines[|lines| - 1])
  }

  /** Every line is kept as often as it is there, in order, unless it is all white
      space or begins with `#`. */
  lemma {:induction false} KeptMeaning(lines: seq<string>, line: string)
    ensures multiset(KeptLines(lines))[line]
         == if (exists c <- line :: !White(c)) && !("#" <= line) then multiset(lines)[line] else 0
  {
    if lines != [] {
      var n := |lines| - 1;
      KeptMeaning(lines[..n], line);
      assert lines == lines[..n] + [lines[n]];
      assert Kept(lines[n]) <==> (exists c <- lines[n] :: !White(c)) && !("#" <= lines[n]);
    }
  }

  /** Starting a container first keeps the raw lines, then reads those. */
  method LoadThroughRawLines(lines: seq<string>) returns (raw: seq<string>, env: Env)
    ensures forall line :: multiset(raw)[line]
                        == if (exists c <- line :: !White(c)) && !("#" <= line) then multiset(lines)[line] else 0
    ensures raw == KeptLines(lines) && env == EnvOf(KeptLines(lines)) && Reads(env, lines)
  {
    EnvMeaning(lines);
    forall line ensures multiset(KeptLines(lines))[line]
                     == if (exists c <- line :: !White(c)) && !("#" <= line) then multiset(lines)[line] else 0
    {
      KeptMeaning(lines, line);
    }
    raw := [];
    for i := 0 to |lines|
      invariant raw == KeptLines(lines[..i])
    {
      assert lines[..i + 1][..i] == lines[..i];
      if Kept(lines[i]) { raw := raw + [lines[i]]; }
    }
    assert lines[..|lines|] == lines;
    env := map[];
    for i := 0 to |raw|
      invariant env == EnvOf(raw[..i])
    {
      assert raw[..i + 1][..i] == raw[..i];
      env := Enter(env, raw[i]);
    }
    assert raw[..|raw|] == raw;
  }

  lemma ReadsOnce(a: Env, b: Env, lines: seq<string>)
    requires Reads(a, lines) && Reads(b, lines)
    ensures a == b
  {
    forall name | name in a ensures name in b && b[name] == a[name] { assert Has(a, name, a[name]) && Has(b, name, a[name]); }
    forall name | name in b ensures name in a { assert Has(b, name, b[name]) && Has(a, name, b[name]); }
  }

  /** The path that validation checks is the path the container mounts. */
  method ValidatedPathIsMounted(host: string, lines: seq<string>, ghost env: Env, ghost texts: seq<string>)
    returns (checked: Result, mounted: Result)
    requires Reads(env, lines) && IsRun(texts, env) && texts[0] == host
    ensures checked == mounted == Outcome(texts, env)
  {
    var read := LoadEnvMap(lines);
    ReadsOnce(read, env, lines);
    checked := SubstituteEnv(host, read, texts);
    var _, again := LoadThroughRawLines(lines);
    mounted := SubstituteEnv(host, again, texts);
  }
}
