/** Variable names are written into the run script without quotes: exactly the
    names made of plain characters are safe to use. */
module ShellNames {
  import opened Common
  import opened ShellQuote

  /** The word being read. */
  function Partial(l: Lexer): string {
    if l.word.Some? then l.word.value else ""
  }

  /** The reader is behind the first word of the first command. */
  predicate Behind(l: Lexer, first: string) {
    l.commands == [] && l.args == [first]
  }

  /** The first command can no longer come out as `first meant`. */
  predicate Off(l: Lexer, first: string, meant: string) {
    if l.commands != [] then l.commands[0] != [first, meant] else |l.args| >= 2 && l.args[1] != meant
  }

  lemma OffStays(l: Lexer, c: char, first: string, meant: string)
    requires Off(l, first, meant) && Feed(l, c).Some?
    ensures Off(Feed(l, c).value, first, meant)
  {
  }

  /** A word that ends as something else, or a command that ends without it. */
  lemma EndsOff(l: Lexer, first: string, meant: string)
    requires Behind(l, first) && Partial(l) != meant
    ensures Off(l.EndCommand(), first, meant)
    ensures l.word.Some? ==> Off(l.EndWord(), first, meant)
  {
    var w := Partial(l);
    assert ([first] + [w])[1] == w && [first, meant][1] == meant;
    assert |[first]| == 1 && |[first, meant]| == 2;
  }

  // ---------- Reading the name ----------

  /** After `k` characters of the name the word is no longer than that, and
      shorter once a character was not plain. */
  predicate Lags(l: Lexer, first: string, meant: string, k: nat, clean: bool) {
    || Off(l, first, meant)
    || (Behind(l, first) && |Partial(l)| + (if clean then 0 else 1) <= k && (clean ==> l.mode.Bare?))
  }

  lemma LagsOn(l: Lexer, c: char, first: string, meant: string, k: nat, clean: bool)
    requires Lags(l, first, meant, k, clean) && k < |meant| && Feed(l, c).Some?
    ensures Lags(Feed(l, c).value, first, meant, k + 1, clean && Plain(c))
  {
    if Off(l, first, meant) { OffStays(l, c, first, meant); } else { EndsOff(l, first, meant); }
  }

  lemma {:induction false} NameLags(l: Lexer, first: string, meant: string, read: string)
    requires Behind(l, first) && l.mode.Bare? && l.word.None? && |read| < |meant|
    ensures FeedAll(l, read).Some? ==> Lags(FeedAll(l, read).value, first, meant, |read|, PlainName(read))
    decreases |read|
  {
    if read != [] {
      var before, c := read[..|read| - 1], read[|read| - 1];
      NameLags(l, first, meant, before);
      assert read == before + [c];
      assert PlainName(read) <==> PlainName(before) && Plain(c);
      if FeedAll(l, read).Some? { LagsOn(FeedAll(l, before).value, c, first, meant, |before|, PlainName(before)); }
    }
  }

  // ---------- Reading on ----------

  /** The word is lost: it does not end as an assignment of nothing does. */
  predicate Lost(l: Lexer, first: string, meant: string) {
    || Off(l, first, meant)
    || (Behind(l, first) && Partial(l) != [] && Partial(l)[|Partial(l)| - 1] != '=')
  }

  lemma LostStays(l: Lexer, c: char, first: string, meant: string)
    requires Lost(l, first, meant) && c != '=' && meant != [] && meant[|meant| - 1] == '=' && Feed(l, c).Some?
    ensures Lost(Feed(l, c).value, first, meant)
  {
    if Off(l, first, meant) { OffStays(l, c, first, meant); } else { EndsOff(l, first, meant); }
  }

  lemma {:induction false} LostForGood(l: Lexer, s: string, first: string, meant: string)
    requires Lost(l, first, meant) && '=' !in s && meant != [] && meant[|meant| - 1] == '='
    ensures FeedAll(l, s).Some? ==> Lost(FeedAll(l, s).value, first, meant)
    decreases |s|
  {
    if s != [] {
      assert s == s[..|s| - 1] + [s[|s| - 1]];
      LostForGood(l, s[..|s| - 1], first, meant);
      if FeedAll(l, s).Some? { LostStays(FeedAll(l, s[..|s| - 1]).value, s[|s| - 1], first, meant); }
    }
  }

  const EMPTY_VALUE := ['=', '\'', '\'', '\n']

  lemma FeedEmptyValue(l: Lexer)
    ensures FeedAll(l, EMPTY_VALUE).Some? ==>
              && Feed(l, '=').Some? && Feed(Feed(l, '=').value, '\'').Some?
              && Feed(Feed(Feed(l, '=').value, '\'').value, '\'').Some?
              && FeedAll(l, EMPTY_VALUE) == Feed(Feed(Feed(Feed(l, '=').value, '\'').value, '\'').value, '\n')
  {
    var a, b, c := ['='], ['=', '\''], ['=', '\'', '\''];
    assert EMPTY_VALUE[..3] == c && c[..2] == b && b[..1] == a;
    FeedOne(l, '=');
  }

  /** A word that lags behind is lost when an empty value follows. */
  lemma EmptyValueLoses(l: Lexer, first: string, meant: string)
    requires |meant| > 0 && Lags(l, first, meant, |meant| - 1, false)
    ensures FeedAll(l, EMPTY_VALUE).Some? ==> Lost(FeedAll(l, EMPTY_VALUE).value, first, meant)
  {
    FeedEmptyValue(l);
    if FeedAll(l, EMPTY_VALUE).Some? {
      var l1 := Feed(l, '=').value;
      var l2 := Feed(l1, '\'').value;
      var l3 := Feed(l2, '\'').value;
      if Off(l, first, meant) {
        OffStays(l, '=', first, meant);
        OffStays(l1, '\'', first, meant);
        OffStays(l2, '\'', first, meant);
        OffStays(l3, '\n', first, meant);
      } else {
        assert Behind(l1, first) && |Partial(l1)| < |meant| && (l1.mode.Bare? || l1.mode.Single?);
        assert Behind(l3, first) && Partial(l3) == Partial(l1) && l3.mode == l1.mode;
        EndsOff(l3, first, meant);
      }
    }
  }

  lemma LostAtEnd(l: Lexer, first: string, meant: string)
    requires Lost(l, first, meant) && meant != [] && meant[|meant| - 1] == '='
    ensures l.EndCommand().commands != [] ==> l.EndCommand().commands[0] != [first, meant]
  {
    if Off(l, first, meant) {
      if l.commands == [] { assert (l.args + [Partial(l)])[1] == l.args[1] && [first, meant][1] == meant; }
    } else {
      EndsOff(l, first, meant);
    }
  }

  // ---------- One app that tells ----------

  /** The name with an empty value, and nothing else stored. */
  function Telltale(name: string): App {
    App([(name, "")], "", "", "")
  }

  lemma NoAssignment()
    ensures '=' !in ClosingText(App([], "", "", ""))
  {
    var app := App([], "", "", "");
    WordsWithout([Fixed("cd")]);
    WordsWithout(ExecTokens(""));
    assert '=' !in Line([Fixed("cd")], Stored(""));
    assert '=' !in Line(ExecTokens(""), Stored(""));
  }

  lemma {:induction false} WordsWithout(ts: seq<Token>)
    requires forall t <- ts :: '=' !in Rendered(t)
    ensures '=' !in Words(ts)
  {
    if ts != [] { WordsWithout(ts[..|ts| - 1]); }
  }

  lemma TelltaleText(name: string)
    ensures Script(Telltale(name))
         == Words([Fixed("export")]) + (name + (EMPTY_VALUE + (['\n'] + ClosingText(App([], "", "", "")))))
  {
    TelltaleLine(name);
    EmptyAssignment(name);
    Regrouped(Words([Fixed("export")]), name, EMPTY_VALUE, ['\n'], ClosingText(App([], "", "", "")));
  }

  lemma TelltaleLine(name: string)
    ensures Script(Telltale(name)) == ExportLine((name, "")) + ClosingText(App([], "", "", ""))
  {
    OneLine(Telltale(name).env);
    SameClosing(name);
  }

  lemma OneLine(env: seq<(string, string)>)
    requires |env| == 1
    ensures ExportLines(env) == ExportLine(env[0])
  {
    assert env[..0] == [];
    NothingInFront(ExportLine(env[0]));
  }

  lemma NothingInFront(s: string)
    ensures [] + s == s
  {
  }

  lemma SameClosing(name: string)
    ensures ClosingText(Telltale(name)) == ClosingText(App([], "", "", ""))
  {
  }

  lemma Regrouped(a: string, b: string, c: string, d: string, e: string)
    ensures a + (b + (c + d)) + e == a + (b + (c + (d + e)))
  {
  }

  lemma EmptyAssignment(name: string)
    ensures ExportLine((name, "")) == Words([Fixed("export")]) + (name + (EMPTY_VALUE + ['\n']))
  {
    assert Quoted("") == ['\'', '\''];
    assert Rendered(Assign(name, "")) == name + ['=', '\'', '\''];
    assert ['=', '\'', '\''] + (['\n'] + ['\n']) == EMPTY_VALUE + ['\n'];
    assert name + ['=', '\'', '\''] + (['\n'] + ['\n']) == name + (EMPTY_VALUE + ['\n']);
  }

  lemma TelltaleFails(name: string)
    requires !PlainName(name)
    ensures !ReadsBack(Telltale(name))
  {
    var meant := name + "=";
    var closing := ['\n'] + ClosingText(App([], "", "", ""));
    var start := START.(args := ["export"]);
    TelltaleText(name);
    ExportStart(START);
    FeedConcat(START, Words([Fixed("export")]), name + (EMPTY_VALUE + closing));
    FeedConcat(start, name, EMPTY_VALUE + closing);
    NameLags(start, "export", meant, name);
    if FeedAll(start, name).Some? {
      var l1 := FeedAll(start, name).value;
      FeedConcat(l1, EMPTY_VALUE, closing);
      EmptyValueLoses(l1, "export", meant);
      if FeedAll(l1, EMPTY_VALUE).Some? {
        NoAssignment();
        LostForGood(FeedAll(l1, EMPTY_VALUE).value, closing, "export", meant);
        if FeedAll(START, Script(Telltale(name))).Some? {
          LostAtEnd(FeedAll(START, Script(Telltale(name))).value, "export", meant);
        }
      }
    }
    FirstMeant(name);
  }

  lemma FirstMeant(name: string)
    ensures MeantBy(Telltale(name)) != [] && MeantBy(Telltale(name))[0] == ["export", name + "="]
  {
    assert ExportCommands([(name, "")])[0] == ["export", name + "=" + ""];
    assert name + "=" + "" == name + "=";
  }

  /** All names of the app but this one are plain. */
  predicate OthersPlain(app: App, name: string) {
    forall i :: 0 <= i < |app.env| ==> app.env[i].0 == name || PlainName(app.env[i].0)
  }

  /** A name is safe to use, whatever else an app stores, if and only if it is
      made of plain characters. */
  lemma SafeNamesArePlain(name: string)
    ensures (forall app :: NoNul(app) && OthersPlain(app, name) ==> ReadsBack(app)) <==> PlainName(name)
  {
    if PlainName(name) {
      forall app | NoNul(app) && OthersPlain(app, name) ensures ReadsBack(app) { PlainReadsBack(app); }
    } else {
      TelltaleFails(name);
    }
  }
}
