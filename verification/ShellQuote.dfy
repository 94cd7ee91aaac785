/** Shell quoting of the run scripts, against the quoting rules of the shell:
    sections 2.2.1 (escape character) and 2.2.2 (single quotes) of the POSIX.1-2017
    Shell Command Language, with words split at blanks and commands at newlines. */
module ShellQuote {
  import opened Common

  // ---------- Reading a script ----------

  datatype Mode = Bare | Single | Escape

  /** The reader's position: the word and the command it is in, the commands it has seen. */
  datatype Lexer = Lexer(mode: Mode, word: Option<string>, args: seq<string>, commands: seq<seq<string>>) {

    function Append(c: char): Lexer {
      this.(word := Some((if word.Some? then word.value else "") + [c]))
    }

    function EndWord(): Lexer {
      if word.None? then this else this.(word := None, args := args + [word.value])
    }

    function EndCommand(): Lexer {
      var l := EndWord();
      if l.args == [] then l else l.(args := [], commands := l.commands + [l.args])
    }
  }

  /** Characters that section 2.2 has quoted to stand for themselves, and those it
      or the shell's brace expansion may give another meaning. */
  predicate Special(c: char) {
    || c == '|' || c == '&' || c == ';' || c == '<' || c == '>' || c == '(' || c == ')' || c == '$' || c == '`'
    || c == '\\' || c == '"' || c == '\'' || c == ' ' || c == '\t' || c == '\n'
    || c == '*' || c == '?' || c == '[' || c == '#' || c == '~' || c == '{' || c == '}'
  }

  /** Characters that stand for themselves outside quotes. */
  predicate Plain(c: char) { c != '\0' && !Special(c) }

  /** One character. A NUL cannot be in a script. Operators, expansions and
      comments are not read: the reader gives up on them. */
  function Feed(l: Lexer, c: char): Option<Lexer> {
    if c == '\0' then None
    else
      match l.mode
      case Single => if c == '\'' then Some(l.(mode := Bare)) else Some(l.Append(c))
      case Escape => Some((if c == '\n' then l else l.Append(c)).(mode := Bare))
      case Bare =>
        if c == '\'' then Some(l.(mode := Single, word := Some(if l.word.Some? then l.word.value else "")))
        else if c == '\\' then Some(l.(mode := Escape))
        else if c == ' ' || c == '\t' then Some(l.EndWord())
        else if c == '\n' then Some(l.EndCommand())
        else if Plain(c) then Some(l.Append(c))
        else None
  }

  function FeedAll(l: Lexer, s: string): Option<Lexer>
    decreases |s|
  {
    if s == [] then Some(l)
    else
      match FeedAll(l, s[..|s| - 1])
      case None => None
      case Some(l') => Feed(l', s[|s| - 1])
  }

  const START := Lexer(Bare, None, [], [])

  /** The commands of a script, each a list of words. */
  function Commands(script: string): Option<seq<seq<string>>> {
    match FeedAll(START, script)
    case None => None
    case Some(l) => if l.mode.Bare? then Some(l.EndCommand().commands) else None
  }

  lemma {:induction false} FeedConcat(l: Lexer, a: string, b: string)
    ensures FeedAll(l, a + b) ==
            match FeedAll(l, a)
            case None => None
            case Some(l') => FeedAll(l', b)
  {
    if b == [] {
      assert a + b == a;
    } else {
      assert (a + b)[..|a + b| - 1] == a + b[..|b| - 1];
      FeedConcat(l, a, b[..|b| - 1]);
    }
  }

  lemma FeedThen(l: Lexer, a: string, la: Lexer, b: string, lb: Lexer)
    requires FeedAll(l, a) == Some(la) && FeedAll(la, b) == Some(lb)
    ensures FeedAll(l, a + b) == Some(lb)
  {
    FeedConcat(l, a, b);
  }

  // ---------- Quoting ----------

  /** Every single quote becomes `'\''`. */
  function Escaped(s: string): string {
    if s == [] then []
    else Escaped(s[..|s| - 1]) + if s[|s| - 1] == '\'' then ['\'', '\\', '\'', '\''] else [s[|s| - 1]]
  }

  function Quoted(s: string): string {
    ['\''] + Escaped(s) + ['\'']
  }

  function Grown(word: Option<string>, s: string): Option<string> {
    Some((if word.Some? then word.value else "") + s)
  }

  lemma FeedOne(l: Lexer, c: char)
    ensures FeedAll(l, [c]) == Feed(l, c)
  {
    assert [c][..0] == [];
  }

  /** Inside single quotes an escaped quote adds one quote to the word. */
  lemma FeedEscapedQuote(l: Lexer)
    requires l.mode.Single? && l.word.Some?
    ensures FeedAll(l, ['\'', '\\', '\'', '\'']) == Some(l.(word := Grown(l.word, ['\''])))
  {
    var a, b := ['\'', '\\'], ['\'', '\''];
    FeedConcat(l, a, b);
    assert a + b == ['\'', '\\', '\'', '\''];
    FeedConcat(l, ['\''], ['\\']);
    assert ['\''] + ['\\'] == a;
    var l1 := l.(mode := Bare);
    FeedOne(l, '\'');
    FeedOne(l1, '\\');
    var l2 := l1.(mode := Escape);
    FeedConcat(l2, ['\''], ['\'']);
    assert ['\''] + ['\''] == b;
    FeedOne(l2, '\'');
    FeedOne(l2.Append('\'').(mode := Bare), '\'');
  }

  lemma {:induction false} FeedEscaped(l: Lexer, s: string)
    requires l.mode.Single? && l.word.Some?
    ensures FeedAll(l, Escaped(s)) == if '\0' in s then None else Some(l.(word := Grown(l.word, s)))
    decreases |s|
  {
    if s == [] {
      assert l.word.value + s == l.word.value;
    } else {
      var front, c := s[..|s| - 1], s[|s| - 1];
      var piece := if c == '\'' then ['\'', '\\', '\'', '\''] else [c];
      assert s == front + [c];
      FeedEscaped(l, front);
      FeedConcat(l, Escaped(front), piece);
      if '\0' !in front {
        var l' := l.(word := Grown(l.word, front));
        if c == '\'' { FeedEscapedQuote(l'); } else { FeedOne(l', c); }
        assert l.word.value + front + [c] == l.word.value + s;
      }
    }
  }

  /** Reading a quoted string back adds exactly that string to the word, and
      works exactly for strings without NUL. */
  lemma QuotingRoundTrip(l: Lexer, s: string)
    requires l.mode.Bare?
    ensures FeedAll(l, Quoted(s)) == if '\0' in s then None else Some(l.(word := Grown(l.word, s)))
  {
    var inside := l.(mode := Single, word := Some(if l.word.Some? then l.word.value else ""));
    FeedOne(l, '\'');
    FeedConcat(l, ['\''], Escaped(s));
    FeedConcat(l, ['\''] + Escaped(s), ['\'']);
    FeedEscaped(inside, s);
    if '\0' !in s { FeedOne(inside.(word := Grown(inside.word, s)), '\''); }
  }

  // ---------- The run script ----------

  predicate PlainWord(w: string) {
    w != [] && forall i :: 0 <= i < |w| ==> Plain(w[i])
  }

  predicate PlainName(name: string) {
    forall c <- name :: Plain(c)
  }

  lemma {:induction false} FeedPlain(l: Lexer, w: string)
    requires l.mode.Bare? && forall i :: 0 <= i < |w| ==> Plain(w[i])
    ensures FeedAll(l, w) == Some(if w == [] then l else l.(word := Grown(l.word, w)))
    decreases |w|
  {
    if w != [] {
      var front, c := w[..|w| - 1], w[|w| - 1];
      FeedPlain(l, front);
      assert w == front + [c];
      assert (if l.word.Some? then l.word.value else "") + front + [c] == (if l.word.Some? then l.word.value else "") + w;
      if front == [] && l.word.None? { assert "" + [c] == "" + w; }
    }
  }

  /** The reader is between words. */
  predicate Between(l: Lexer) {
    l.mode.Bare? && l.word.None?
  }

  /** A word of a rendered line: fixed text, a stored string, or an assignment. */
  datatype Token = Fixed(text: string) | Stored(value: string) | Assign(name: string, value: string)

  function Rendered(t: Token): string {
    match t
    case Fixed(text) => text
    case Stored(value) => Quoted(value)
    case Assign(name, value) => name + "=" + Quoted(value)
  }

  /** The word the shell is to see. */
  function Meant(t: Token): string {
    match t
    case Fixed(text) => text
    case Stored(value) => value
    case Assign(name, value) => name + "=" + value
  }

  predicate Safe(t: Token) {
    match t
    case Fixed(text) => PlainWord(text)
    case Stored(value) => '\0' !in value
    case Assign(name, value) => PlainName(name) && '\0' !in value
  }

  lemma FeedToken(l: Lexer, t: Token)
    requires Between(l) && Safe(t)
    ensures FeedAll(l, Rendered(t)) == Some(l.(word := Some(Meant(t))))
  {
    match t
    case Fixed(text) =>
      FeedPlain(l, text);
      assert "" + text == text;
    case Stored(value) =>
      QuotingRoundTrip(l, value);
      assert "" + value == value;
    case Assign(name, value) =>
      FeedPlain(l, name + "=");
      assert "" + (name + "=") == name + "=";
      FeedConcat(l, name + "=", Quoted(value));
      QuotingRoundTrip(l.(word := Some(name + "=")), value);
  }

  /** Words followed by a space each. */
  function Words(ts: seq<Token>): string {
    if ts == [] then [] else Words(ts[..|ts| - 1]) + (Rendered(ts[|ts| - 1]) + [' '])
  }

  function AllMeant(ts: seq<Token>): seq<string> {
    seq(|ts|, i requires 0 <= i < |ts| => Meant(ts[i]))
  }

  predicate AllSafe(ts: seq<Token>) {
    forall i :: 0 <= i < |ts| ==> Safe(ts[i])
  }

  lemma {:induction false} FeedWords(l: Lexer, ts: seq<Token>)
    requires Between(l) && AllSafe(ts)
    ensures FeedAll(l, Words(ts)) == Some(l.(args := l.args + AllMeant(ts)))
    decreases |ts|
  {
    if ts == [] {
      assert l.args + AllMeant(ts) == l.args;
    } else {
      var front, t := ts[..|ts| - 1], ts[|ts| - 1];
      var l' := l.(args := l.args + AllMeant(front));
      FeedWords(l, front);
      FeedSpaced(l', t);
      FeedThen(l, Words(front), l', Rendered(t) + [' '], l'.(args := l'.args + [Meant(t)]));
      AllMeantNext(l.args, ts);
    }
  }

  lemma AllMeantNext(args: seq<string>, ts: seq<Token>)
    requires ts != []
    ensures args + AllMeant(ts[..|ts| - 1]) + [Meant(ts[|ts| - 1])] == args + AllMeant(ts)
  {
    assert AllMeant(ts) == AllMeant(ts[..|ts| - 1]) + [Meant(ts[|ts| - 1])];
  }

  lemma FeedSpaced(l: Lexer, t: Token)
    requires Between(l) && Safe(t)
    ensures FeedAll(l, Rendered(t) + [' ']) == Some(l.(args := l.args + [Meant(t)]))
  {
    FeedToken(l, t);
    FeedOne(l.(word := Some(Meant(t))), ' ');
    FeedConcat(l, Rendered(t), [' ']);
  }

  /** A rendered line ends in two newlines. */
  function Line(ts: seq<Token>, last: Token): string {
    Words(ts) + (Rendered(last) + (['\n'] + ['\n']))
  }

  /** The shell reads one command with exactly the words that were meant. */
  lemma FeedLine(l: Lexer, ts: seq<Token>, last: Token)
    requires Between(l) && l.args == [] && AllSafe(ts) && Safe(last)
    ensures FeedAll(l, Line(ts, last)) == Some(l.(commands := l.commands + [AllMeant(ts) + [Meant(last)]]))
  {
    var l1 := l.(args := AllMeant(ts));
    var l2 := l1.(word := Some(Meant(last)));
    var l3 := l.(commands := l.commands + [AllMeant(ts) + [Meant(last)]]);
    FeedWords(l, ts);
    assert [] + AllMeant(ts) == AllMeant(ts);
    FeedToken(l1, last);
    FeedEnd(l2);
    FeedThen(l1, Rendered(last), l2, ['\n'] + ['\n'], l3);
    FeedThen(l, Words(ts), l1, Rendered(last) + (['\n'] + ['\n']), l3);
  }

  lemma FeedEnd(l: Lexer)
    requires l.mode.Bare? && l.word.Some?
    ensures FeedAll(l, ['\n'] + ['\n']) == Some(Lexer(Bare, None, [], l.commands + [l.args + [l.word.value]]))
  {
    FeedOne(l, '\n');
    FeedOne(l.EndCommand(), '\n');
    FeedConcat(l, ['\n'], ['\n']);
  }

  datatype App = App(env: seq<(string, string)>, directory: string, user: string, command: string)

  predicate PlainNames(env: seq<(string, string)>) {
    forall i :: 0 <= i < |env| ==> PlainName(env[i].0)
  }

  /** No stored string holds a NUL. */
  predicate NoNul(app: App) {
    && '\0' !in app.directory && '\0' !in app.user && '\0' !in app.command
    && forall i :: 0 <= i < |app.env| ==> '\0' !in app.env[i].1
  }

  function ExportCommands(env: seq<(string, string)>): seq<seq<string>> {
    seq(|env|, i requires 0 <= i < |env| => ["export", env[i].0 + "=" + env[i].1])
  }

  function ExecTokens(user: string): seq<Token> {
    [Fixed("exec"), Fixed("/command/s6-setuidgid"), Stored(user), Fixed("bash"), Fixed("-c")]
  }

  lemma FixedWords()
    ensures PlainWord("cd") && PlainWord("export")
    ensures PlainWord("exec") && PlainWord("/command/s6-setuidgid") && PlainWord("bash") && PlainWord("-c")
  {
  }

  function ExportLine(entry: (string, string)): string {
    Line([Fixed("export")], Assign(entry.0, entry.1))
  }

  function ExportLines(env: seq<(string, string)>): string {
    if env == [] then [] else ExportLines(env[..|env| - 1]) + ExportLine(env[|env| - 1])
  }

  function ClosingText(app: App): string {
    Line([Fixed("cd")], Stored(app.directory)) + Line(ExecTokens(app.user), Stored(app.command))
  }

  /** The part of the script that depends on the app. */
  function Script(app: App): string {
    ExportLines(app.env) + ClosingText(app)
  }

  /** One export per variable, then a change to exactly that directory, then
      exactly that command run as exactly that user. */
  function MeantBy(app: App): seq<seq<string>> {
    ExportCommands(app.env)
    + [["cd", app.directory]]
    + [["exec", "/command/s6-setuidgid", app.user, "bash", "-c", app.command]]
  }

  predicate ReadsBack(app: App) {
    Commands(Script(app)) == Some(MeantBy(app))
  }

  /** With plain names the shell reads back what is meant, if and only if no
      stored string holds a NUL. */
  method RenderRun(app: App) returns (script: string)
    ensures script == Script(app)
    ensures PlainNames(app.env) ==> (Commands(script) == Some(MeantBy(app)) <==> NoNul(app))
  {
    script := [];
    for i := 0 to |app.env|
      invariant script == ExportLines(app.env[..i])
    {
      ExportLinesNext(app.env, i);
      script := script + ExportLine(app.env[i]);
    }
    assert app.env[..|app.env|] == app.env;
    var cd := Line([Fixed("cd")], Stored(app.directory));
    var exec := Line(ExecTokens(app.user), Stored(app.command));
    script := script + (cd + exec);
    if PlainNames(app.env) { PlainReadsBack(app); }
  }

  lemma ExportLinesNext(env: seq<(string, string)>, i: nat)
    requires i < |env|
    ensures ExportLines(env[..i + 1]) == ExportLines(env[..i]) + ExportLine(env[i])
  {
    assert env[..i + 1][..i] == env[..i];
  }

  lemma PlainReadsBack(app: App)
    requires PlainNames(app.env)
    ensures ReadsBack(app) <==> NoNul(app)
  {
    if NoNul(app) {
      FeedExports(app.env);
      ClosingLines(ExportLines(app.env), app);
    } else {
      NulShows(app);
      NulStops(START, Script(app));
    }
  }

  // ---------- A NUL ----------

  lemma {:induction false} NulStops(l: Lexer, s: string)
    requires '\0' in s
    ensures FeedAll(l, s) == None
    decreases |s|
  {
    if s[|s| - 1] != '\0' {
      assert s == s[..|s| - 1] + [s[|s| - 1]];
      NulStops(l, s[..|s| - 1]);
    }
  }

  lemma {:induction false} NulEscaped(s: string)
    requires '\0' in s
    ensures '\0' in Quoted(s)
  {
    assert s == s[..|s| - 1] + [s[|s| - 1]];
    if s[|s| - 1] != '\0' { NulEscaped(s[..|s| - 1]); }
  }

  lemma NulInLine(ts: seq<Token>, last: Token)
    requires (last.Stored? || last.Assign?) && '\0' in last.value
    ensures '\0' in Line(ts, last)
  {
    NulEscaped(last.value);
    assert '\0' in Rendered(last);
    assert '\0' in Rendered(last) + (['\n'] + ['\n']);
  }

  lemma NulInWords(ts: seq<Token>, i: nat)
    requires i < |ts| && ts[i].Stored? && '\0' in ts[i].value
    ensures '\0' in Words(ts)
  {
    if i == |ts| - 1 {
      NulEscaped(ts[i].value);
      assert '\0' in Rendered(ts[i]) + [' '];
    } else {
      NulInWords(ts[..|ts| - 1], i);
    }
  }

  lemma {:induction false} NulInExports(env: seq<(string, string)>, i: nat)
    requires i < |env| && '\0' in env[i].1
    ensures '\0' in ExportLines(env)
    decreases |env|
  {
    if i == |env| - 1 { NulInLine([Fixed("export")], Assign(env[i].0, env[i].1)); }
    else { NulInExports(env[..|env| - 1], i); }
  }

  lemma NulShows(app: App)
    requires !NoNul(app)
    ensures '\0' in Script(app)
  {
    var cd, exec := Line([Fixed("cd")], Stored(app.directory)), Line(ExecTokens(app.user), Stored(app.command));
    if '\0' in app.directory {
      NulInLine([Fixed("cd")], Stored(app.directory));
      assert '\0' in cd + exec;
    } else if '\0' in app.user {
      assert ExecTokens(app.user)[2] == Stored(app.user);
      NulInWords(ExecTokens(app.user), 2);
      assert '\0' in exec;
      assert '\0' in cd + exec;
    } else if '\0' in app.command {
      NulInLine(ExecTokens(app.user), Stored(app.command));
      assert '\0' in cd + exec;
    } else {
      var i :| 0 <= i < |app.env| && '\0' in app.env[i].1;
      NulInExports(app.env, i);
    }
  }

  // ---------- Reading back ----------

  lemma FeedExport(l: Lexer, name: string, value: string)
    requires Between(l) && l.args == [] && PlainName(name) && '\0' !in value
    ensures FeedAll(l, Line([Fixed("export")], Assign(name, value)))
         == Some(l.(commands := l.commands + [["export", name + "=" + value]]))
  {
    FixedWords();
    FeedLine(l, [Fixed("export")], Assign(name, value));
    assert AllMeant([Fixed("export")]) + [Meant(Assign(name, value))] == ["export", name + "=" + value];
  }

  lemma {:induction false} FeedExports(env: seq<(string, string)>)
    requires PlainNames(env) && forall i :: 0 <= i < |env| ==> '\0' !in env[i].1
    ensures FeedAll(START, ExportLines(env)) == Some(START.(commands := ExportCommands(env)))
    decreases |env|
  {
    if env == [] {
      assert ExportCommands(env) == [];
    } else {
      var before, name, value := env[..|env| - 1], env[|env| - 1].0, env[|env| - 1].1;
      var l := START.(commands := ExportCommands(before));
      FeedExports(before);
      FeedExport(l, name, value);
      ExportCommandsNext(env);
      FeedThen(START, ExportLines(before), l, ExportLine(env[|env| - 1]), START.(commands := ExportCommands(env)));
    }
  }

  lemma ExportCommandsNext(env: seq<(string, string)>)
    requires env != []
    ensures var entry := env[|env| - 1];
            ExportCommands(env) == ExportCommands(env[..|env| - 1]) + [["export", entry.0 + "=" + entry.1]]
  {
  }

  lemma FeedCd(l: Lexer, directory: string)
    requires Between(l) && l.args == [] && '\0' !in directory
    ensures FeedAll(l, Line([Fixed("cd")], Stored(directory)))
         == Some(l.(commands := l.commands + [["cd", directory]]))
  {
    FixedWords();
    FeedLine(l, [Fixed("cd")], Stored(directory));
    assert AllMeant([Fixed("cd")]) + [directory] == ["cd", directory];
  }

  lemma FeedExec(l: Lexer, user: string, command: string)
    requires Between(l) && l.args == [] && '\0' !in user && '\0' !in command
    ensures FeedAll(l, Line(ExecTokens(user), Stored(command)))
         == Some(l.(commands := l.commands + [["exec", "/command/s6-setuidgid", user, "bash", "-c", command]]))
  {
    FixedWords();
    FeedLine(l, ExecTokens(user), Stored(command));
    assert AllMeant(ExecTokens(user)) + [command]
        == ["exec", "/command/s6-setuidgid", user, "bash", "-c", command];
  }

  lemma TwoLines(script: string, l: Lexer, a: string, first: seq<string>, b: string, second: seq<string>)
    requires FeedAll(START, script) == Some(l) && Between(l) && l.args == []
    requires FeedAll(l, a) == Some(l.(commands := l.commands + [first]))
    requires FeedAll(l.(commands := l.commands + [first]), b) == Some(l.(commands := l.commands + [first] + [second]))
    ensures Commands(script + (a + b)) == Some(l.commands + [first] + [second])
  {
    var l1, l2 := l.(commands := l.commands + [first]), l.(commands := l.commands + [first] + [second]);
    FeedThen(l, a, l1, b, l2);
    FeedThen(START, script, l, a + b, l2);
  }

  lemma ClosingLines(script: string, app: App)
    requires NoNul(app) && FeedAll(START, script) == Some(START.(commands := ExportCommands(app.env)))
    ensures Commands(script + ClosingText(app)) == Some(MeantBy(app))
  {
    var l := START.(commands := ExportCommands(app.env));
    FeedCd(l, app.directory);
    FeedExec(l.(commands := l.commands + [["cd", app.directory]]), app.user, app.command);
    TwoLines(script, l, Line([Fixed("cd")], Stored(app.directory)), ["cd", app.directory],
             Line(ExecTokens(app.user), Stored(app.command)),
             ["exec", "/command/s6-setuidgid", app.user, "bash", "-c", app.command]);
  }

  // ---------- Names that are not plain ----------

  /** Newlines in a name make a command of what stands between them. */
  lemma NameInjectsCommand(l: Lexer, a: string, injected: string, b: string, value: string)
    requires Between(l) && l.args == [] && '\0' !in value
    requires PlainWord(a) && PlainWord(injected) && PlainName(b)
    ensures FeedAll(l, ExportLine((a + ['\n'] + injected + ['\n'] + b, value)))
         == Some(l.(commands := l.commands + [["export"] + [a]] + [[injected]] + [[b + "=" + value]]))
  {
    InjectedText(a, injected, b, value);
    ExportStart(l);
    var l3 := l.(commands := l.commands + [["export"] + [a]] + [[injected]]);
    LastAssignment(l3, b, value, l3.(commands := l3.commands + [[b + "=" + value]]));
    InjectChain(l, Words([Fixed("export")]), ["export"], a, injected,
                Rendered(Assign(b, value)) + (['\n'] + ['\n']), b + "=" + value);
  }

  lemma InjectChain(l: Lexer, start: string, args: seq<string>, a: string, injected: string, rest: string, last: string)
    requires Between(l) && l.args == [] && PlainWord(a) && PlainWord(injected)
    requires FeedAll(l, start) == Some(l.(args := args))
    requires var l3 := l.(commands := l.commands + [args + [a]] + [[injected]]);
             FeedAll(l3, rest) == Some(l3.(commands := l3.commands + [[last]]))
    ensures FeedAll(l, start + (a + ['\n'] + (injected + ['\n'] + rest)))
         == Some(l.(commands := l.commands + [args + [a]] + [[injected]] + [[last]]))
  {
    var l1, l2 := l.(args := args), l.(commands := l.commands + [args + [a]]);
    var l3 := l.(commands := l2.commands + [[injected]]);
    WordAndBreak(l1, a, l2);
    assert [] + [injected] == [injected];
    WordAndBreak(l2, injected, l3);
    FeedFour(l, start, l1, a + ['\n'], l2, injected + ['\n'], l3, rest, l3.(commands := l3.commands + [[last]]));
  }

  lemma InjectedText(a: string, injected: string, b: string, value: string)
    ensures ExportLine((a + ['\n'] + injected + ['\n'] + b, value))
         == Words([Fixed("export")])
            + (a + ['\n'] + (injected + ['\n'] + (Rendered(Assign(b, value)) + (['\n'] + ['\n']))))
  {
    var name := a + ['\n'] + injected + ['\n'] + b;
    Regroup(a + ['\n'], injected + ['\n'], b, "=", Quoted(value), ['\n'] + ['\n']);
    assert name == (a + ['\n']) + (injected + ['\n']) + b;
  }

  lemma Regroup(a: string, b: string, c: string, d: string, e: string, f: string)
    ensures a + b + c + d + e + f == a + (b + (c + d + e + f))
  {
  }

  lemma LastAssignment(l: Lexer, name: string, value: string, l': Lexer)
    requires Between(l) && l.args == [] && PlainName(name) && '\0' !in value
    requires l' == l.(commands := l.commands + [[name + "=" + value]])
    ensures FeedAll(l, Rendered(Assign(name, value)) + (['\n'] + ['\n'])) == Some(l')
  {
    var l1 := l.(word := Some(name + "=" + value));
    FeedToken(l, Assign(name, value));
    FeedEnd(l1);
    assert [] + [name + "=" + value] == [name + "=" + value];
    FeedThen(l, Rendered(Assign(name, value)), l1, ['\n'] + ['\n'], l');
  }

  lemma FeedFour(l: Lexer, a: string, l1: Lexer, b: string, l2: Lexer, c: string, l3: Lexer, d: string, l4: Lexer)
    requires FeedAll(l, a) == Some(l1) && FeedAll(l1, b) == Some(l2)
    requires FeedAll(l2, c) == Some(l3) && FeedAll(l3, d) == Some(l4)
    ensures FeedAll(l, a + (b + (c + d))) == Some(l4)
  {
    FeedThen(l2, c, l3, d, l4);
    FeedThen(l1, b, l2, c + d, l4);
    FeedThen(l, a, l1, b + (c + d), l4);
  }

  lemma ExportStart(l: Lexer)
    requires Between(l) && l.args == []
    ensures FeedAll(l, Words([Fixed("export")])) == Some(l.(args := ["export"]))
  {
    FixedWords();
    FeedWords(l, [Fixed("export")]);
    assert [] + AllMeant([Fixed("export")]) == ["export"];
  }

  lemma WordAndBreak(l: Lexer, w: string, l': Lexer)
    requires Between(l) && PlainWord(w) && l' == l.(args := [], commands := l.commands + [l.args + [w]])
    ensures FeedAll(l, w + ['\n']) == Some(l')
  {
    FeedPlain(l, w);
    assert "" + w == w;
    FeedOne(l.(word := Some(w)), '\n');
    FeedThen(l, w, l.(word := Some(w)), ['\n'], l');
  }
}
