/** The s6 service bundles: one directory per runtime-managed app, brought in
    line with the app table by a sync that prunes and rewrites. */
module Bundles {
  import opened Common
  import ShellQuote

  /** The entries of a bundle that a sync manages, and all others. */
  datatype Part = TypeFile | Dependencies | Base | TimeoutKill | RunScript | FinishScript | Other(name: string)

  datatype Node = File(content: string, mode: nat) | Dir(entries: map<Part, Node>)

  /** What a sync reads of an app; `run` is its run script (see `AppOf`). */
  datatype App = App(name: string, runtime: bool, restart: string, run: string)

  type Nodes = map<string, Node>

  const PLAIN := 0x1A4      // 0644
  const EXECUTABLE := 0x1ED // 0755

  const LONGRUN := "longrun\n"
  const GRACE := "10000\n"
  const DOWN := "#!/bin/bash\nexec /command/s6-svc -d .\n"
  const DOWN_IF_CLEAN := "#!/bin/bash\nif [ \"$1\" = \"0\" ]; then exec /command/s6-svc -d .; fi\nexit 0\n"

  predicate Always(app: App) { app.restart == "always" }

  function Finish(app: App): string {
    if app.restart == "on_failure" then DOWN_IF_CLEAN else DOWN
  }

  // ---------- Writing files ----------

  predicate DirAt(entries: map<Part, Node>, part: Part) { part in entries && entries[part].Dir? }

  predicate FileAt(entries: map<Part, Node>, part: Part) { part in entries && entries[part].File? }

  predicate Reads(entries: map<Part, Node>, part: Part, content: string) {
    FileAt(entries, part) && entries[part].content == content
  }

  /** Overwriting keeps the mode of a file that is there. */
  function Put(entries: map<Part, Node>, part: Part, content: string): map<Part, Node> {
    entries[part := File(content, if FileAt(entries, part) then entries[part].mode else PLAIN)]
  }

  function PutExecutable(entries: map<Part, Node>, part: Part, content: string): map<Part, Node> {
    entries[part := File(content, EXECUTABLE)]
  }

  function Under(entries: map<Part, Node>, part: Part): map<Part, Node> {
    if DirAt(entries, part) then entries[part].entries else map[]
  }

  /** Nothing of the wrong kind is in the way of the bundle's files. */
  predicate Fits(entries: map<Part, Node>, app: App) {
    && !FileAt(entries, Dependencies) && !DirAt(Under(entries, Dependencies), Base)
    && !DirAt(entries, TypeFile) && !DirAt(entries, TimeoutKill) && !DirAt(entries, RunScript)
    && (Always(app) || !DirAt(entries, FinishScript))
  }

  function WithFinish(entries: map<Part, Node>, app: App): map<Part, Node> {
    if !Always(app) then PutExecutable(entries, FinishScript, Finish(app))
    else if FileAt(entries, FinishScript) then entries - {FinishScript}
    else entries
  }

  function Written(entries: map<Part, Node>, app: App): map<Part, Node> {
    var made := entries[Dependencies := Dir(Under(entries, Dependencies))];
    var typed := Put(made, TypeFile, LONGRUN);
    var based := typed[Dependencies := Dir(Put(Under(typed, Dependencies), Base, ""))];
    var timed := Put(based, TimeoutKill, GRACE);
    WithFinish(PutExecutable(timed, RunScript, app.run), app)
  }

  /** The bundle is what the app table asks for; a finish file is there exactly
      if the app is not always restarted. */
  predicate Holds(entries: map<Part, Node>, app: App) {
    && DirAt(entries, Dependencies) && Reads(Under(entries, Dependencies), Base, "")
    && Reads(entries, TypeFile, "longrun\n") && Reads(entries, TimeoutKill, "10000\n")
    && Reads(entries, RunScript, app.run) && entries[RunScript].mode == 0x1ED
    && (FileAt(entries, FinishScript) <==> app.restart != "always")
    && (FileAt(entries, FinishScript) ==> entries[FinishScript].mode == 0x1ED)
    && (app.restart == "on_failure" ==>
          Reads(entries, FinishScript,
                "#!/bin/bash\nif [ \"$1\" = \"0\" ]; then exec /command/s6-svc -d .; fi\nexit 0\n"))
    && (app.restart != "on_failure" && app.restart != "always" ==>
          Reads(entries, FinishScript, "#!/bin/bash\nexec /command/s6-svc -d .\n"))
  }

  /** Writing a bundle where it fits makes it hold and leaves alone what it does not manage. */
  lemma WrittenHolds(entries: map<Part, Node>, app: App)
    requires Fits(entries, app)
    ensures Holds(Written(entries, app), app)
    ensures forall part: Part :: part.Other? || part == Base ==>
              (part in entries <==> part in Written(entries, app))
              && (part in entries ==> Written(entries, app)[part] == entries[part])
  {
  }

  lemma PutSame(entries: map<Part, Node>, part: Part, content: string)
    requires Reads(entries, part, content)
    ensures Put(entries, part, content) == entries
  {
  }

  /** A bundle that holds fits and is not changed by writing, and no other bundle is. */
  lemma WrittenFixed(entries: map<Part, Node>, app: App)
    ensures Holds(entries, app) <==> Fits(entries, app) && Written(entries, app) == entries
  {
    if Holds(entries, app) {
      assert entries[Dependencies := Dir(Under(entries, Dependencies))] == entries;
      PutSame(entries, TypeFile, LONGRUN);
      PutSame(Under(entries, Dependencies), Base, "");
      PutSame(entries, TimeoutKill, GRACE);
      assert PutExecutable(entries, RunScript, app.run) == entries;
      assert WithFinish(entries, app) == entries;
    } else if Fits(entries, app) {
      WrittenHolds(entries, app);
    }
  }

  // ---------- The whole directory ----------

  /** Some runtime-managed app goes by this name. */
  predicate Managed(apps: seq<App>, name: string) {
    exists i :: 0 <= i < |apps| && apps[i].name == name && apps[i].runtime
  }

  /** The name is the primary key of the app table. */
  predicate Keyed(apps: seq<App>) {
    forall i, j :: 0 <= i < j < |apps| ==> apps[i].name != apps[j].name
  }

  function EntriesOf(nodes: Nodes, name: string): map<Part, Node> {
    if name in nodes && nodes[name].Dir? then nodes[name].entries else map[]
  }

  predicate Writable(nodes: Nodes, app: App) {
    !(app.name in nodes && nodes[app.name].File?) && Fits(EntriesOf(nodes, app.name), app)
  }

  /** A file stands where a directory is to be, or a directory where a file is to be. */
  predicate Blocked(nodes: Nodes, app: App) {
    app.name in nodes &&
    match nodes[app.name]
    case File(_, _) => true
    case Dir(entries) =>
      || FileAt(entries, Dependencies)
      || (DirAt(entries, Dependencies) && DirAt(entries[Dependencies].entries, Base))
      || DirAt(entries, TypeFile) || DirAt(entries, TimeoutKill) || DirAt(entries, RunScript)
      || (app.restart != "always" && DirAt(entries, FinishScript))
  }

  lemma WritableIff(nodes: Nodes, app: App)
    ensures Writable(nodes, app) <==> !Blocked(nodes, app)
  {
  }

  /** What pruning leaves: plain files, and the directories of managed apps. */
  function Pruned(nodes: Nodes, apps: seq<App>): Nodes {
    map name | name in nodes && (nodes[name].File? || Managed(apps, name)) :: nodes[name]
  }

  predicate SameAt(a: Nodes, b: Nodes, name: string) {
    (name in a <==> name in b) && (name in a ==> a[name] == b[name])
  }

  /** The bundles of the runtime apps, one after the other, until one cannot be written. */
  function WriteAll(nodes: Nodes, apps: seq<App>): Option<Nodes>
    decreases |apps|
  {
    if apps == [] then Some(nodes)
    else if !apps[0].runtime then WriteAll(nodes, apps[1..])
    else if !Writable(nodes, apps[0]) then None
    else WriteAll(nodes[apps[0].name := Dir(Written(EntriesOf(nodes, apps[0].name), apps[0]))], apps[1..])
  }

  /** The writes of one bundle, in order, up to the first that fails. */
  method Fill(entries: map<Part, Node>, app: App) returns (ok: bool, e: map<Part, Node>)
    ensures ok == Fits(entries, app)
    ensures ok ==> e == Written(entries, app)
  {
    e := entries;
    if FileAt(e, Dependencies) { return false, e; }
    e := e[Dependencies := Dir(Under(e, Dependencies))];
    if DirAt(e, TypeFile) { return false, e; }
    e := Put(e, TypeFile, LONGRUN);
    if DirAt(Under(e, Dependencies), Base) { return false, e; }
    e := e[Dependencies := Dir(Put(Under(e, Dependencies), Base, ""))];
    if DirAt(e, TimeoutKill) { return false, e; }
    e := Put(e, TimeoutKill, GRACE);
    if DirAt(e, RunScript) { return false, e; }
    e := PutExecutable(e, RunScript, app.run);
    if !Always(app) {
      if DirAt(e, FinishScript) { return false, e; }
      e := PutExecutable(e, FinishScript, Finish(app));
    } else if FileAt(e, FinishScript) {
      e := e - {FinishScript};
    }
    return true, e;
  }

  class S6Directory {
    var nodes: Nodes

    constructor (start: Nodes)
      ensures nodes == start
    {
      nodes := start;
    }

    method Prune(apps: seq<App>)
      modifies this
      ensures nodes == Pruned(old(nodes), apps)
    {
      var todo := nodes.Keys;
      while todo != {}
        invariant todo <= nodes.Keys <= old(nodes).Keys
        invariant forall name <- nodes :: nodes[name] == old(nodes)[name]
        invariant forall name <- old(nodes) :: name in todo || (name in nodes <==> name in Pruned(old(nodes), apps))
        decreases todo
      {
        var name :| name in todo;
        if nodes[name].Dir? && !Managed(apps, name) {
          nodes := nodes - {name};
        }
        todo := todo - {name};
      }
      assert nodes.Keys == Pruned(old(nodes), apps).Keys;
    }

    /** A bundle that cannot be written is left half-written. */
    method WriteBundle(app: App) returns (ok: bool)
      modifies this
      ensures ok == Writable(old(nodes), app) == !Blocked(old(nodes), app)
      ensures ok ==> nodes == old(nodes)[app.name := Dir(Written(EntriesOf(old(nodes), app.name), app))]
      ensures forall other | other != app.name :: SameAt(nodes, old(nodes), other)
      ensures !ok && app.name in old(nodes) && old(nodes)[app.name].File? ==> nodes == old(nodes)
    {
      WritableIff(nodes, app);
      if app.name in nodes && nodes[app.name].File? { return false; }
      var entries;
      ok, entries := Fill(EntriesOf(nodes, app.name), app);
      nodes := nodes[app.name := Dir(entries)];
    }

    /** Prune, then write every bundle. */
    method Sync(apps: seq<App>) returns (ok: bool)
      modifies this
      ensures ok == WriteAll(Pruned(old(nodes), apps), apps).Some?
      ensures ok ==> Some(nodes) == WriteAll(Pruned(old(nodes), apps), apps)
      ensures forall name | !Managed(apps, name) :: SameAt(nodes, Pruned(old(nodes), apps), name)
    {
      Prune(apps);
      for i := 0 to |apps|
        invariant forall name | !Managed(apps, name) :: SameAt(nodes, Pruned(old(nodes), apps), name)
        invariant WriteAll(nodes, apps[i..]) == WriteAll(Pruned(old(nodes), apps), apps)
      {
        assert apps[i..][1..] == apps[i + 1..];
        if apps[i].runtime {
          assert Managed(apps, apps[i].name);
          ghost var before := nodes;
          var written := WriteBundle(apps[i]);
          forall name | !Managed(apps, name) ensures SameAt(nodes, Pruned(old(nodes), apps), name) {
            assert SameAt(nodes, before, name);
          }
          if !written { return false; }
        }
      }
      return true;
    }
  }

  // ---------- What a sync achieves ----------

  function Sync(nodes: Nodes, apps: seq<App>): Option<Nodes> {
    WriteAll(Pruned(nodes, apps), apps)
  }

  /** The node of the app's name after writing its bundle. */
  predicate BundleWritten(before: Nodes, after: Nodes, app: App) {
    app.name in after && after[app.name] == Dir(Written(EntriesOf(before, app.name), app))
  }

  lemma ManagedMore(apps: seq<App>, name: string)
    requires apps != []
    ensures Managed(apps, name) <==> (apps[0].runtime && apps[0].name == name) || Managed(apps[1..], name)
  {
    if Managed(apps[1..], name) {
      var i :| 0 <= i < |apps[1..]| && apps[1..][i].name == name && apps[1..][i].runtime;
      assert apps[i + 1].name == name;
    }
    if Managed(apps, name) && !(apps[0].runtime && apps[0].name == name) {
      var i :| 0 <= i < |apps| && apps[i].name == name && apps[i].runtime;
      assert apps[1..][i - 1].name == name;
    }
  }

  lemma WritableElsewhere(nodes: Nodes, name: string, node: Node, app: App)
    requires app.name != name
    ensures Writable(nodes[name := node], app) == Writable(nodes, app)
    ensures EntriesOf(nodes[name := node], app.name) == EntriesOf(nodes, app.name)
  {
  }

  /** Writing one bundle leaves the other apps' directories as they are. */
  lemma OthersElsewhere(nodes: Nodes, node: Node, apps: seq<App>)
    requires Keyed(apps) && apps != []
    ensures forall app <- apps[1..] ::
              && app.name != apps[0].name
              && Writable(nodes[apps[0].name := node], app) == Writable(nodes, app)
              && EntriesOf(nodes[apps[0].name := node], app.name) == EntriesOf(nodes, app.name)
  {
    forall app <- apps[1..]
      ensures && app.name != apps[0].name
              && Writable(nodes[apps[0].name := node], app) == Writable(nodes, app)
              && EntriesOf(nodes[apps[0].name := node], app.name) == EntriesOf(nodes, app.name)
    {
      WritableElsewhere(nodes, apps[0].name, node, app);
    }
  }

  lemma {:induction false} WriteAllUnmanaged(nodes: Nodes, apps: seq<App>, name: string)
    requires WriteAll(nodes, apps).Some? && !Managed(apps, name)
    ensures SameAt(nodes, WriteAll(nodes, apps).value, name)
    decreases |apps|
  {
    if apps != [] {
      ManagedMore(apps, name);
      var node := Dir(Written(EntriesOf(nodes, apps[0].name), apps[0]));
      WriteAllUnmanaged(if apps[0].runtime then nodes[apps[0].name := node] else nodes, apps[1..], name);
    }
  }

  lemma NotManagedAgain(apps: seq<App>)
    requires Keyed(apps) && apps != []
    ensures !Managed(apps[1..], apps[0].name)
  {
  }

  /** The bundles do not get in each other's way. */
  lemma {:induction false} WriteAllWrites(nodes: Nodes, apps: seq<App>)
    requires Keyed(apps)
    ensures WriteAll(nodes, apps).Some? <==> forall app <- apps :: app.runtime ==> Writable(nodes, app)
    ensures WriteAll(nodes, apps).Some? ==>
              forall app <- apps :: app.runtime ==> BundleWritten(nodes, WriteAll(nodes, apps).value, app)
    decreases |apps|
  {
    if apps != [] {
      var first, rest := apps[0], apps[1..];
      assert apps == [first] + rest;
      if !first.runtime {
        WriteAllWrites(nodes, rest);
      } else if Writable(nodes, first) {
        var node := Dir(Written(EntriesOf(nodes, first.name), first));
        OthersElsewhere(nodes, node, apps);
        WriteAllWrites(nodes[first.name := node], rest);
        if WriteAll(nodes, apps).Some? {
          NotManagedAgain(apps);
          WriteAllUnmanaged(nodes[first.name := node], rest, first.name);
        }
      }
    }
  }

  /** What the app table asks of the directory. */
  ghost predicate Synced(nodes: Nodes, apps: seq<App>) {
    && (forall name <- nodes :: nodes[name].Dir? ==> Managed(apps, name))
    && (forall app <- apps :: app.runtime ==>
          app.name in nodes && nodes[app.name].Dir? && Holds(nodes[app.name].entries, app))
  }

  lemma ManagedApp(apps: seq<App>, name: string)
    ensures Managed(apps, name) <==> exists app <- apps :: app.runtime && app.name == name
  {
    if Managed(apps, name) {
      var i :| 0 <= i < |apps| && apps[i].name == name && apps[i].runtime;
      assert apps[i] in apps;
    }
  }

  lemma PrunedEntries(nodes: Nodes, apps: seq<App>, app: App)
    requires app in apps && app.runtime
    ensures EntriesOf(Pruned(nodes, apps), app.name) == EntriesOf(nodes, app.name)
    ensures Writable(Pruned(nodes, apps), app) == Writable(nodes, app)
  {
    ManagedApp(apps, app.name);
  }

  /** From any directory: the sync succeeds exactly if nothing of the wrong kind
      is in the way of some bundle; then the directory is what the app table asks
      for, plain files are as before, and so is what bundles hold besides. */
  lemma SyncConverges(nodes: Nodes, apps: seq<App>)
    requires Keyed(apps)
    ensures Sync(nodes, apps).Some? <==> forall app <- apps :: app.runtime ==> !Blocked(nodes, app)
    ensures Sync(nodes, apps).Some? ==>
              var after := Sync(nodes, apps).value;
              && Synced(after, apps)
              && (forall name :: (name in after && after[name].File?) <==> (name in nodes && nodes[name].File?))
              && (forall name | name in nodes && nodes[name].File? :: after[name] == nodes[name])
              && (forall app <- apps :: app.runtime ==> BundleWritten(nodes, after, app))
  {
    var start := Pruned(nodes, apps);
    WriteAllWrites(start, apps);
    forall app <- apps | app.runtime
      ensures Writable(start, app) == Writable(nodes, app) == !Blocked(nodes, app)
      ensures EntriesOf(start, app.name) == EntriesOf(nodes, app.name)
    {
      WritableIff(nodes, app);
      PrunedEntries(nodes, apps, app);
    }
    if Sync(nodes, apps).Some? {
      var after := Sync(nodes, apps).value;
      forall name | !Managed(apps, name) ensures SameAt(start, after, name) {
        WriteAllUnmanaged(start, apps, name);
      }
      forall app <- apps | app.runtime ensures Holds(Written(EntriesOf(nodes, app.name), app), app) {
        WrittenHolds(EntriesOf(nodes, app.name), app);
      }
      forall name
        ensures name in after && after[name].Dir? <==> Managed(apps, name)
        ensures name in nodes && nodes[name].File? ==> !Managed(apps, name)
      {
        ManagedApp(apps, name);
      }
    }
  }

  /** The directories a sync leaves alone are exactly those the app table asks for. */
  lemma SyncFixed(nodes: Nodes, apps: seq<App>)
    requires Keyed(apps)
    ensures Sync(nodes, apps) == Some(nodes) <==> Synced(nodes, apps)
  {
    SyncConverges(nodes, apps);
    if Synced(nodes, apps) {
      forall app <- apps | app.runtime
        ensures Writable(nodes, app) && Written(EntriesOf(nodes, app.name), app) == EntriesOf(nodes, app.name)
      {
        WrittenFixed(EntriesOf(nodes, app.name), app);
      }
      var after := Sync(nodes, apps).value;
      forall name ensures SameAt(nodes, after, name) { ManagedApp(apps, name); }
      assert nodes.Keys == after.Keys;
      assert after == nodes;
    }
  }

  /** A second sync changes nothing. */
  lemma SyncTwice(nodes: Nodes, apps: seq<App>)
    requires Keyed(apps) && Sync(nodes, apps).Some?
    ensures Sync(Sync(nodes, apps).value, apps) == Sync(nodes, apps)
  {
    SyncConverges(nodes, apps);
    SyncFixed(Sync(nodes, apps).value, apps);
  }

  // ---------- What the run files run ----------

  /** A row of the app table. */
  datatype Row = Row(name: string, runtime: bool, restart: string, stored: ShellQuote.App)

  /** The lines every run script begins with. */
  const FIRST_LINES :=
    "#!/bin/bash\n. /usr/local/bin/s6-load-locale-env\n" +
    "export PATH=\"/nix/var/nix/profiles/default/bin:$PATH\"\nexport HOME=/home/gem\n"

  /** The run script is the fixed lines and then the script of what is stored. */
  function AppOf(row: Row): App {
    App(row.name, row.runtime, row.restart, FIRST_LINES + ShellQuote.Script(row.stored))
  }

  /** In a synced directory the run file of an app with plain variable names is the
      fixed lines and then what the shell reads as exactly the stored exports,
      directory, user and command. */
  lemma SyncedRunsWhatIsStored(nodes: Nodes, apps: seq<App>, row: Row)
    requires Synced(nodes, apps) && AppOf(row) in apps && row.runtime
    requires ShellQuote.PlainNames(row.stored.env) && ShellQuote.NoNul(row.stored)
    ensures row.name in nodes && nodes[row.name].Dir? && FileAt(nodes[row.name].entries, RunScript)
    ensures var text := nodes[row.name].entries[RunScript].content;
            && FIRST_LINES <= text
            && ShellQuote.Commands(text[|FIRST_LINES|..]) == Some(ShellQuote.MeantBy(row.stored))
  {
    ShellQuote.PlainReadsBack(row.stored);
    SyncedRunFile(nodes, apps, AppOf(row));
    RestOf(FIRST_LINES, ShellQuote.Script(row.stored));
  }

  lemma SyncedRunFile(nodes: Nodes, apps: seq<App>, app: App)
    requires Synced(nodes, apps) && app in apps && app.runtime
    ensures app.name in nodes && nodes[app.name].Dir? && Reads(nodes[app.name].entries, RunScript, app.run)
  {
  }

  lemma RestOf(a: string, b: string)
    ensures a <= a + b && (a + b)[|a|..] == b
  {
  }
}
