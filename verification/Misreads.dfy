/** A color file whose existence cannot be determined counts as missing, and so as
    blue, for the command that reads it. What availability then depends on. */
module Misreads {
  import opened Common
  import opened Protocol
  import opened ProcInvariant
  import opened Interleaving
  import opened LiveRoutes
  import opened RouteTheorems

  /** An action, or a step in which the process takes the color file for missing. */
  datatype Event = Act(action: Action) | Misread(pid: Pid, input: Input)

  /** The process is about to look at its service. */
  predicate Looking(sys: Sys, pid: Pid) {
    && pid in sys.procs && Holding(sys.procs[pid]) && sys.procs[pid].pc.Inspect?
    && sys.procs[pid].service in sys.world.sites
  }

  /** It decides on blue, whatever is recorded. */
  function Misreads(sys: Sys, pid: Pid, i: Input): Sys {
    if !Looking(sys, pid) then Next(sys, Advance(pid, i))
    else
      var p := sys.procs[pid];
      var seen := sys.world.sites[p.service].Seen(i.sight).(active := Blue);
      var q := if i.fate.Failed? then p.Goto(Finished(false)) else Decide(seen, p, i.newest);
      sys.(procs := sys.procs[pid := q])
  }

  function Happen(sys: Sys, e: Event): Sys {
    match e
    case Act(a) => Next(sys, a)
    case Misread(pid, i) => Misreads(sys, pid, i)
  }

  function History(sys: Sys, events: seq<Event>): Sys
    decreases |events|
  {
    if events == [] then sys else Happen(History(sys, events[..|events| - 1]), events[|events| - 1])
  }

  /** The command takes green for blue. */
  predicate TakesGreenForBlue(sys: Sys, e: Event) {
    e.Misread? && Looking(sys, e.pid) && sys.world.sites[sys.procs[e.pid].service].active.Green?
  }

  ghost predicate Sighted(sys: Sys, events: seq<Event>) {
    forall k :: 0 <= k < |events| ==> !TakesGreenForBlue(History(sys, events[..k]), events[k])
  }

  function Plain(e: Event): Action {
    match e
    case Act(a) => a
    case Misread(pid, i) => Advance(pid, i)
  }

  function Plains(events: seq<Event>): seq<Action> {
    seq(|events|, i requires 0 <= i < |events| => Plain(events[i]))
  }

  /** Missing and blue are the same. */
  lemma BlueIsBlue(sys: Sys, e: Event)
    requires !TakesGreenForBlue(sys, e)
    ensures Happen(sys, e) == Next(sys, Plain(e))
  {
    if e.Misread? && Looking(sys, e.pid) {
      var p := sys.procs[e.pid];
      var v := sys.world.sites[p.service];
      assert v.Seen(e.input.sight).(active := Blue) == v.Seen(e.input.sight);
      DecisionStep(State(sys.world, p), e.input);
    }
  }

  lemma SightedPrefix(sys: Sys, events: seq<Event>, n: nat)
    requires Sighted(sys, events) && n < |events|
    ensures Sighted(sys, events[..n]) && !TakesGreenForBlue(History(sys, events[..n]), events[n])
  {
    var before := events[..n];
    forall k | 0 <= k < n ensures !TakesGreenForBlue(History(sys, before[..k]), before[k]) {
      assert before[..k] == events[..k];
    }
  }

  lemma {:induction false} SightedIsPlain(sys: Sys, events: seq<Event>)
    requires Sighted(sys, events)
    ensures History(sys, events) == Exec(sys, Plains(events))
    decreases |events|
  {
    if events != [] {
      var n := |events| - 1;
      var before := events[..n];
      SightedPrefix(sys, events, n);
      SightedIsPlain(sys, before);
      BlueIsBlue(History(sys, before), events[n]);
      assert Plains(events)[..n] == Plains(before);
    }
  }

  /** Over every interleaving of commands, failures, kills and misreadings in which
      no command takes green for blue, a recorded color that is up stays up. */
  lemma AvailableUnlessMisread(sys: Sys, events: seq<Event>, s: Service)
    requires Idle(sys) && s in sys.world.sites && Available(sys.world.sites[s]) && Sighted(sys, events)
    ensures s in History(sys, events).world.sites && Available(History(sys, events).world.sites[s])
  {
    SightedIsPlain(sys, events);
    AvailabilityAlways(sys, Plains(events), s);
  }

  // ---------- The run that breaks it ----------

  lemma HistoryOn(sys: Sys, events: seq<Event>, mid: Sys, e: Event)
    requires History(sys, events) == mid
    ensures History(sys, events + [e]) == Happen(mid, e)
  {
    assert (events + [e])[..|events|] == events;
  }

  /** One deploy, which takes green for blue once and otherwise meets no failure. */
  function Mistaken(s: Service, sha: string): seq<Event> {
    [] + [Act(Launch(1, Deploy(sha), s))] + [Act(Advance(1, OK))] + [Misread(1, OK)]
    + [Act(Advance(1, OK))] + [Act(Advance(1, OK))]
  }

  /** From every idle host, for every service that is up on green: a deploy of a SHA
      that is not recorded removes its active container. */
  lemma MistakenDeployTakesDown(sys: Sys, s: Service, sha: string)
    requires Idle(sys) && s in sys.world.sites && Available(sys.world.sites[s])
    requires sys.world.sites[s].active.Green? && sys.world.sites[s].sha != Some(sha)
    ensures var end := History(sys, Mistaken(s, sha)).world;
            s in end.sites && end.sites[s].active.Green? && end.sites[s].Slot(Green).None?
  {
    var w, p := sys.world, Begin(Deploy(sha), s);
    var launched := Sys(w, map[1 := p.Goto(Acquire)], map[]);
    var held := Sys(w, map[1 := p], map[s := 1]);
    var q := p.(active := Blue, target := sha).Goto(Validate);
    var mistaken := Sys(w, map[1 := q], map[s := 1]);
    var e1 := [Act(Launch(1, Deploy(sha), s))];
    assert History(sys, []) == sys;
    HistoryOn(sys, [], sys, Act(Launch(1, Deploy(sha), s)));
    HistoryOn(sys, [] + e1, launched, Act(Advance(1, OK)));
    Granted(w, p);
    HistoryOn(sys, [] + e1 + [Act(Advance(1, OK))], held, Misread(1, OK));
    TakenForBlue(w, s, sha);
    var before := [] + e1 + [Act(Advance(1, OK))] + [Misread(1, OK)];
    assert History(sys, before) == mistaken;
    Removed(sys, before, w, q, s);
  }

  lemma Granted(w: World, p: Proc)
    requires p.pc.Inspect? && !p.cmd.ReloadRoutes?
    ensures Next(Sys(w, map[1 := p.Goto(Acquire)], map[]), Advance(1, OK)) == Sys(w, map[1 := p], map[p.service := 1])
  {
    assert map[1 := p.Goto(Acquire)][1 := p] == map[1 := p];
  }

  lemma TakenForBlue(w: World, s: Service, sha: string)
    requires s in w.sites && w.sites[s].sha != Some(sha)
    ensures var p := Begin(Deploy(sha), s);
            Misreads(Sys(w, map[1 := p], map[s := 1]), 1, OK)
            == Sys(w, map[1 := p.(active := Blue, target := sha).Goto(Validate)], map[s := 1])
  {
    var p := Begin(Deploy(sha), s);
    var q := p.(active := Blue, target := sha).Goto(Validate);
    SeenIsThere(w.sites[s], CLEAR, Blue, "");
    assert map[1 := p][1 := q] == map[1 := q];
  }

  lemma Removed(sys: Sys, before: seq<Event>, w: World, q: Proc, s: Service)
    requires s in w.sites && w.sites[s].active.Green? && q.service == s && q.cmd.Deploy? && q.pc.Validate? && q.active.Blue?
    requires History(sys, before) == Sys(w, map[1 := q], map[s := 1])
    ensures var end := History(sys, before + [Act(Advance(1, OK))] + [Act(Advance(1, OK))]).world;
            s in end.sites && end.sites[s].active.Green? && end.sites[s].Slot(Green).None?
  {
    var st := State(w, q);
    var st1 := Step(st, OK);
    OtherStep(st, OK);
    MoveKeepsIdentity(w.sites[s], q, OK);
    assert map[1 := q][1 := st1.proc] == map[1 := st1.proc];
    HistoryOn(sys, before, Sys(w, map[1 := q], map[s := 1]), Act(Advance(1, OK)));
    OtherStep(st1, OK);
    HistoryOn(sys, before + [Act(Advance(1, OK))], Sys(st1.world, map[1 := st1.proc], map[s := 1]), Act(Advance(1, OK)));
  }
}
