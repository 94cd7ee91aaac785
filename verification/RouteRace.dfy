/** A deploy beside a `reload-routes`: both succeed, and Caddy ends up on the
    container that the deploy has stopped. */
module RouteRace {
  import opened Common
  import opened Protocol
  import opened ProcInvariant
  import opened Interleaving
  import opened LiveRoutes
  import opened CommandResults
  import opened CommandTheorems
  import opened RouteTheorems
  import opened Schedules

  /** Process 1 is the deploy, process 2 the reload; no effect fails. */
  predicate OnlyRace(a: Action, s: Service, sha: string) {
    || a == Launch(1, Deploy(sha), s) || a == Launch(2, ReloadRoutes, s)
    || a == Advance(1, OK) || a == Advance(2, OK)
  }

  /** A lock is granted while Caddy is on the service's recorded color. */
  predicate GrantsInStep(sys: Sys, a: Action) {
    a.Advance? && a.pid in sys.procs && sys.procs[a.pid].pc.Acquire? ==>
      sys.procs[a.pid].service in sys.world.sites && InSync(sys.world, sys.procs[a.pid].service)
  }

  ghost function RaceRule(s: Service, sha: string): Rule {
    (x, a) => OnlyRace(a, s, sha) && GrantsInStep(x, a)
  }

  ghost predicate RaceRun(sys: Sys, actions: seq<Action>, s: Service, sha: string) {
    forall k :: 0 <= k < |actions| ==> OnlyRace(actions[k], s, sha) && GrantsInStep(Exec(sys, actions[..k]), actions[k])
  }

  ghost predicate Races(sys: Sys, end: Sys, s: Service, sha: string) {
    Leads(sys, end, RaceRule(s, sha))
  }

  lemma RaceOn(sys: Sys, mid: Sys, a: Action, end: Sys, s: Service, sha: string)
    requires Races(sys, mid, s, sha) && OnlyRace(a, s, sha) && GrantsInStep(mid, a) && end == Next(mid, a)
    ensures Races(sys, end, s, sha)
  {
    LeadsOn(sys, mid, a, end, RaceRule(s, sha));
  }

  /** The deploy holds its lock, beside the reload. */
  function Beside(st: State, q: Proc): Sys {
    Sys(st.world, map[1 := st.proc, 2 := q], map[st.proc.service := 1])
  }

  // ---------- The deploy by itself ----------

  function Oks(n: nat): seq<Input> {
    if n == 0 then [] else Oks(n - 1) + [OK]
  }

  lemma OksSmooth(n: nat)
    ensures |Oks(n)| == n && Smooth(Oks(n), OK)
  {
  }

  function DeployAfter(w: World, s: Service, sha: string, n: nat): State {
    Run(State(w, Begin(Deploy(sha), s)), Oks(n))
  }

  lemma DeployAfterNext(w: World, s: Service, sha: string, n: nat)
    ensures DeployAfter(w, s, sha, n + 1) == Step(DeployAfter(w, s, sha, n), OK)
  {
    RunSnoc(State(w, Begin(Deploy(sha), s)), Oks(n), OK);
  }

  /** The effect before which a deploy without failures stands at its reload. The
      lemmas take this number as a parameter: a literal in their terms would make
      the solver unroll whole runs. */
  predicate AtReload(n: nat) { n == 9 }

  /** Where a deploy without failures is after that effect and the ones that follow. */
  lemma DeployFinishes(w: World, s: Service, sha: string, n: nat)
    requires s in w.sites && !NoOp(w.sites[s], sha) && AtReload(n)
    ensures DeployAfter(w, s, sha, n).proc.pc.Reload?
    ensures DeployAfter(w, s, sha, n + 1).proc.pc.StopOld?
    ensures DeployAfter(w, s, sha, n + 2).proc.pc.Prune?
  {
    OksSmooth(n);
    DeployReaches(w, s, sha, Oks(n));
    RunStands(w, s, Deploy(sha), Oks(n));
    StepSite(DeployAfter(w, s, sha, n), OK);
    DeployAfterNext(w, s, sha, n);
    RunStands(w, s, Deploy(sha), Oks(n + 1));
    StepSite(DeployAfter(w, s, sha, n + 1), OK);
    DeployAfterNext(w, s, sha, n + 1);
  }

  lemma DeployEnds(w: World, s: Service, sha: string, n: nat)
    requires s in w.sites && !NoOp(w.sites[s], sha) && AtReload(n)
    ensures DeployAfter(w, s, sha, n + 3).proc.pc == Finished(true)
    ensures var w' := DeployAfter(w, s, sha, n + 3).world;
            s in w'.sites && !w'.sites[s].Running(w.sites[s].active)
  {
    DeployFinishes(w, s, sha, n);
    RunStands(w, s, Deploy(sha), Oks(n + 2));
    PruneEnds(DeployAfter(w, s, sha, n + 2));
    DeployAfterNext(w, s, sha, n + 2);
    DeployChanges(w, s, sha, n);
  }

  lemma PruneEnds(st: State)
    requires st.proc.cmd.Deploy? && st.proc.pc.Prune? && st.proc.service in st.world.sites
    ensures Step(st, OK).proc.pc == Finished(true)
    ensures Step(st, OK).world == st.world
  {
    StepSite(st, OK);
    OtherStep(st, OK);
    assert st.world.sites[st.proc.service := st.world.sites[st.proc.service]] == st.world.sites;
  }

  lemma DeployChanges(w: World, s: Service, sha: string, n: nat)
    requires s in w.sites && !NoOp(w.sites[s], sha) && AtReload(n)
    requires DeployAfter(w, s, sha, n + 3).proc.pc == Finished(true)
    ensures var w' := DeployAfter(w, s, sha, n + 3).world;
            s in w'.sites && !w'.sites[s].Running(w.sites[s].active)
  {
    DeployConverges(w, s, sha, Oks(n + 3));
  }

  lemma DeployServes(w: World, s: Service, sha: string, n: nat)
    requires s in w.sites && !NoOp(w.sites[s], sha) && n <= 11
    ensures var p := DeployAfter(w, s, sha, n).proc; !p.pc.Acquire? && !p.pc.Finished? && p.service == s
  {
    RunStands(w, s, Deploy(sha), Oks(n));
    if n <= 9 {
      OksSmooth(n);
      DeployReaches(w, s, sha, Oks(n));
      assert OnPath(w, DeployAfter(w, s, sha, n), n);
    } else if n == 10 {
      DeployFinishes(w, s, sha, n - 1);
    } else {
      DeployFinishes(w, s, sha, n - 2);
    }
  }

  // ---------- Side by side ----------

  lemma BesideStep(st: State, q: Proc)
    requires !st.proc.pc.Acquire? && !st.proc.pc.Finished?
    ensures Next(Beside(st, q), Advance(1, OK)) == Beside(Step(st, OK), q)
  {
    if !st.proc.cmd.ReloadRoutes? && st.proc.service in st.world.sites {
      StepSite(st, OK);
      MoveKeepsIdentity(st.world.sites[st.proc.service], st.proc, OK);
    }
    assert map[1 := st.proc, 2 := q][1 := Step(st, OK).proc] == map[1 := Step(st, OK).proc, 2 := q];
  }

  /** Induction over the effects of a process, whatever they are. */
  lemma {:induction false} LetRun(sys: Sys, at: nat -> State, q: Proc, s: Service, sha: string, lo: nat, hi: nat)
    requires lo <= hi && Races(sys, Beside(at(lo), q), s, sha)
    requires forall n: nat :: lo <= n < hi && Races(sys, Beside(at(n), q), s, sha) ==> Races(sys, Beside(at(n + 1), q), s, sha)
    ensures Races(sys, Beside(at(hi), q), s, sha)
    decreases hi
  {
    if lo < hi { LetRun(sys, at, q, s, sha, lo, hi - 1); }
  }

  ghost predicate Is(at: nat -> State, n: nat, w: World, s: Service, sha: string) {
    at(n) == DeployAfter(w, s, sha, n)
  }

  /** The states of the deploy, as a function of their number. */
  ghost predicate Tracks(at: nat -> State, w: World, s: Service, sha: string) {
    forall n: nat {:trigger Is(at, n, w, s, sha)} :: Is(at, n, w, s, sha)
  }

  /** The scheduler lets the deploy perform effects `lo` up to `hi`. */
  lemma LetDeployRun(sys: Sys, w: World, s: Service, sha: string, q: Proc, at: nat -> State, lo: nat, hi: nat)
    requires s in w.sites && !NoOp(w.sites[s], sha) && lo <= hi <= 12 && Tracks(at, w, s, sha)
    requires Races(sys, Beside(at(lo), q), s, sha)
    ensures Races(sys, Beside(at(hi), q), s, sha)
  {
    forall n: nat | lo <= n < hi && Races(sys, Beside(at(n), q), s, sha)
      ensures Races(sys, Beside(at(n + 1), q), s, sha)
    {
      LetDeployMove(sys, w, s, sha, q, at, n);
    }
    LetRun(sys, at, q, s, sha, lo, hi);
  }

  lemma LetDeployMove(sys: Sys, w: World, s: Service, sha: string, q: Proc, at: nat -> State, n: nat)
    requires s in w.sites && !NoOp(w.sites[s], sha) && n <= 11 && Tracks(at, w, s, sha)
    requires Races(sys, Beside(at(n), q), s, sha)
    ensures Races(sys, Beside(at(n + 1), q), s, sha)
  {
    assert Is(at, n, w, s, sha) && Is(at, n + 1, w, s, sha);
    DeployServes(w, s, sha, n);
    DeployAfterNext(w, s, sha, n);
    BesideStep(at(n), q);
    RaceOn(sys, Beside(at(n), q), Advance(1, OK), Beside(at(n + 1), q), s, sha);
  }

  /** One step of the reload. */
  lemma ReloadBeside(st: State, q: Proc)
    requires q.cmd.ReloadRoutes? && !q.pc.Acquire? && !q.pc.Finished?
    ensures Next(Beside(st, q), Advance(2, OK))
         == Beside(State(Step(State(st.world, q), OK).world, st.proc), Step(State(st.world, q), OK).proc)
  {
    var q' := Step(State(st.world, q), OK).proc;
    assert map[1 := st.proc, 2 := q][2 := q'] == map[1 := st.proc, 2 := q'];
  }

  lemma BothLaunched(sys: Sys, s: Service, sha: string)
    requires Idle(sys) && s in sys.world.sites && InSync(sys.world, s)
    ensures Races(sys, Beside(State(sys.world, Begin(Deploy(sha), s)), Begin(ReloadRoutes, s)), s, sha)
  {
    var p, q := Begin(Deploy(sha), s), Begin(ReloadRoutes, s);
    var one := Sys(sys.world, map[1 := p.Goto(Acquire)], map[]);
    var two := Sys(sys.world, map[1 := p.Goto(Acquire), 2 := q], map[]);
    LeadsHere(sys, RaceRule(s, sha));
    RaceOn(sys, sys, Launch(1, Deploy(sha), s), one, s, sha);
    RaceOn(sys, one, Launch(2, ReloadRoutes, s), two, s, sha);
    Granted(sys.world, s, sha);
    RaceOn(sys, two, Advance(1, OK), Beside(State(sys.world, p), q), s, sha);
  }

  lemma Granted(w: World, s: Service, sha: string)
    ensures var p, q := Begin(Deploy(sha), s), Begin(ReloadRoutes, s);
            Next(Sys(w, map[1 := p.Goto(Acquire), 2 := q], map[]), Advance(1, OK)) == Beside(State(w, p), q)
  {
    var p, q := Begin(Deploy(sha), s), Begin(ReloadRoutes, s);
    assert map[1 := p.Goto(Acquire), 2 := q][1 := p] == map[1 := p, 2 := q];
  }

  /** Where the race ends. */
  ghost predicate Misrouted(sys: Sys, s: Service, stopped: Color) {
    && 1 in sys.procs && sys.procs[1].pc == Finished(true)
    && 2 in sys.procs && sys.procs[2].pc == Finished(true)
    && s in sys.world.sites && sys.world.Routed(s) == stopped && !sys.world.sites[s].Running(stopped)
  }

  /** From every idle host that is in step, a deploy that is not skipped and a
      `reload-routes` can be scheduled so that nothing fails, the lock is granted in
      step, both report success, and Caddy routes to the old container, which the
      deploy has stopped: the reload reads the colors before the deploy writes its
      own and loads them after the deploy has stopped the old container. */
  lemma StaleSnapshotRace(sys: Sys, s: Service, sha: string)
    requires Idle(sys) && s in sys.world.sites && InSync(sys.world, s) && !NoOp(sys.world.sites[s], sha)
    ensures exists actions ::
              RaceRun(sys, actions, s, sha) && Misrouted(Exec(sys, actions), s, sys.world.sites[s].active)
  {
    LateLoad(sys, s, sha, 0, 9);
  }

  /** The reload has read the colors, and the deploy is about to begin. */
  lemma ReadFirst(sys: Sys, s: Service, sha: string)
    requires Idle(sys) && s in sys.world.sites && InSync(sys.world, s)
    ensures Races(sys, Beside(State(sys.world, Begin(Deploy(sha), s)),
                              Begin(ReloadRoutes, s).Reading(sys.world, {}).Goto(ReloadAgain)), s, sha)
  {
    var st0, q := State(sys.world, Begin(Deploy(sha), s)), Begin(ReloadRoutes, s);
    BothLaunched(sys, s, sha);
    ReloadBeside(st0, q);
    RaceOn(sys, Beside(st0, q), Advance(2, OK), Beside(st0, q.Reading(sys.world, {}).Goto(ReloadAgain)), s, sha);
  }

  lemma NothingYet(w: World, s: Service, sha: string, start: nat)
    requires start == 0
    ensures DeployAfter(w, s, sha, start) == State(w, Begin(Deploy(sha), s))
  {
  }

  lemma Tracked(w: World, s: Service, sha: string) returns (at: nat -> State)
    ensures Tracks(at, w, s, sha)
  {
    at := (n: nat) => DeployAfter(w, s, sha, n);
  }

  lemma Scheduled(sys: Sys, end: Sys, s: Service, sha: string, stopped: Color)
    requires Races(sys, end, s, sha) && Misrouted(end, s, stopped)
    ensures exists actions :: RaceRun(sys, actions, s, sha) && Misrouted(Exec(sys, actions), s, stopped)
  {
    var actions := LeadsSchedule(sys, end, RaceRule(s, sha));
    forall k | 0 <= k < |actions|
      ensures OnlyRace(actions[k], s, sha) && GrantsInStep(Exec(sys, actions[..k]), actions[k])
    {
      assert RaceRule(s, sha)(Exec(sys, actions[..k]), actions[k]);
    }
  }

  lemma LateLoad(sys: Sys, s: Service, sha: string, start: nat, n: nat)
    requires Idle(sys) && s in sys.world.sites && InSync(sys.world, s) && !NoOp(sys.world.sites[s], sha)
    requires start == 0 && AtReload(n)
    ensures exists actions ::
              RaceRun(sys, actions, s, sha) && Misrouted(Exec(sys, actions), s, sys.world.sites[s].active)
  {
    var w, q := sys.world, Begin(ReloadRoutes, s).Reading(sys.world, {}).Goto(ReloadAgain);
    var at := Tracked(w, s, sha);
    NothingYet(w, s, sha, start);
    ReadFirst(sys, s, sha);
    assert Is(at, start, w, s, sha) && Is(at, n + 3, w, s, sha);
    LetDeployRun(sys, w, s, sha, q, at, start, n + 3);
    DeployEnds(w, s, sha, n);
    var end := LoadLate(sys, s, sha, at(n + 3), q);
    Scheduled(sys, end, s, sha, w.sites[s].active);
  }

  lemma LoadLate(sys: Sys, s: Service, sha: string, st: State, q: Proc) returns (end: Sys)
    requires Races(sys, Beside(st, q), s, sha) && q.cmd.ReloadRoutes? && q.pc.ReloadAgain?
    ensures Races(sys, end, s, sha)
    ensures end.world == World(st.world.sites, q.snapshot)
    ensures 1 in end.procs && end.procs[1] == st.proc && 2 in end.procs && end.procs[2].pc == Finished(true)
  {
    var w := World(st.world.sites, q.snapshot);
    var loaded := Beside(State(w, st.proc), q.Goto(Nginx));
    end := Beside(State(w, st.proc), q.Goto(Finished(true)));
    ReloadBeside(st, q);
    RaceOn(sys, Beside(st, q), Advance(2, OK), loaded, s, sha);
    ReloadBeside(State(w, st.proc), q.Goto(Nginx));
    RaceOn(sys, loaded, Advance(2, OK), end, s, sha);
  }
}
