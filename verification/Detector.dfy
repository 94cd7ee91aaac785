/** The mismatch detector beside the commands: it takes no lock, and its four
    looks at a service lie apart. */
module Detector {
  import opened Common
  import opened Protocol
  import opened ProcInvariant
  import opened Interleaving
  import opened LiveRoutes
  import opened CommandResults
  import opened CommandTheorems
  import opened RouteTheorems
  import opened Schedules
  import opened RouteRuns
  import opened Diagnose

  /** The detector's own process: how many looks it has taken, and what it found. */
  datatype Watch = Watch(looks: nat, got: Glimpse)

  const FRESH := Watch(0, Glimpse(false, Blue, false, false))

  /** The next look at the service. A color file that cannot be read counts as
      blue, a container that cannot be inspected as not running. */
  function Peek(v: Site, x: Watch, works: bool): Watch {
    match x.looks
    case 0 => Watch(1, x.got.(pending := v.preview.Some?))
    case 1 => Watch(2, x.got.(color := if works then v.active else Blue))
    case 2 => Watch(3, x.got.(blue := works && v.Running(Blue)))
    case 3 => Watch(4, x.got.(green := works && v.Running(Green)))
    case _ => x
  }

  datatype Event = Act(action: Action) | Look(works: bool)

  datatype Watched = Watched(sys: Sys, watch: Watch)

  function Happen(x: Watched, s: Service, e: Event): Watched {
    match e
    case Act(a) => Watched(Next(x.sys, a), x.watch)
    case Look(works) =>
      if s in x.sys.world.sites then Watched(x.sys, Peek(x.sys.world.sites[s], x.watch, works)) else x
  }

  function History(x: Watched, s: Service, events: seq<Event>): Watched
    decreases |events|
  {
    if events == [] then x else Happen(History(x, s, events[..|events| - 1]), s, events[|events| - 1])
  }

  // ---------- When it is right ----------

  /** The color has been read and the container of that color not yet inspected. */
  predicate Exposed(x: Watch) {
    x.looks == 2 || (x.looks == 3 && x.got.color.Green?)
  }

  /** A process of the service is about to record a color. */
  predicate Records(sys: Sys, a: Action, s: Service) {
    Moves(sys, a, s) && sys.procs[a.pid].pc.WriteActive?
  }

  /** Nothing records a color while the detector is exposed, and the looks that
      matter work: the color unless it is blue, then the container of that color. */
  predicate Calm(x: Watched, s: Service, e: Event) {
    match e
    case Act(a) => !(Exposed(x.watch) && Records(x.sys, a, s))
    case Look(works) =>
      works || match x.watch.looks
               case 1 => s in x.sys.world.sites && x.sys.world.sites[s].active.Blue?
               case 2 => x.watch.got.color.Green?
               case 3 => x.watch.got.color.Blue?
               case _ => true
  }

  ghost predicate CalmHistory(x: Watched, s: Service, events: seq<Event>) {
    forall k :: 0 <= k < |events| ==> Calm(History(x, s, events[..k]), s, events[k])
  }

  /** What the detector has found so far is right. */
  ghost predicate Right(x: Watched, s: Service) {
    && SysInv(x.sys) && LocksLive(x.sys) && s in x.sys.world.sites && Available(x.sys.world.sites[s])
    && (Exposed(x.watch) ==> x.watch.got.color == x.sys.world.sites[s].active)
    && (x.watch.looks >= 3 && x.watch.got.color.Blue? ==> x.watch.got.blue)
    && (x.watch.looks >= 4 ==> x.watch.got.SawRunning(x.watch.got.color))
  }

  lemma NextKeepsColor(sys: Sys, a: Action, s: Service)
    requires s in sys.world.sites && !Records(sys, a, s)
    ensures s in Next(sys, a).world.sites && Next(sys, a).world.sites[s].active == sys.world.sites[s].active
  {
    NextFrame(sys, a, s);
    if Moves(sys, a, s) {
      NextMover(sys, a, s);
      OnlyWriteActiveRecolors(sys.world.sites[s], sys.procs[a.pid], a.input.fate);
    }
  }

  lemma HappenKeepsRight(x: Watched, s: Service, e: Event)
    requires Right(x, s) && Calm(x, s, e)
    ensures Right(Happen(x, s, e), s)
  {
    match e
    case Act(a) =>
      NextKeepsInv(x.sys, a);
      NextKeepsLocksLive(x.sys, a);
      NextKeepsAvailable(x.sys, a, s);
      if Exposed(x.watch) { NextKeepsColor(x.sys, a, s); }
    case Look(_) =>
  }

  lemma CalmPrefix(x: Watched, s: Service, events: seq<Event>, n: nat)
    requires CalmHistory(x, s, events) && n <= |events|
    ensures CalmHistory(x, s, events[..n])
  {
    var before := events[..n];
    forall k | 0 <= k < n ensures Calm(History(x, s, before[..k]), s, before[k]) {
      assert before[..k] == events[..k];
    }
  }

  lemma {:induction false} CalmIsRight(x: Watched, s: Service, events: seq<Event>)
    requires Right(x, s) && CalmHistory(x, s, events)
    ensures Right(History(x, s, events), s)
    decreases |events|
  {
    if events != [] {
      var n := |events| - 1;
      var before := events[..n];
      CalmPrefix(x, s, events, n);
      CalmIsRight(x, s, before);
      HappenKeepsRight(History(x, s, before), s, events[n]);
    }
  }

  /** Over every interleaving of commands, failures and kills with the detector's
      four looks: a service that was up is never reported as mismatched or dead, if
      no color of it is recorded between the look at the color and the look at the
      container of that color, and those two looks work. */
  lemma NeverAlarming(sys: Sys, s: Service, events: seq<Event>)
    requires Idle(sys) && s in sys.world.sites && Available(sys.world.sites[s])
    requires CalmHistory(Watched(sys, FRESH), s, events)
    requires History(Watched(sys, FRESH), s, events).watch.looks >= 4
    ensures !Alarm(Verdict(History(Watched(sys, FRESH), s, events).watch.got))
  {
    CalmIsRight(Watched(sys, FRESH), s, events);
    AlarmMeaning(History(Watched(sys, FRESH), s, events).watch.got);
  }

  // ---------- When it is not ----------

  /** No look and no effect fails. */
  predicate Works(e: Event) {
    match e
    case Act(a) => a.Advance? ==> a.input.fate.Ok?
    case Look(works) => works
  }

  /** From here on everything is calm and nothing fails, and still an alarm is raised. */
  ghost predicate FalseAlarm(x: Watched, s: Service) {
    exists events ::
      && CalmHistory(x, s, events) && (forall e <- events :: Works(e))
      && History(x, s, events).watch.looks >= 4 && Alarm(Verdict(History(x, s, events).watch.got))
  }

  function Acts(actions: seq<Action>): seq<Event> {
    seq(|actions|, i requires 0 <= i < |actions| => Act(actions[i]))
  }

  lemma {:induction false} ActsRun(x: Watched, s: Service, actions: seq<Action>)
    ensures History(x, s, Acts(actions)) == Watched(Exec(x.sys, actions), x.watch)
    decreases |actions|
  {
    if actions != [] {
      var before := actions[..|actions| - 1];
      ActsRun(x, s, before);
      assert Acts(actions)[..|actions| - 1] == Acts(before);
    }
  }

  /** Nothing fails and no color of the service is recorded. */
  ghost function Quiet(s: Service): Rule {
    (x, a) => !Records(x, a, s) && Works(Act(a))
  }

  lemma HistoryOn(x: Watched, s: Service, events: seq<Event>, mid: Watched, e: Event)
    requires History(x, s, events) == mid
    ensures History(x, s, events + [e]) == Happen(mid, s, e)
  {
    assert (events + [e])[..|events|] == events;
  }

  lemma CalmOn(x: Watched, s: Service, events: seq<Event>, mid: Watched, e: Event)
    requires CalmHistory(x, s, events) && History(x, s, events) == mid && Calm(mid, s, e)
    ensures CalmHistory(x, s, events + [e])
  {
    var more := events + [e];
    assert more[..|events|] == events;
    forall k | 0 <= k < |more| ensures Calm(History(x, s, more[..k]), s, more[k]) {
      if k < |events| { assert more[..k] == events[..k]; }
    }
  }

  // Calm histories as traces, as schedules are elsewhere.

  ghost predicate CalmLink(x: Watched, y: Watched, s: Service) {
    exists e :: Calm(x, s, e) && Works(e) && Happen(x, s, e) == y
  }

  ghost predicate CalmAt(trace: seq<Watched>, k: nat, s: Service)
    requires k + 1 < |trace|
  {
    CalmLink(trace[k], trace[k + 1], s)
  }

  ghost predicate CalmTrace(trace: seq<Watched>, s: Service) {
    trace != [] && forall k: nat {:trigger CalmAt(trace, k, s)} :: k + 1 < |trace| ==> CalmAt(trace, k, s)
  }

  ghost predicate Calmly(x: Watched, y: Watched, s: Service) {
    exists trace :: CalmTrace(trace, s) && trace[0] == x && trace[|trace| - 1] == y
  }

  lemma CalmlyHere(x: Watched, s: Service)
    ensures Calmly(x, x, s)
  {
    assert CalmTrace([x], s);
  }

  lemma CalmlyOn(x: Watched, mid: Watched, s: Service, e: Event, y: Watched)
    requires Calmly(x, mid, s) && Calm(mid, s, e) && Works(e) && y == Happen(mid, s, e)
    ensures Calmly(x, y, s)
  {
    var trace :| CalmTrace(trace, s) && trace[0] == x && trace[|trace| - 1] == mid;
    var more := trace + [y];
    forall k: nat | k + 1 < |more| ensures CalmAt(more, k, s) {
      if k + 1 < |trace| { assert CalmAt(trace, k, s); } else { assert CalmLink(mid, y, s); }
    }
    assert CalmTrace(more, s);
  }

  lemma {:induction false} CalmTraceHistory(trace: seq<Watched>, k: nat, s: Service) returns (events: seq<Event>)
    requires CalmTrace(trace, s) && k < |trace|
    ensures CalmHistory(trace[0], s, events) && (forall e <- events :: Works(e)) && History(trace[0], s, events) == trace[k]
  {
    events := [];
    if k > 0 {
      var before := CalmTraceHistory(trace, k - 1, s);
      assert CalmAt(trace, k - 1, s);
      var e :| Calm(trace[k - 1], s, e) && Works(e) && Happen(trace[k - 1], s, e) == trace[k];
      CalmOn(trace[0], s, before, trace[k - 1], e);
      HistoryOn(trace[0], s, before, trace[k - 1], e);
      events := before + [e];
    }
  }

  lemma CalmlyAlarmed(x: Watched, y: Watched, s: Service)
    requires Calmly(x, y, s) && y.watch.looks >= 4 && Alarm(Verdict(y.watch.got))
    ensures FalseAlarm(x, s)
  {
    var trace :| CalmTrace(trace, s) && trace[0] == x && trace[|trace| - 1] == y;
    var events := CalmTraceHistory(trace, |trace| - 1, s);
  }

  /** A quiet schedule is a calm history in which the detector does not look. */
  lemma QuietIsCalm(x: Watched, end: Sys, s: Service)
    requires Leads(x.sys, end, Quiet(s))
    ensures Calmly(x, Watched(end, x.watch), s)
  {
    var trace :| IsTrace(trace, Quiet(s)) && trace[0] == x.sys && trace[|trace| - 1] == end;
    var watched := seq(|trace|, i requires 0 <= i < |trace| => Watched(trace[i], x.watch));
    forall k: nat | k + 1 < |watched| ensures CalmAt(watched, k, s) {
      assert Linked(trace, k, Quiet(s));
      var a :| Quiet(s)(trace[k], a) && Next(trace[k], a) == trace[k + 1];
      assert Calm(watched[k], s, Act(a)) && Works(Act(a)) && Happen(watched[k], s, Act(a)) == watched[k + 1];
    }
    assert CalmTrace(watched, s);
  }

  /** One more look that works. */
  lemma LookOn(x: Watched, mid: Watched, s: Service)
    requires Calmly(x, mid, s)
    ensures Calmly(x, Happen(mid, s, Look(true)), s)
  {
    CalmlyOn(x, mid, s, Look(true), Happen(mid, s, Look(true)));
  }

  /** The remaining looks, all of them working, find the color's container down. */
  lemma LooksFindItDown(x: Watched, mid: Watched, s: Service, c: Color)
    requires Calmly(x, mid, s) && s in mid.sys.world.sites && !mid.sys.world.sites[s].Running(c)
    requires Exposed(mid.watch) && mid.watch.got.color == c && !mid.watch.got.pending
    ensures FalseAlarm(x, s)
  {
    LookOn(x, mid, s);
    var next := Happen(mid, s, Look(true));
    AlarmMeaning(next.watch.got);
    if mid.watch.looks == 2 {
      LookOn(x, next, s);
      AlarmMeaning(Happen(next, s, Look(true)).watch.got);
      CalmlyAlarmed(x, Happen(next, s, Look(true)), s);
    } else {
      CalmlyAlarmed(x, next, s);
    }
  }

  /** A quiet schedule after which the color's container is down. */
  lemma QuietlyDown(x: Watched, s: Service, end: Sys, c: Color)
    requires Leads(x.sys, end, Quiet(s)) && s in end.world.sites && !end.world.sites[s].Running(c)
    requires Exposed(x.watch) && x.watch.got.color == c && !x.watch.got.pending
    ensures FalseAlarm(x, s)
  {
    QuietIsCalm(x, end, s);
    LooksFindItDown(x, Watched(end, x.watch), s, c);
  }

  lemma QuietAllows(x: Sys, a: Action, s: Service)
    requires !Records(x, a, s) && Works(Act(a))
    ensures Quiet(s)(x, a)
  {
  }

  lemma QuietSwitch(s: Service, pid: Pid)
    ensures LetsSwitch(Quiet(s), pid)
  {
  }

  /** A color recorded while the detector is exposed. */
  lemma RecordedMeanwhile(x: Watched, s: Service, pid: Pid)
    requires Right(x, s) && Exposed(x.watch) && !x.watch.got.pending
    requires Records(x.sys, Advance(pid, OK), s)
    ensures FalseAlarm(Happen(x, s, Act(Advance(pid, OK))), s)
  {
    var sys, p := x.sys, x.sys.procs[pid];
    var x1 := Happen(x, s, Act(Advance(pid, OK)));
    var st0 := State(sys.world, p);
    assert x1.sys == With(sys, pid, Step(st0, OK));
    LeadsHere(x1.sys, Quiet(s));
    SwitchStep(st0);
    QuietSwitch(s, pid);
    var st := SwitchGoesOn(x1.sys, sys, pid, Step(st0, OK), Quiet(s));
    assert OwnInv(sys, pid);
    QuietlyDown(x1, s, With(sys, pid, st), p.active);
  }

  // ---------- Stopping the idle container ----------

  lemma {:induction false} Above(pids: set<Pid>) returns (n: Pid)
    ensures forall x <- pids :: x < n
    decreases pids
  {
    n := 0;
    if pids != {} {
      var x :| x in pids;
      var m := Above(pids - {x});
      n := if m > x then m else x + 1;
      assert forall y <- pids :: y == x || y in pids - {x};
    }
  }

  /** The lock of the service can be had, at worst by killing its holder. */
  lemma LockFreed(sys: Sys, s: Service) returns (free: Sys)
    requires LocksLive(sys)
    ensures Leads(sys, free, Quiet(s)) && s !in free.locks && free.world == sys.world
  {
    LeadsHere(sys, Quiet(s));
    free := sys;
    if s in sys.locks {
      free := Next(sys, Kill(sys.locks[s]));
      LeadsOn(sys, sys, Kill(sys.locks[s]), free, Quiet(s));
    }
  }

  lemma CancelHeld(sys: Sys, s: Service) returns (held: Sys, pid: Pid)
    requires LocksLive(sys)
    ensures Leads(sys, held, Quiet(s)) && held == With(held, pid, State(sys.world, Begin(CancelPreview, s)))
  {
    var free := LockFreed(sys, s);
    pid := Above(free.procs.Keys);
    assert pid !in free.procs;
    var p := Begin(CancelPreview, s);
    var launched := free.(procs := free.procs[pid := p.Goto(Acquire)]);
    QuietAllows(free, Launch(pid, CancelPreview, s), s);
    QuietAllows(launched, Advance(pid, OK), s);
    LeadsOn(sys, free, Launch(pid, CancelPreview, s), launched, Quiet(s));
    held := Sys(free.world, launched.procs[pid := p], free.locks[s := pid]);
    LeadsOn(sys, launched, Advance(pid, OK), held, Quiet(s));
  }

  /** A `cancel-preview` then stops the idle container. */
  lemma IdleStopped(sys: Sys, s: Service) returns (end: Sys)
    requires LocksLive(sys) && s in sys.world.sites
    ensures Leads(sys, end, Quiet(s)) && s in end.world.sites
    ensures !end.world.sites[s].Running(Flip(sys.world.sites[s].active))
  {
    var held, pid := CancelHeld(sys, s);
    var st := State(sys.world, Begin(CancelPreview, s));
    DecisionStep(st, OK);
    LetMove(sys, held, pid, st, OK, Quiet(s));
    var st1 := Step(st, OK);
    LetMove(sys, held, pid, st1, OK, Quiet(s));
    StepSite(st1, OK);
    end := With(held, pid, Step(st1, OK));
  }

  /** A look that does not work: at the container of the color that was read, or
      at a green color. */
  predicate Misses(x: Watched, s: Service) {
    s in x.sys.world.sites &&
    match x.watch.looks
    case 1 => x.sys.world.sites[s].active.Green?
    case 2 => x.watch.got.color.Blue?
    case 3 => x.watch.got.color.Green?
    case _ => false
  }

  lemma MissedLook(x: Watched, s: Service)
    requires Misses(x, s) && !x.watch.got.pending && LocksLive(x.sys)
    ensures FalseAlarm(Happen(x, s, Look(false)), s)
  {
    var x1 := Happen(x, s, Look(false));
    if x.watch.looks == 1 {
      var end := IdleStopped(x.sys, s);
      QuietlyDown(x1, s, end, Blue);
    } else {
      CalmlyHere(x1, s);
      LookOn(x1, x1, s);
      AlarmMeaning(Happen(x1, s, Look(true)).watch.got);
      CalmlyAlarmed(x1, Happen(x1, s, Look(true)), s);
    }
  }

  /** Calm is exactly what is needed, at every point at which the detector has been
      right so far: an event is calm if and only if no calm continuation in which
      nothing fails ends with a false alarm. */
  lemma CalmIsExact(x: Watched, s: Service, e: Event)
    requires Right(x, s) && !x.watch.got.pending && (e.Act? && e.action.Advance? ==> e.action.input == OK)
    ensures Calm(x, s, e) <==> !FalseAlarm(Happen(x, s, e), s)
  {
    var x1 := Happen(x, s, e);
    if Calm(x, s, e) {
      HappenKeepsRight(x, s, e);
      forall events | CalmHistory(x1, s, events) && History(x1, s, events).watch.looks >= 4
        ensures !Alarm(Verdict(History(x1, s, events).watch.got))
      {
        CalmIsRight(x1, s, events);
        AlarmMeaning(History(x1, s, events).watch.got);
      }
    } else if e.Act? {
      RecordedMeanwhile(x, s, e.action.pid);
    } else {
      MissedLook(x, s);
    }
  }

  // ---------- A deploy at the wrong time ----------

  /** Process 1 is the deploy, and no effect of it fails. */
  predicate OnlyDeploy(a: Action, s: Service, sha: string) {
    a == Launch(1, Deploy(sha), s) || a == Advance(1, OK)
  }

  ghost function DeployRule(s: Service, sha: string): Rule {
    (x, a) => OnlyDeploy(a, s, sha)
  }

  /** A command that runs alone, as process 1. */
  function Alone(st: State): Sys {
    Sys(st.world, map[1 := st.proc], map[st.proc.service := 1])
  }

  lemma AloneStarts(sys: Sys, s: Service, sha: string)
    requires Idle(sys)
    ensures Leads(sys, Alone(State(sys.world, Begin(Deploy(sha), s))), DeployRule(s, sha))
  {
    var one := Sys(sys.world, map[1 := Launched(Deploy(sha), s)], map[]);
    LeadsHere(sys, DeployRule(s, sha));
    LeadsOn(sys, sys, Launch(1, Deploy(sha), s), one, DeployRule(s, sha));
    LeadsOn(sys, one, Advance(1, OK), Alone(State(sys.world, Begin(Deploy(sha), s))), DeployRule(s, sha));
  }

  lemma AloneMoves(sys: Sys, st: State, s: Service, sha: string)
    requires Leads(sys, Alone(st), DeployRule(s, sha)) && !st.proc.pc.Acquire? && !st.proc.pc.Finished?
    requires !st.proc.cmd.ReloadRoutes? && st.proc.service in st.world.sites
    ensures Leads(sys, Alone(Step(st, OK)), DeployRule(s, sha))
  {
    StepSite(st, OK);
    MoveKeepsIdentity(st.world.sites[st.proc.service], st.proc, OK);
    assert map[1 := st.proc][1 := Step(st, OK).proc] == map[1 := Step(st, OK).proc];
    LeadsOn(sys, Alone(st), Advance(1, OK), Alone(Step(st, OK)), DeployRule(s, sha));
  }

  lemma {:induction false} AloneRuns(sys: Sys, s: Service, sha: string, inputs: seq<Input>)
    requires Idle(sys) && s in sys.world.sites && Smooth(inputs, OK)
    ensures Leads(sys, Alone(Protocol.Run(State(sys.world, Begin(Deploy(sha), s)), inputs)), DeployRule(s, sha))
    decreases |inputs|
  {
    if inputs == [] {
      AloneStarts(sys, s, sha);
    } else {
      var before := inputs[..|inputs| - 1];
      var st := Protocol.Run(State(sys.world, Begin(Deploy(sha), s)), before);
      AloneRuns(sys, s, sha, before);
      RunStands(sys.world, s, Deploy(sha), before);
      if st.proc.pc.Finished? { FinishedStays(st, OK); } else { AloneMoves(sys, st, s, sha); }
    }
  }

  /** A deploy and nothing else runs, without failure and to its end, and the
      active container is up after every action. */
  ghost predicate DeployRuns(sys: Sys, actions: seq<Action>, s: Service, sha: string) {
    && (forall a <- actions :: OnlyDeploy(a, s, sha))
    && 1 in Exec(sys, actions).procs && Exec(sys, actions).procs[1].pc == Finished(true)
    && forall k :: 0 <= k <= |actions| ==>
         s in Exec(sys, actions[..k]).world.sites && Available(Exec(sys, actions[..k]).world.sites[s])
  }

  lemma DeployBetween(sys: Sys, s: Service, sha: string, inputs: seq<Input>) returns (actions: seq<Action>)
    requires Idle(sys) && s in sys.world.sites && Available(sys.world.sites[s]) && !NoOp(sys.world.sites[s], sha)
    requires Smooth(inputs, OK) && |inputs| >= 20
    ensures DeployRuns(sys, actions, s, sha)
    ensures Exec(sys, actions).world.sites[s] == Promoted(Staged(sys.world.sites[s], sha), sha)
  {
    var st := Protocol.Run(State(sys.world, Begin(Deploy(sha), s)), inputs);
    SeenIsThere(sys.world.sites[s], CLEAR, Blue, "");
    SmoothRunSucceeds(sys.world, Deploy(sha), s, OK, inputs);
    DeployConverges(sys.world, s, sha, inputs);
    AloneRuns(sys, s, sha, inputs);
    actions := LeadsSchedule(sys, Alone(st), DeployRule(s, sha));
    assert actions[..|actions|] == actions;
    forall k | 0 <= k < |actions| ensures OnlyDeploy(actions[k], s, sha) {
      assert DeployRule(s, sha)(Exec(sys, actions[..k]), actions[k]);
    }
    forall k | 0 <= k <= |actions|
      ensures s in Exec(sys, actions[..k]).world.sites && Available(Exec(sys, actions[..k]).world.sites[s])
    {
      AvailabilityAlways(sys, actions[..k], s);
    }
  }

  lemma TwoLooks(x: Watched, s: Service)
    ensures History(x, s, [Look(true), Look(true)]) == Happen(Happen(x, s, Look(true)), s, Look(true))
  {
    assert [Look(true), Look(true)][..1] == [Look(true)] && [Look(true)][..0] == [];
    assert History(x, s, [Look(true)]) == Happen(x, s, Look(true));
  }

  lemma {:induction false} HistorySplit(x: Watched, s: Service, a: seq<Event>, b: seq<Event>)
    ensures History(x, s, a + b) == History(History(x, s, a), s, b)
    decreases |b|
  {
    if b == [] {
      assert a + b == a;
    } else {
      assert (a + b)[..|a + b| - 1] == a + b[..|b| - 1];
      HistorySplit(x, s, a, b[..|b| - 1]);
    }
  }

  /** Four looks that all work, with the actions between the second and the third. */
  function AroundContainers(actions: seq<Action>): seq<Event> {
    [Look(true), Look(true)] + Acts(actions) + [Look(true), Look(true)]
  }

  /** The same with the actions between the two inspections. */
  function BetweenContainers(actions: seq<Action>): seq<Event> {
    [Look(true), Look(true)] + [Look(true)] + Acts(actions) + [Look(true)]
  }

  /** Every healthy service without a preview is reported as mismatched when a
      deploy that is not skipped runs, successfully and with the active container
      up all the time, between the look at its color and the looks at its
      containers, all of which work. */
  lemma DeployLooksLikeMismatch(sys: Sys, s: Service, sha: string, inputs: seq<Input>) returns (actions: seq<Action>)
    requires Idle(sys) && s in sys.world.sites && Available(sys.world.sites[s])
    requires sys.world.sites[s].preview.None? && !NoOp(sys.world.sites[s], sha)
    requires Smooth(inputs, OK) && |inputs| >= 20
    ensures DeployRuns(sys, actions, s, sha)
    ensures var x := History(Watched(sys, FRESH), s, AroundContainers(actions));
            x.watch.looks == 4 && Verdict(x.watch.got) == Mismatch
  {
    var x, looks := Watched(sys, FRESH), [Look(true), Look(true)];
    actions := DeployBetween(sys, s, sha, inputs);
    TwoLooks(x, s);
    var x1 := History(x, s, looks);
    ActsRun(x1, s, actions);
    HistorySplit(x, s, looks, Acts(actions));
    HistorySplit(x, s, looks + Acts(actions), looks);
    TwoLooks(Watched(Exec(sys, actions), x1.watch), s);
  }

  /** And a healthy green one with blue down as dead when the deploy runs between
      the two inspections. */
  lemma DeployLooksLikeDead(sys: Sys, s: Service, sha: string, inputs: seq<Input>) returns (actions: seq<Action>)
    requires Idle(sys) && s in sys.world.sites && Available(sys.world.sites[s])
    requires sys.world.sites[s].preview.None? && !NoOp(sys.world.sites[s], sha)
    requires sys.world.sites[s].active.Green? && !sys.world.sites[s].Running(Blue)
    requires Smooth(inputs, OK) && |inputs| >= 20
    ensures DeployRuns(sys, actions, s, sha)
    ensures var x := History(Watched(sys, FRESH), s, BetweenContainers(actions));
            x.watch.looks == 4 && Verdict(x.watch.got) == Dead
  {
    var x, looks := Watched(sys, FRESH), [Look(true), Look(true)];
    actions := DeployBetween(sys, s, sha, inputs);
    var first := looks + [Look(true)];
    TwoLooks(x, s);
    HistoryOn(x, s, looks, History(x, s, looks), Look(true));
    var x1 := History(x, s, first);
    ActsRun(x1, s, actions);
    HistorySplit(x, s, first, Acts(actions));
    HistoryOn(x, s, first + Acts(actions), Watched(Exec(sys, actions), x1.watch), Look(true));
  }
}
