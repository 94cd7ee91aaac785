/** The routed color over interleaved runs: `apply_all` reads the colors of all
    services first and loads them later, so other commands can come between. */
module RouteRuns {
  import opened Common
  import opened Protocol
  import opened ProcInvariant
  import opened Interleaving
  import opened LiveRoutes
  import opened CommandResults
  import opened CommandTheorems
  import opened RouteTheorems
  import opened Schedules

  /** Two rules an operator can keep: no command records a color while another
      process is between reading the colors and loading them, and a command is
      only let past its lock while Caddy is on the service's recorded color, or if
      it is a harmless one. */
  ghost predicate MayMove(sys: Sys, pid: Pid)
    requires pid in sys.procs
  {
    var p := sys.procs[pid];
    && (p.pc.WriteActive? && Holding(p) && p.service in sys.world.sites ==>
          forall q <- sys.procs :: q != pid ==> !AboutToLoad(sys.world, sys.procs[q]))
    && (p.pc.Acquire? && !p.cmd.ReloadRoutes? && p.service in sys.world.sites && p.service !in sys.locks ==>
          InSync(sys.world, p.service) || Harmless(sys.world.sites[p.service], p.cmd))
  }

  /** The rules are kept, and no green color file is unreadable when it is read. */
  ghost predicate Disciplined(sys: Sys, a: Action) {
    a.Advance? && a.pid in sys.procs ==>
      MayMove(sys, a.pid) && ReadsRight(sys.world, sys.procs[a.pid], a.input)
  }

  ghost predicate DisciplinedRun(sys: Sys, actions: seq<Action>) {
    forall k :: 0 <= k < |actions| ==> Disciplined(Exec(sys, actions[..k]), actions[k])
  }

  ghost predicate UpInv(sys: Sys) {
    && SysInv(sys)
    && AllUp(sys.world)
    && forall pid :: pid in sys.procs ==> RouteInv(sys.world, sys.procs[pid])
  }

  lemma OnlyWriteActiveRecolors(v: Site, p: Proc, fate: Fate)
    requires !p.pc.WriteActive?
    ensures Touch(v, p, fate).active == v.active
  {
  }

  /** A step of one process does not disturb what another one relies on. */
  lemma BystanderKept(st: State, i: Input, q: Proc)
    requires RouteInv(st.world, st.proc) && RouteInv(st.world, q)
    requires AboutToLoad(st.world, q) && st.proc.pc.WriteActive? ==>
               st.proc.cmd.ReloadRoutes? || st.proc.service !in st.world.sites
    requires Holding(q) && Holding(st.proc) ==> q.service != st.proc.service
    requires !st.proc.pc.Acquire?
    ensures RouteInv(Step(st, i).world, q)
  {
    var w, p := st.world, st.proc;
    if p.cmd.ReloadRoutes? || LoadsColors(p.pc) || p.service !in w.sites {
      LoadKeepsSites(st, i);
      if q.service in w.sites { LoadedInSync(w, q.service, w.sites); }
    } else {
      OtherStep(st, i);
      if !p.pc.WriteActive? { OnlyWriteActiveRecolors(w.sites[p.service], p, i.fate); }
    }
  }

  lemma StepKeepsUpInv(sys: Sys, a: Action)
    requires UpInv(sys) && Disciplined(sys, a) && a.Advance? && a.pid in sys.procs
    requires !sys.procs[a.pid].pc.Acquire? && !sys.procs[a.pid].pc.Finished?
    ensures UpInv(Next(sys, a))
  {
    var pid, p := a.pid, sys.procs[a.pid];
    var st := State(sys.world, p);
    assert OwnInv(sys, pid);
    NextKeepsInv(sys, a);
    StepKeepsUp(st, a.input);
    StepKeepsRouteInv(st, a.input);
    var sys' := Next(sys, a);
    assert sys' == StepProc(sys, pid, p, a.input);
    forall q | q in sys'.procs ensures RouteInv(sys'.world, sys'.procs[q]) {
      if q != pid {
        if Holding(sys.procs[q]) && Holding(p) && sys.procs[q].service == p.service { Exclusive(sys, q, pid); }
        BystanderKept(st, a.input, sys.procs[q]);
      }
    }
  }

  lemma NextKeepsUpInv(sys: Sys, a: Action)
    requires UpInv(sys) && Disciplined(sys, a)
    ensures UpInv(Next(sys, a))
  {
    if a.Advance? && a.pid in sys.procs && !sys.procs[a.pid].pc.Acquire? && !sys.procs[a.pid].pc.Finished? {
      StepKeepsUpInv(sys, a);
    } else {
      NextKeepsInv(sys, a);
    }
  }

  /** Under that discipline traffic never meets a stopped container, over every
      interleaving of commands, failures and kills. */
  lemma RoutesAlwaysUp(sys: Sys, actions: seq<Action>)
    requires Idle(sys) && AllUp(sys.world) && DisciplinedRun(sys, actions)
    ensures UpInv(Exec(sys, actions))
  {
    ExecKeepsUpInv(sys, actions);
  }

  lemma {:induction false} ExecKeepsUpInv(sys: Sys, actions: seq<Action>)
    requires UpInv(sys) && DisciplinedRun(sys, actions)
    ensures UpInv(Exec(sys, actions))
    decreases |actions|
  {
    if actions != [] {
      var n := |actions| - 1;
      var before := actions[..n];
      assert DisciplinedRun(sys, before) by {
        forall k | 0 <= k < n ensures Disciplined(Exec(sys, before[..k]), before[k]) {
          assert before[..k] == actions[..k];
        }
      }
      ExecKeepsUpInv(sys, before);
      NextKeepsUpInv(Exec(sys, before), actions[n]);
    }
  }

  // ---------- Both rules are needed ----------

  /** From here on the rules are kept and no effect fails, and still a routed
      container goes down. */
  ghost predicate Endangered(sys: Sys) {
    exists actions: seq<Action> ::
      && DisciplinedRun(sys, actions) && (forall a <- actions :: a.Advance? && a.input.fate.Ok?)
      && !AllUp(Exec(sys, actions).world)
  }

  /** Processes that run move on, without failure and within the rules. */
  ghost function Orderly(): Rule {
    (x, a) => Disciplined(x, a) && a.Advance? && a.input.fate.Ok?
  }

  lemma LeadsToDanger(sys: Sys, bad: Sys)
    requires Leads(sys, bad, Orderly()) && !AllUp(bad.world)
    ensures Endangered(sys)
  {
    var actions := LeadsSchedule(sys, bad, Orderly());
    forall k | 0 <= k < |actions|
      ensures Disciplined(Exec(sys, actions[..k]), actions[k]) && actions[k].Advance? && actions[k].input.fate.Ok?
    {
      assert Orderly()(Exec(sys, actions[..k]), actions[k]);
    }
  }

  /** A step that neither asks for a lock nor records a color keeps the rules. */
  lemma OrderlyMove(sys: Sys, pid: Pid, i: Input)
    requires pid in sys.procs && !sys.procs[pid].pc.Acquire? && !sys.procs[pid].pc.WriteActive?
    requires i.fate.Ok? && i.blind == {}
    ensures Orderly()(sys, Advance(pid, i))
  {
  }

  lemma LetMoveOrderly(start: Sys, sys: Sys, pid: Pid, st: State, i: Input)
    requires Leads(start, With(sys, pid, st), Orderly()) && i.fate.Ok? && i.blind == {}
    requires !st.proc.pc.Acquire? && !st.proc.pc.Finished? && !st.proc.pc.WriteActive?
    ensures Leads(start, With(sys, pid, Step(st, i)), Orderly())
  {
    OrderlyMove(With(sys, pid, st), pid, i);
    LetMove(start, sys, pid, st, i, Orderly());
  }

  /** A command let past its lock out of step. */
  lemma GrantedOutOfStep(sys: Sys, pid: Pid)
    requires pid in sys.procs && sys.procs[pid].pc.Acquire? && !sys.procs[pid].cmd.ReloadRoutes?
    requires sys.procs[pid].service in sys.world.sites && sys.procs[pid].service !in sys.locks
    requires !InSync(sys.world, sys.procs[pid].service)
    requires !Harmless(sys.world.sites[sys.procs[pid].service], sys.procs[pid].cmd)
    ensures Endangered(Next(sys, Advance(pid, OK)))
  {
    var sys1 := Next(sys, Advance(pid, OK));
    var st := State(sys.world, sys.procs[pid].Goto(Inspect));
    assert sys1 == With(sys1, pid, st);
    LeadsHere(sys1, Orderly());
    OutOfStepFrom(st);
    LetMoveOrderly(sys1, sys1, pid, st, DIM);
    LetMoveOrderly(sys1, sys1, pid, Step(st, DIM), OK);
    LetMoveOrderly(sys1, sys1, pid, Step(Step(st, DIM), OK), OK);
    LeadsToDanger(sys1, With(sys1, pid, Step(Step(Step(st, DIM), OK), OK)));
  }

  /** One effect of the switch, from the color write to the stop of the old container. */
  lemma SwitchStep(st: State)
    requires InSwitch(st.proc.pc) && st.proc.service in st.world.sites && !st.proc.cmd.ReloadRoutes?
    ensures var p, st' := st.proc, Step(st, OK);
            && st'.proc.pc == Following(st.world.sites[p.service], p)
            && st'.proc.service == p.service && st'.proc.cmd == p.cmd && st'.proc.active == p.active
            && p.service in st'.world.sites && st'.world.sites.Keys == st.world.sites.Keys
            && (p.pc.StopOld? ==> !st'.world.sites[p.service].Running(p.active))
  {
    StepSite(st, OK);
    MoveKeepsIdentity(st.world.sites[st.proc.service], st.proc, OK);
  }

  /** A process that loads what it read. */
  lemma LoadStepIs(w: World, q: Proc)
    requires AboutToLoad(w, q)
    ensures Step(State(w, q), OK).world == World(w.sites, q.snapshot)
  {
    if q.service in w.sites { assert w.sites[q.service := w.sites[q.service]] == w.sites; }
  }

  /** The rule lets the process switch over once its color is recorded. */
  ghost predicate LetsSwitch(rule: Rule, pid: Pid) {
    forall x: Sys | pid in x.procs && InSwitch(x.procs[pid].pc) && !x.procs[pid].pc.WriteActive? ::
      rule(x, Advance(pid, OK))
  }

  /** From the SHA write to the stop of the old container. */
  lemma SwitchGoesOn(start: Sys, sys: Sys, pid: Pid, st: State, rule: Rule) returns (st': State)
    requires LetsSwitch(rule, pid) && Leads(start, With(sys, pid, st), rule)
    requires st.proc.pc.WriteSha? && st.proc.service in st.world.sites && !st.proc.cmd.ReloadRoutes?
    ensures Leads(start, With(sys, pid, st'), rule)
    ensures st.proc.service in st'.world.sites && !st'.world.sites[st.proc.service].Running(st.proc.active)
    ensures st'.world.sites.Keys == st.world.sites.Keys
  {
    var mid := SwitchTwice(start, sys, pid, st, rule);
    st' := SwitchTwice(start, sys, pid, mid, rule);
  }

  lemma SwitchTwice(start: Sys, sys: Sys, pid: Pid, st: State, rule: Rule) returns (st': State)
    requires LetsSwitch(rule, pid) && Leads(start, With(sys, pid, st), rule)
    requires st.proc.pc.WriteSha? || st.proc.pc.Reload?
    requires st.proc.service in st.world.sites && !st.proc.cmd.ReloadRoutes?
    ensures Leads(start, With(sys, pid, st'), rule)
    ensures st.proc.pc.WriteSha? ==> st'.proc.pc.Reload?
    ensures st'.proc.service == st.proc.service && st'.proc.cmd == st.proc.cmd && st'.proc.active == st.proc.active
    ensures st'.world.sites.Keys == st.world.sites.Keys
    ensures st.proc.pc.Reload? ==> !st'.world.sites[st.proc.service].Running(st.proc.active)
  {
    var mid := SwitchOnce(start, sys, pid, st, rule);
    st' := SwitchOnce(start, sys, pid, mid, rule);
  }

  lemma SwitchOnce(start: Sys, sys: Sys, pid: Pid, st: State, rule: Rule) returns (st': State)
    requires LetsSwitch(rule, pid) && Leads(start, With(sys, pid, st), rule)
    requires InSwitch(st.proc.pc) && !st.proc.pc.WriteActive?
    requires st.proc.service in st.world.sites && !st.proc.cmd.ReloadRoutes?
    ensures Leads(start, With(sys, pid, st'), rule)
    ensures st'.proc.pc == Following(st.world.sites[st.proc.service], st.proc)
    ensures st'.proc.service == st.proc.service && st'.proc.cmd == st.proc.cmd && st'.proc.active == st.proc.active
    ensures st'.world.sites.Keys == st.world.sites.Keys
    ensures st.proc.pc.StopOld? ==> !st'.world.sites[st.proc.service].Running(st.proc.active)
  {
    st' := Step(st, OK);
    SwitchStep(st);
    LetMove(start, sys, pid, st, OK, rule);
  }

  lemma OrderlySwitch(pid: Pid)
    ensures LetsSwitch(Orderly(), pid)
  {
    forall x: Sys | pid in x.procs && InSwitch(x.procs[pid].pc) && !x.procs[pid].pc.WriteActive?
      ensures Orderly()(x, Advance(pid, OK))
    {
      OrderlyMove(x, pid, OK);
    }
  }

  /** A color recorded while another process is between reading and loading. */
  lemma WrittenBetween(sys: Sys, pid: Pid, q: Pid)
    requires pid in sys.procs && q in sys.procs && q != pid && UpInv(sys)
    requires Holding(sys.procs[pid]) && sys.procs[pid].pc.WriteActive? && sys.procs[pid].service in sys.world.sites
    requires AboutToLoad(sys.world, sys.procs[q])
    ensures Endangered(Next(sys, Advance(pid, OK)))
  {
    var p, s := sys.procs[pid], sys.procs[pid].service;
    var st0 := State(sys.world, p);
    var sys1 := Next(sys, Advance(pid, OK));
    assert sys1 == With(sys, pid, Step(st0, OK));
    LeadsHere(sys1, Orderly());
    SwitchStep(st0);
    OrderlySwitch(pid);
    var st := SwitchGoesOn(sys1, sys, pid, Step(st0, OK), Orderly());
    assert OwnInv(sys, pid);
    assert sys.procs[q].snapshot[s] == p.active;
    StaleLoad(sys1, With(sys, pid, st), q, s);
  }

  /** A process loads a color whose container is down. */
  lemma StaleLoad(start: Sys, sys: Sys, q: Pid, s: Service)
    requires Leads(start, sys, Orderly()) && q in sys.procs && AboutToLoad(sys.world, sys.procs[q])
    requires s in sys.world.sites && s in sys.procs[q].snapshot
    requires !sys.world.sites[s].Running(sys.procs[q].snapshot[s])
    ensures Endangered(start)
  {
    var end := Next(sys, Advance(q, OK));
    OrderlyMove(sys, q, OK);
    LeadsOn(start, sys, Advance(q, OK), end, Orderly());
    assert end.world == Step(State(sys.world, sys.procs[q]), OK).world;
    LoadStepIs(sys.world, sys.procs[q]);
    assert !end.world.sites[s].Running(end.world.Routed(s));
    LeadsToDanger(start, end);
  }

  /** The two rules are exact in every state that keeping them leads to: a process
      may move if and only if, whoever moves next and however, keeping the rules
      from then on and with no effect failing, every routed container stays up. */
  lemma RulesAreExact(sys: Sys, pid: Pid)
    requires UpInv(sys) && pid in sys.procs
    ensures MayMove(sys, pid) <==> !Endangered(Next(sys, Advance(pid, OK)))
  {
    var p, sys1 := sys.procs[pid], Next(sys, Advance(pid, OK));
    if MayMove(sys, pid) {
      NextKeepsUpInv(sys, Advance(pid, OK));
      forall actions | DisciplinedRun(sys1, actions) ensures AllUp(Exec(sys1, actions).world) {
        ExecKeepsUpInv(sys1, actions);
      }
    } else if p.pc.Acquire? {
      GrantedOutOfStep(sys, pid);
    } else {
      var q :| q in sys.procs && q != pid && AboutToLoad(sys.world, sys.procs[q]);
      WrittenBetween(sys, pid, q);
    }
  }

  // ---------- The reading rule ----------

  predicate AboutToRead(w: World, p: Proc) {
    if p.cmd.ReloadRoutes? then p.pc.ReadColorsAgain? else ReadsColors(p.pc) && p.service in w.sites
  }

  /** A process reads the colors with some files unreadable and then loads them:
      every routed container is up after that if and only if each green service
      whose color could not be read has its blue container up. */
  lemma BlindLoad(sys: Sys, pid: Pid, i: Input)
    requires UpInv(sys) && pid in sys.procs && AboutToRead(sys.world, sys.procs[pid]) && i.fate.Ok?
    ensures var end := Next(Next(sys, Advance(pid, i)), Advance(pid, OK)).world;
            AllUp(end) <==> forall t <- sys.world.sites :: Misread(sys.world, t, i.blind) ==> sys.world.sites[t].Running(Blue)
  {
    var w, p := sys.world, sys.procs[pid];
    var st := State(w, p);
    BlindReadStep(st, i);
    var st1 := Step(st, i);
    LoadStepIs(w, st1.proc);
    assert Next(sys, Advance(pid, i)) == With(sys, pid, st1);
    var end := Step(st1, OK).world;
    assert Next(With(sys, pid, st1), Advance(pid, OK)).world == end;
    assert end == World(w.sites, w.ColorsBut(i.blind));
    forall t <- w.sites
      ensures Available(w.sites[t]) && end.Routed(t) == if Misread(w, t, i.blind) then Blue else w.sites[t].active
    {
    }
  }

  lemma BlindReadStep(st: State, i: Input)
    requires AboutToRead(st.world, st.proc) && i.fate.Ok?
    ensures Step(st, i).world == st.world && Step(st, i).proc.snapshot == st.world.ColorsBut(i.blind)
    ensures AboutToLoad(st.world, Step(st, i).proc)
  {
    var w, s := st.world, st.proc.service;
    if s in w.sites { assert w.sites[s := w.sites[s]] == w.sites; }
  }
}
