/** When traffic never meets a stopped container, and the two ways it can. */
module RouteTheorems {
  import opened Common
  import opened Protocol
  import opened ProcInvariant
  import opened Interleaving
  import opened LiveRoutes
  import opened CommandResults
  import opened CommandTheorems

  // ---------- One command by itself ----------

  ghost predicate Steady(st: State) {
    AllUp(st.world) && RouteInv(st.world, st.proc) && OwnsWell(st.world, st.proc)
  }

  lemma StepKeepsSteady(st: State, i: Input)
    requires Steady(st) && ReadsRight(st.world, st.proc, i)
    ensures Steady(Step(st, i))
  {
    StepKeepsUp(st, i);
    StepKeepsRouteInv(st, i);
    StepKeepsOwnsWell(st, i);
  }

  /** Whenever the run reads the colors, no green service's file is unreadable. */
  ghost predicate RightRun(st: State, inputs: seq<Input>) {
    forall k :: 0 <= k < |inputs| ==> ReadsRight(Run(st, inputs[..k]).world, Run(st, inputs[..k]).proc, inputs[k])
  }

  lemma RightPrefix(st: State, inputs: seq<Input>)
    requires inputs != [] && RightRun(st, inputs)
    ensures var n := |inputs| - 1;
            && RightRun(st, inputs[..n])
            && ReadsRight(Run(st, inputs[..n]).world, Run(st, inputs[..n]).proc, inputs[n])
  {
    var before := inputs[..|inputs| - 1];
    forall k | 0 <= k < |before|
      ensures ReadsRight(Run(st, before[..k]).world, Run(st, before[..k]).proc, before[k])
    {
      assert before[..k] == inputs[..k];
    }
  }

  lemma {:induction false} RunKeepsSteady(st: State, inputs: seq<Input>)
    requires Steady(st) && RightRun(st, inputs)
    ensures Steady(Run(st, inputs))
    decreases |inputs|
  {
    if inputs != [] {
      RightPrefix(st, inputs);
      RunKeepsSteady(st, inputs[..|inputs| - 1]);
      StepKeepsSteady(Run(st, inputs[..|inputs| - 1]), inputs[|inputs| - 1]);
    }
  }

  /** A command that starts with Caddy on the recorded color keeps every
      service's routed container up after each of its effects, whatever fails, a
      failed reload included, as long as no green color file is unreadable. */
  lemma CommandKeepsRoutesUp(w: World, cmd: Command, s: Service, inputs: seq<Input>)
    requires AllUp(w) && s in w.sites && RightRun(State(w, Begin(cmd, s)), inputs)
    requires cmd.ReloadRoutes? || InSync(w, s) || Harmless(w.sites[s], cmd)
    ensures AllUp(After(w, cmd, s, inputs))
  {
    RunKeepsSteady(State(w, Begin(cmd, s)), inputs);
  }

  const OK := Plainly(Ok)

  /** A first look that sees nothing but finds some image in the cache. */
  const DIM := Input(Ok, Some(LocalImage("x", "x")), Sight(true, {Blue, Green}), {})

  lemma TwoMore(st: State, inputs: seq<Input>, mid: State, b: Input, c: Input)
    requires Run(st, inputs) == mid
    ensures Run(st, inputs + [b] + [c]) == Step(Step(mid, b), c)
  {
    RunSnoc(st, inputs, b);
    RunSnoc(st, inputs + [b], c);
  }

  lemma OneStep(st: State, i: Input)
    ensures Run(st, [i]) == Step(st, i)
  {
    assert [i][..0] == [];
  }

  lemma DimDecision(v: Site, p: Proc)
    requires p.pc.Inspect? && !p.cmd.ReloadRoutes? && !Harmless(v, p.cmd)
    ensures var q := Move(v, p, DIM);
            && q.pc == (if p.cmd.CancelPreview? then StopInactive else Validate)
            && q.active == v.active && q.service == p.service && q.cmd == p.cmd
  {
  }

  /** The two effects after the decision leave no idle container. */
  lemma IdleGoes(st: State)
    requires st.proc.service in st.world.sites && !st.proc.cmd.ReloadRoutes?
    requires st.proc.pc.Validate? || st.proc.pc.StopInactive?
    ensures Step(st, OK).proc.pc.RemoveInactive? || Step(st, OK).proc.pc.DropInactive?
    ensures var w, p := st.world, st.proc;
            var w' := Step(Step(st, OK), OK).world;
            && w'.caddy == w.caddy && p.service in w'.sites
            && !w'.sites[p.service].Running(p.Inactive())
  {
    OtherStep(st, OK);
    MoveKeepsIdentity(st.world.sites[st.proc.service], st.proc, OK);
    OtherStep(Step(st, OK), OK);
  }

  lemma DecisionStep(st: State, i: Input)
    requires st.proc.pc.Inspect? && st.proc.service in st.world.sites && !st.proc.cmd.ReloadRoutes?
    ensures Step(st, i) == State(st.world, Move(st.world.sites[st.proc.service], st.proc, i))
  {
    OtherStep(st, i);
    assert st.world.sites[st.proc.service := st.world.sites[st.proc.service]] == st.world.sites;
  }

  /** Out of step, the third effect of such a command removes the routed container. */
  lemma OutOfStepFrom(st: State)
    requires st.proc.pc.Inspect? && st.proc.service in st.world.sites && !st.proc.cmd.ReloadRoutes?
    requires !InSync(st.world, st.proc.service) && !Harmless(st.world.sites[st.proc.service], st.proc.cmd)
    ensures var st1 := Step(st, DIM);
            && (st1.proc.pc.Validate? || st1.proc.pc.StopInactive?)
            && (Step(st1, OK).proc.pc.RemoveInactive? || Step(st1, OK).proc.pc.DropInactive?)
            && !AllUp(Step(Step(st1, OK), OK).world)
  {
    DimDecision(st.world.sites[st.proc.service], st.proc);
    DecisionStep(st, DIM);
    IdleGoes(Step(st, DIM));
    var w' := Step(Step(Step(st, DIM), OK), OK).world;
    assert !w'.sites[st.proc.service].Running(w'.Routed(st.proc.service));
  }

  lemma OutOfStep(w: World, cmd: Command, s: Service)
    requires s in w.sites && !InSync(w, s) && !cmd.ReloadRoutes? && !Harmless(w.sites[s], cmd)
    ensures RightRun(State(w, Begin(cmd, s)), [DIM] + [OK] + [OK])
    ensures !AllUp(After(w, cmd, s, [DIM] + [OK] + [OK]))
  {
    var st := State(w, Begin(cmd, s));
    OneStep(st, DIM);
    TwoMore(st, [DIM], Step(st, DIM), OK, OK);
    OutOfStepFrom(st);
  }

  /** Exactly when a command is safe for live traffic: with the colors read right
      and whatever else failing, Caddy never routes to a stopped container, if and
      only if Caddy was on the recorded color when the command started or the
      command is a harmless one. */
  lemma CommandSafeForTraffic(w: World, cmd: Command, s: Service)
    requires AllUp(w) && s in w.sites && !cmd.ReloadRoutes?
    ensures (forall inputs :: RightRun(State(w, Begin(cmd, s)), inputs) ==> AllUp(After(w, cmd, s, inputs)))
       <==> InSync(w, s) || Harmless(w.sites[s], cmd)
  {
    if InSync(w, s) || Harmless(w.sites[s], cmd) {
      forall inputs | RightRun(State(w, Begin(cmd, s)), inputs) ensures AllUp(After(w, cmd, s, inputs)) {
        CommandKeepsRoutesUp(w, cmd, s, inputs);
      }
    } else {
      OutOfStep(w, cmd, s);
    }
  }

  // ---------- Unreadable color files ----------

  /** After a deploy that changed something, every routed container is up if and
      only if each green service whose color could not be read has its blue one up. */
  lemma DeployLeavesRoutesUp(w: World, s: Service, sha: string, inputs: seq<Input>)
    requires AllUp(w) && s in w.sites && Succeeds(w, Deploy(sha), s, inputs) && After(w, Deploy(sha), s, inputs) != w
    ensures var w', blind := After(w, Deploy(sha), s, inputs), Unread(w, Deploy(sha), s, inputs);
            AllUp(w') <==> forall t <- w'.sites :: Misread(w', t, blind) ==> w'.sites[t].Running(Blue)
  {
    DeployConverges(w, s, sha, inputs);
    var w', blind := After(w, Deploy(sha), s, inputs), Unread(w, Deploy(sha), s, inputs);
    forall t <- w'.sites
      ensures Available(w'.sites[t]) && w'.Routed(t) == if Misread(w', t, blind) then Blue else w'.sites[t].active
    {
      assert t in w.sites;
    }
  }

  /** Every read of the run fails for the same files. */
  predicate AllBlind(inputs: seq<Input>, blind: set<Service>) {
    forall k :: 0 <= k < |inputs| ==> inputs[k].blind == blind
  }

  lemma {:induction false} BlindThroughout(w: World, s: Service, sha: string, inputs: seq<Input>, blind: set<Service>)
    requires s in w.sites && AllBlind(inputs, blind)
    ensures var st := Run(State(w, Begin(Deploy(sha), s)), inputs);
            (st.proc.pc.Reload? || st.proc.pc.StopOld? || st.proc.pc.Prune? ==> st.proc.blind == blind)
            && (st.proc.pc == Finished(true) ==> st.proc.blind == blind || st.world == w)
    decreases |inputs|
  {
    if inputs != [] {
      var before, i := inputs[..|inputs| - 1], inputs[|inputs| - 1];
      var st := Run(State(w, Begin(Deploy(sha), s)), before);
      BlindThroughout(w, s, sha, before, blind);
      RunStands(w, s, Deploy(sha), before);
      BlindStep(w, s, sha, st, i);
    }
  }

  lemma BlindStep(w: World, s: Service, sha: string, st: State, i: Input)
    requires Standing(w, s, Deploy(sha), st)
    requires st.proc.pc.Reload? || st.proc.pc.StopOld? || st.proc.pc.Prune? ==> st.proc.blind == i.blind
    requires st.proc.pc == Finished(true) ==> st.proc.blind == i.blind || st.world == w
    ensures var st' := Step(st, i);
            (st'.proc.pc.Reload? || st'.proc.pc.StopOld? || st'.proc.pc.Prune? ==> st'.proc.blind == i.blind)
            && (st'.proc.pc == Finished(true) ==> st'.proc.blind == i.blind || st'.world == w)
  {
    if st.proc.pc.Finished? {
      FinishedStays(st, i);
    } else {
      DeployMoves(st, i);
      assert w.sites[s := w.sites[s]] == w.sites;
    }
  }

  /** Where a deploy comes from, late in its run. */
  lemma DeployMoves(st: State, i: Input)
    requires st.proc.cmd.Deploy? && st.proc.service in st.world.sites && !st.proc.pc.Finished? && !st.proc.pc.Acquire?
    ensures var p, p', v := st.proc, Step(st, i).proc, st.world.sites[st.proc.service];
            && (p'.pc.Reload? ==> ReadsColors(p.pc))
            && (p'.pc.StopOld? ==> p.pc.Reload?)
            && (p'.pc.Prune? ==> p.pc.StopOld? || p.pc.DropInactive?)
            && (p'.pc == Finished(true) ==> p.pc.Prune? || p.pc.Nginx? || p.pc.DeletePreview? || p.pc.Inspect?)
            && (p.pc.Inspect? ==> Touch(v, p, i.fate) == v)
            && p'.blind == if ReadsColors(p.pc) then i.blind else p.blind
  {
  }

  /** Such a run: from blue, with only its own color file unreadable, a deploy
      tells Caddy blue, stops blue and reports success. */
  lemma BlindDeployMisroutes(w: World, s: Service, sha: string, inputs: seq<Input>)
    requires s in w.sites && w.sites[s].active.Blue? && !NoOp(w.sites[s], sha)
    requires Smooth(inputs, Input(Ok, None, CLEAR, {s})) && |inputs| >= 20
    ensures Succeeds(w, Deploy(sha), s, inputs)
    ensures var w' := After(w, Deploy(sha), s, inputs);
            s in w'.sites && w'.sites[s].active.Green? && w'.Routed(s) == Blue && !w'.sites[s].Running(Blue)
  {
    SeenIsThere(w.sites[s], CLEAR, Blue, "");
    SmoothRunSucceeds(w, Deploy(sha), s, Input(Ok, None, CLEAR, {s}), inputs);
    BlindThroughout(w, s, sha, inputs, {s});
    DeployConverges(w, s, sha, inputs);
  }

  // ---------- On the way to a reload ----------

  /** The effect that follows on the way to the reload of a deploy. */
  function PathNext(pc: Pc): Option<Pc> {
    match pc
    case Inspect => Some(Validate)
    case Validate => Some(RemoveInactive)
    case RemoveInactive => Some(StartInactive)
    case StartInactive => Some(Health)
    case Health => Some(Guard)
    case Guard => Some(WriteActive)
    case WriteActive => Some(WriteSha)
    case WriteSha => Some(ReadColors)
    case ReadColors => Some(Reload)
    case _ => None
  }

  lemma PathStep(st: State)
    requires st.proc.cmd.Deploy? && st.proc.service in st.world.sites && PathNext(st.proc.pc).Some?
    requires st.proc.pc.Inspect? ==> !NoOp(st.world.sites[st.proc.service], st.proc.cmd.sha)
    requires st.proc.pc.Guard? ==> st.world.sites[st.proc.service].Running(st.proc.Inactive())
    ensures Step(st, OK).proc.pc == PathNext(st.proc.pc).value
    ensures Step(st, OK).world.caddy == st.world.caddy
  {
    OtherStep(st, OK);
  }

  lemma GuardIsUp(w: World, s: Service, sha: string, st: State)
    requires Standing(w, s, Deploy(sha), st) && st.proc.pc.Guard?
    ensures st.world.sites[s].Running(st.proc.Inactive())
  {
    BaseIsUp(w.sites[s], st.proc);
  }

  /** Where a deploy that met no failure stands after `n` effects. */
  predicate OnPath(w: World, st: State, n: nat) {
    && Rank(st.proc.pc) == 19 - n
    && (PathNext(st.proc.pc).Some? || st.proc.pc.Reload?)
    && st.world.caddy == w.caddy
  }

  lemma PathStepFrom(w: World, s: Service, sha: string, st: State, n: nat)
    requires Standing(w, s, Deploy(sha), st) && !NoOp(w.sites[s], sha) && OnPath(w, st, n) && n < 9
    ensures OnPath(w, Step(st, OK), n + 1)
  {
    if st.proc.pc.Guard? { GuardIsUp(w, s, sha, st); }
    PathStep(st);
  }

  /** A deploy without failures gets to its reload, and Caddy has not changed by then. */
  lemma {:induction false} DeployReaches(w: World, s: Service, sha: string, inputs: seq<Input>)
    requires s in w.sites && !NoOp(w.sites[s], sha) && Smooth(inputs, OK) && |inputs| <= 9
    ensures OnPath(w, Run(State(w, Begin(Deploy(sha), s)), inputs), |inputs|)
    decreases |inputs|
  {
    if inputs != [] {
      var before := inputs[..|inputs| - 1];
      DeployReaches(w, s, sha, before);
      RunStands(w, s, Deploy(sha), before);
      PathStepFrom(w, s, sha, Run(State(w, Begin(Deploy(sha), s)), before), |before|);
      assert inputs[|inputs| - 1] == OK;
    }
  }

  /** A reload of the routes puts a service back in step, if and only if that is
      not a green one whose color file is unreadable. */
  lemma ReloadRepairs(w: World, s: Service, i: Input, t: Service)
    requires t in w.sites && i.fate.Ok?
    ensures After(w, ReloadRoutes, s, [i, OK]) == World(w.sites, w.ColorsBut(i.blind))
    ensures InSync(World(w.sites, w.ColorsBut(i.blind)), t) <==> !Misread(w, t, i.blind)
  {
    var st := State(w, Begin(ReloadRoutes, s));
    assert [i, OK][..1] == [i] && [i][..0] == [];
    assert Run(st, [i]) == Step(st, i);
    assert Step(st, i).world == w && Step(st, i).proc.pc.ReloadAgain?;
  }

  // ---------- How a service gets out of step ----------

  lemma SightedIsRight(st: State, inputs: seq<Input>)
    requires AllBlind(inputs, {})
    ensures RightRun(st, inputs)
  {
  }

  /** A deploy whose reload fails, all else having gone well. */
  lemma FailedReloadLeavesBehind(w: World, s: Service, sha: string, smooth: seq<Input>)
    requires s in w.sites && InSync(w, s) && !NoOp(w.sites[s], sha) && Smooth(smooth, OK) && |smooth| == 9
    ensures var w1 := After(w, Deploy(sha), s, smooth + [Plainly(Failed(Residue.Untouched))]);
            s in w1.sites && !InSync(w1, s) && w1.sites[s].sha == Readback(sha)
  {
    var st0 := State(w, Begin(Deploy(sha), s));
    DeployReaches(w, s, sha, smooth);
    RunStands(w, s, Deploy(sha), smooth);
    BehindAtReload(w, s, sha, Run(st0, smooth), |smooth|);
    RunSnoc(st0, smooth, Plainly(Failed(Residue.Untouched)));
    FailedReload(Run(st0, smooth));
  }

  lemma BehindAtReload(w: World, s: Service, sha: string, st: State, n: nat)
    requires Standing(w, s, Deploy(sha), st) && OnPath(w, st, n) && n == 9 && InSync(w, s)
    ensures st.proc.pc.Reload? && s in st.world.sites && !InSync(st.world, s) && st.world.sites[s].sha == Readback(sha)
  {
  }

  /** For a deploy that has something to do, three effects without any failure suffice. */
  lemma PlainOutOfStep(w: World, s: Service, sha: string)
    requires s in w.sites && !InSync(w, s) && !NoOp(w.sites[s], sha)
    ensures !AllUp(After(w, Deploy(sha), s, [OK] + [OK] + [OK]))
  {
    var st := State(w, Begin(Deploy(sha), s));
    SeenIsThere(w.sites[s], CLEAR, Blue, "");
    OneStep(st, OK);
    TwoMore(st, [OK], Step(st, OK), OK, OK);
    DecisionStep(st, OK);
    IdleGoes(Step(st, OK));
    var w' := After(w, Deploy(sha), s, [OK] + [OK] + [OK]);
    assert !w'.sites[s].Running(w'.Routed(s));
  }

  /** From every healthy host: a deploy whose reload fails leaves Caddy one color
      behind, and then the next deploy of another SHA, none of whose effects or looks
      fails, takes the routed container down. Availability across commands is
      therefore a promise about the recorded color, not about the routed one. */
  lemma FailedReloadThenDeploy(w: World, s: Service, sha: string, next: string, smooth: seq<Input>)
    requires AllUp(w) && s in w.sites && InSync(w, s) && !NoOp(w.sites[s], sha) && next != sha
    requires Smooth(smooth, OK) && |smooth| == 9
    ensures var w1 := After(w, Deploy(sha), s, smooth + [Plainly(Failed(Residue.Untouched))]);
            && AllUp(w1) && s in w1.sites && !InSync(w1, s)
            && !AllUp(After(w1, Deploy(next), s, [OK] + [OK] + [OK]))
  {
    var first := smooth + [Plainly(Failed(Residue.Untouched))];
    SightedIsRight(State(w, Begin(Deploy(sha), s)), first);
    CommandKeepsRoutesUp(w, Deploy(sha), s, first);
    FailedReloadLeavesBehind(w, s, sha, smooth);
    PlainOutOfStep(After(w, Deploy(sha), s, first), s, next);
  }

  lemma FailedReload(st: State)
    requires st.proc.cmd.Deploy? && st.proc.pc.Reload? && st.proc.service in st.world.sites
    ensures Step(st, Plainly(Failed(Residue.Untouched))).world == st.world
  {
    var w, s := st.world, st.proc.service;
    assert w.sites[s := w.sites[s]] == w.sites;
  }
}
