/** The color live Caddy routes to: when it stays up, and when it does not. */
module LiveRoutes {
  import opened Common
  import opened Protocol
  import opened ProcInvariant
  import opened Interleaving

  /** Every service's active container and the container Caddy routes to are up. */
  ghost predicate AllUp(w: World) {
    forall s :: s in w.sites ==> Available(w.sites[s]) && w.sites[s].Running(w.Routed(s))
  }

  /** Effects that take the idle container down, or can when they fail, and the
      effect that stops the old one. */
  predicate Risky(pc: Pc) {
    match pc
    case Validate => true
    case RemoveInactive => true
    case StartInactive => true
    case Health => true
    case StopInactive => true
    case DropInactive => true
    case StartPrevious => true
    case PollHealth => true
    case StopOld => true
    case _ => false
  }

  /** Commands that can do no harm to traffic even when Caddy is on the other
      color: a rollback, which then finds that container up and refuses, and the
      promotion of a preview, which then records the color Caddy is on. */
  predicate Harmless(v: Site, cmd: Command) {
    cmd.Rollback? || (cmd == Cutover(None) && v.preview.Some?)
  }

  /** The process has read the colors and is about to load them. */
  predicate AboutToLoad(w: World, p: Proc) {
    LoadsColors(p.pc) && (p.cmd.ReloadRoutes? || p.service in w.sites)
  }

  /** What a command needs so that none of its steps takes the routed color down. */
  predicate RouteInv(w: World, p: Proc) {
    && (AboutToLoad(w, p) ==> p.snapshot == w.Colors())
    && (p.service in w.sites && Holding(p) ==> SafeAt(w.sites[p.service], p, w.Routed(p.service)))
  }

  predicate SafeAt(v: Site, p: Proc, routed: Color) {
    && (Risky(p.pc) ==> routed == v.active)
    && (p.pc.Inspect? ==> routed == v.active || Harmless(v, p.cmd))
    && (AfterWrite(p.pc) ==> v.Running(Blue) && v.Running(Green))
  }

  /** No green service's color file is unreadable when the colors are read. */
  ghost predicate ReadsRight(w: World, p: Proc, i: Input) {
    ReadsColors(p.pc) ==> forall t <- w.sites :: !Misread(w, t, i.blind)
  }

  lemma RightReading(w: World, p: Proc, i: Input)
    requires ReadsColors(p.pc) && ReadsRight(w, p, i)
    ensures w.ColorsBut(i.blind) == w.Colors()
  {
  }

  lemma SiteStaysUp(v: Site, p: Proc, i: Input, routed: Color)
    requires ProcInv(v, p) && Available(v) && v.Running(routed) && !LoadsColors(p.pc) && SafeAt(v, p, routed)
    ensures Touch(v, p, i.fate).Running(routed) && SafeAt(Touch(v, p, i.fate), Move(v, p, i), routed)
  {
    if p.pc.Inspect? { DecisionIsSafe(v, p, i, routed); }
  }

  lemma DecisionIsSafe(v: Site, p: Proc, i: Input, routed: Color)
    requires p.pc.Inspect? && Available(v) && v.Running(routed) && SafeAt(v, p, routed)
    ensures SafeAt(v, Move(v, p, i), routed)
  {
    if routed != v.active { SeenIsThere(v, i.sight, routed, ""); }
  }

  /** Loading the current colors puts every service in step at once. */
  lemma LoadedInSync(w: World, s: Service, sites: map<Service, Site>)
    requires s in w.sites && s in sites && sites[s].active == w.sites[s].active
    ensures InSync(World(sites, w.Colors()), s)
  {
  }

  /** The process satisfies its own invariant wherever it touches a service. */
  predicate OwnsWell(w: World, p: Proc) {
    !p.pc.Acquire? && (Holding(p) && p.service in w.sites ==> ProcInv(w.sites[p.service], p))
  }

  /** A step that hands colors to Caddy, or belongs to no service, moves no container. */
  lemma LoadKeepsSites(st: State, i: Input)
    requires RouteInv(st.world, st.proc)
    requires st.proc.cmd.ReloadRoutes? || LoadsColors(st.proc.pc) || st.proc.service !in st.world.sites
    ensures Step(st, i).world == st.world || Step(st, i).world == World(st.world.sites, st.world.Colors())
  {
    var w, s := st.world, st.proc.service;
    if s in w.sites { assert w.sites[s := w.sites[s]] == w.sites; }
  }

  /** Any other step leaves Caddy as it is. */
  lemma OtherStep(st: State, i: Input)
    requires !st.proc.cmd.ReloadRoutes? && !LoadsColors(st.proc.pc) && st.proc.service in st.world.sites
    ensures var w, s, p := st.world, st.proc.service, st.proc;
            var q := if ReadsColors(p.pc) then p.Reading(w, i.blind) else p;
            && Step(st, i).world == World(w.sites[s := Touch(w.sites[s], p, i.fate)], w.caddy)
            && Step(st, i).proc == Move(w.sites[s], q, i)
  {
  }

  /** The service and the process change as the single-service machine says. */
  lemma StepSite(st: State, i: Input)
    requires !st.proc.cmd.ReloadRoutes? && st.proc.service in st.world.sites
    ensures var v, p := st.world.sites[st.proc.service], st.proc;
            && p.service in Step(st, i).world.sites
            && Step(st, i).world.sites[p.service] == Touch(v, p, i.fate)
            && Step(st, i).proc.(snapshot := p.snapshot, blind := p.blind) == Move(v, p, i)
  {
  }

  lemma StepKeepsOwnsWell(st: State, i: Input)
    requires OwnsWell(st.world, st.proc)
    ensures OwnsWell(Step(st, i).world, Step(st, i).proc)
  {
    var p := st.proc;
    if !p.cmd.ReloadRoutes? && p.service in st.world.sites {
      var v := st.world.sites[p.service];
      StepSite(st, i);
      MoveKeepsIdentity(v, p, i);
      MoveKeepsInv(v, p, i);
      SnapshotIrrelevant(Touch(v, p, i.fate), Step(st, i).proc, p.snapshot, p.blind);
    }
  }

  lemma StepKeepsUp(st: State, i: Input)
    requires AllUp(st.world) && RouteInv(st.world, st.proc) && OwnsWell(st.world, st.proc)
    ensures AllUp(Step(st, i).world)
  {
    var w, p, s := st.world, st.proc, st.proc.service;
    if p.cmd.ReloadRoutes? || LoadsColors(p.pc) || s !in w.sites {
      LoadKeepsSites(st, i);
    } else {
      OtherStep(st, i);
      TouchKeepsAvailable(w.sites[s], p, i.fate);
      SiteStaysUp(w.sites[s], p, i, w.Routed(s));
    }
  }

  lemma ReloadKeepsRouteInv(st: State, i: Input)
    requires RouteInv(st.world, st.proc) && OwnsWell(st.world, st.proc) && ReadsRight(st.world, st.proc, i)
    requires st.proc.cmd.ReloadRoutes? || LoadsColors(st.proc.pc) || st.proc.service !in st.world.sites
    ensures RouteInv(Step(st, i).world, Step(st, i).proc)
  {
    var w, p, s := st.world, st.proc, st.proc.service;
    LoadKeepsSites(st, i);
    if ReadsColors(p.pc) { RightReading(w, p, i); }
    if !p.cmd.ReloadRoutes? && s in w.sites {
      LoadedInSync(w, s, w.sites);
      LoadMoves(st, i);
    }
  }

  /** After a load comes the stop of the old container, the Nginx reload or the end. */
  lemma LoadMoves(st: State, i: Input)
    requires !st.proc.cmd.ReloadRoutes? && LoadsColors(st.proc.pc) && st.proc.service in st.world.sites
    ensures var p, p' := st.proc, Step(st, i).proc;
            && p' == p.Goto(p'.pc)
            && p'.pc == if i.fate.Failed? then Finished(false) else if p.pc.Reload? then StopOld else Nginx
    ensures Step(st, i).world.sites == st.world.sites
    ensures i.fate.Ok? ==> Step(st, i).world.caddy == st.proc.snapshot
  {
    var w, s := st.world, st.proc.service;
    assert w.sites[s := w.sites[s]] == w.sites;
  }

  lemma DecideCarries(v: Site, p: Proc, snapshot: map<Service, Color>, blind: set<Service>, newest: Option<LocalImage>)
    ensures Decide(v, p.(snapshot := snapshot, blind := blind), newest)
         == Decide(v, p, newest).(snapshot := snapshot, blind := blind)
  {
  }

  lemma FollowingCarries(v: Site, p: Proc, snapshot: map<Service, Color>, blind: set<Service>)
    ensures Following(v, p.(snapshot := snapshot, blind := blind)) == Following(v, p)
  {
  }

  /** The colors a process read do not decide where it goes. */
  lemma SnapshotDecidesNothing(v: Site, p: Proc, snapshot: map<Service, Color>, blind: set<Service>, i: Input)
    ensures Move(v, p.(snapshot := snapshot, blind := blind), i)
         == Move(v, p, i).(snapshot := snapshot, blind := blind)
  {
    DecideCarries(v.Seen(i.sight), p, snapshot, blind, i.newest);
    FollowingCarries(v, p, snapshot, blind);
  }

  lemma OnlyReadersLoad(v: Site, p: Proc, i: Input)
    requires !LoadsColors(p.pc) && !p.cmd.ReloadRoutes?
    ensures LoadsColors(Move(v, p, i).pc) ==> ReadsColors(p.pc)
  {
  }

  lemma ReadKeepsColors(w: World, s: Service, p: Proc, fate: Fate)
    requires s in w.sites && ReadsColors(p.pc)
    ensures w.sites[s := Touch(w.sites[s], p, fate)] == w.sites
  {
  }

  lemma StepKeepsRouteInv(st: State, i: Input)
    requires AllUp(st.world) && RouteInv(st.world, st.proc) && OwnsWell(st.world, st.proc)
    requires ReadsRight(st.world, st.proc, i)
    ensures RouteInv(Step(st, i).world, Step(st, i).proc)
  {
    var w, p, s := st.world, st.proc, st.proc.service;
    if p.cmd.ReloadRoutes? || LoadsColors(p.pc) || s !in w.sites {
      ReloadKeepsRouteInv(st, i);
    } else {
      OtherStep(st, i);
      SnapshotDecidesNothing(w.sites[s], p, w.ColorsBut(i.blind), i.blind, i);
      OnlyReadersLoad(w.sites[s], p, i);
      if ReadsColors(p.pc) {
        ReadKeepsColors(w, s, p, i.fate);
        RightReading(w, p, i);
      }
      SiteStaysUp(w.sites[s], p, i, w.Routed(s));
      MoveKeepsIdentity(w.sites[s], p, i);
    }
  }
}
