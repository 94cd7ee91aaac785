/** The commands as the orchestrator writes them: sequences of effects on the
    state files, the containers, the preview table and Caddy, any of which may
    fail. Each method is proved to be a run of the protocol machine, so what is
    proved of all runs holds of this code. */
module Host {
  import opened Common
  import opened Images
  import opened Protocol
  import opened ProcInvariant
  import opened CommandResults
  import opened CommandTheorems
  import opened LiveRoutes
  import Interleaving

  /** What one local effect does to host and command. */
  function Performed(st: State, fate: Fate): State
    requires st.proc.service in st.world.sites
  {
    var w, p := st.world, st.proc;
    var v := w.sites[p.service];
    State(World(w.sites[p.service := Touch(v, p, fate)], w.caddy),
          p.Goto(if fate.Ok? then Following(v, p) else Finished(false)))
  }

  /** Program counters of effects on the service itself. */
  predicate Local(pc: Pc) {
    !pc.Acquire? && !pc.Inspect? && !pc.Finished? && !ReadsColors(pc) && !LoadsColors(pc) && !pc.Guard?
  }

  lemma LocalStep(st: State, fate: Fate)
    requires st.proc.service in st.world.sites && !st.proc.cmd.ReloadRoutes? && Local(st.proc.pc)
    ensures Step(st, Plainly(fate)) == Performed(st, fate)
  {
  }

  /** Reading the colors changes only what the command remembers. */
  lemma ReadStep(st: State, fate: Fate, blind: set<Service>)
    requires st.proc.service in st.world.sites && !st.proc.cmd.ReloadRoutes? && ReadsColors(st.proc.pc)
    ensures Step(st, Input(fate, None, CLEAR, blind)).world == st.world
    ensures var p' := Step(st, Input(fate, None, CLEAR, blind)).proc;
            if fate.Ok? then
              p' == st.proc.Reading(st.world, blind).Goto(if st.proc.pc.ReadColors? then Reload else ReloadAgain)
            else
              p'.pc == Finished(false)
  {
    var w, s := st.world, st.proc.service;
    assert w.sites[s := w.sites[s]] == w.sites;
  }

  /** Loading them changes Caddy, or nothing. */
  lemma LoadStep(st: State, fate: Fate)
    requires st.proc.service in st.world.sites && !st.proc.cmd.ReloadRoutes? && LoadsColors(st.proc.pc)
    ensures Step(st, Plainly(fate)).world
         == World(st.world.sites, if fate.Ok? || fate.residue.Full? then st.proc.snapshot else st.world.caddy)
    ensures Step(st, Plainly(fate)).proc
         == st.proc.Goto(if fate.Failed? then Finished(false) else if st.proc.pc.Reload? then StopOld else Nginx)
  {
    var w, s := st.world, st.proc.service;
    assert w.sites[s := w.sites[s]] == w.sites;
  }

  /** The command is at `pc` with its locals, apart from the colors it read, as before. */
  predicate Reached(p: Proc, p': Proc, pc: Pc) {
    p' == p.Goto(pc).(snapshot := p'.snapshot, blind := p'.blind)
  }

  /** The command moved on after success, or ended. */
  predicate Went(p: Proc, p': Proc, fate: Fate, next: Pc) {
    p' == p.Goto(if fate.Ok? then next else Finished(false))
  }

  ghost predicate Follows(st: State, st': State) {
    exists i :: Step(st, i) == st'
  }

  /** Each state comes from the one before by one effect. */
  ghost predicate IsTrace(trace: seq<State>) {
    && trace != []
    && forall k :: 0 <= k < |trace| - 1 ==> Follows(trace[k], trace[k + 1])
  }

  /** The first effect of the trace had this input. */
  ghost predicate Began(trace: seq<State>, first: Input) {
    |trace| > 1 && trace[1] == Step(trace[0], first)
  }

  class Host {
    var sites: map<Service, Site>
    var caddy: map<Service, Color>
    var locked: set<Service>           // deploy locks that are taken
    ghost var trace: seq<State>        // the current command: its start, then one state per effect

    ghost function View(): World
      reads this
    {
      World(sites, caddy)
    }

    /** Where the command stands. */
    ghost function Now(): State
      requires trace != []
      reads this
    {
      trace[|trace| - 1]
    }

    ghost predicate Valid()
      reads this
    {
      IsTrace(trace) && Now().world == View()
    }

    /** The next effect of the command on `s` is the one at `pc`. */
    ghost predicate Here(s: Service, pc: Pc)
      requires trace != []
      reads this
    {
      && s in sites
      && Now().proc.service == s && Now().proc.pc == pc && !Now().proc.cmd.ReloadRoutes?
    }

    constructor (sites: map<Service, Site>, caddy: map<Service, Color>)
      ensures Valid() && View() == World(sites, caddy) && locked == {}
    {
      this.sites, this.caddy, this.locked := sites, caddy, {};
      trace := [State(World(sites, caddy), Begin(ReloadRoutes, ""))];
    }

    // ---------- Bookkeeping ----------

    ghost method Start(cmd: Command, s: Service)
      modifies this`trace
      ensures Valid() && trace == [State(View(), Begin(cmd, s))]
    {
      trace := [State(View(), Begin(cmd, s))];
    }

    ghost method Record(i: Input)
      requires IsTrace(trace)
      modifies this`trace
      ensures IsTrace(trace) && trace == old(trace) + [old(Step(Now(), i))]
    {
      var next := Step(Now(), i);
      assert Follows(Now(), next);
      trace := trace + [next];
    }

    ghost method RecordLocal(fate: Fate)
      requires IsTrace(trace)
      requires Now().proc.service in Now().world.sites && !Now().proc.cmd.ReloadRoutes? && Local(Now().proc.pc)
      modifies this`trace
      ensures IsTrace(trace) && trace == old(trace) + [old(Performed(Now(), fate))]
    {
      LocalStep(Now(), fate);
      Record(Plainly(fate));
    }

    // ---------- Effects ----------

    /** The outside world decides how an effect ends. */
    method Attempt() returns (fate: Fate)
    {
      if
      case true => fate := Ok;
      case true => fate := Failed(Residue.Untouched);
      case true => fate := Failed(Partial);
      case true => fate := Failed(Full);
    }

    /** The outside world decides which looks at the service fail. */
    method Look() returns (sight: Sight) {
      sight := *;
    }

    /** An effect that changes nothing modelled: validation, pruning, the Nginx reload. */
    method Checked(s: Service, pc: Pc) returns (fate: Fate)
      requires Valid() && Here(s, pc) && (pc.Validate? || pc.Prune? || pc.Nginx?)
      modifies this`trace
      ensures old(trace) <= trace && |trace| == |old(trace)| + 1
      ensures Valid() && Went(old(Now().proc), Now().proc, fate,
                              if pc.Validate? then RemoveInactive
                              else if pc.Nginx? || old(Now().proc.cmd.Deploy?) then Finished(true)
                              else DeletePreview)
    {
      fate := Attempt();
      RecordLocal(fate);
      assert sites[s := sites[s]] == sites;
    }

    method RemoveContainerIfExists(s: Service, c: Color) returns (fate: Fate)
      requires Valid() && (Here(s, RemoveInactive) || Here(s, DropInactive)) && c == Now().proc.Inactive()
      modifies this`sites, this`trace
      ensures sites == if fate.Ok? || fate.residue.Full? then old(sites)[s := old(sites[s].WithSlot(c, None))] else old(sites)
      ensures old(trace) <= trace && |trace| == |old(trace)| + 1
      ensures Valid() && Went(old(Now().proc), Now().proc, fate,
                              if old(Now().proc.pc.DropInactive?) then Prune else Pc.StartInactive) && s in sites
    {
      fate := Attempt();
      RecordLocal(fate);
      if fate.Ok? || fate.residue.Full? { sites := sites[s := sites[s].Remove(c)]; }
      assert sites == old(sites)[s := Touch(old(sites)[s], old(Now().proc), fate)];
    }

    /** Create the container, then start it; a failure may fall between the two. */
    method StartContainer(s: Service, sha: string, c: Color) returns (fate: Fate)
      requires Valid() && Here(s, Pc.StartInactive) && c == Now().proc.Inactive() && sha == Now().proc.target
      modifies this`sites, this`trace
      ensures var image := old(ImageRef(sites[s].template, sha));
              sites == match fate
                       case Ok => old(sites)[s := old(sites[s]).WithSlot(c, Some(Container(image, true)))]
                       case Failed(Untouched) => old(sites)
                       case Failed(Partial) => old(sites)[s := old(sites[s]).WithSlot(c, Some(Container(image, false)))]
                       case Failed(Full) => old(sites)[s := old(sites[s]).WithSlot(c, Some(Container(image, true)))]
      ensures old(trace) <= trace && |trace| == |old(trace)| + 1
      ensures Valid() && Went(old(Now().proc), Now().proc, fate, Health) && s in sites
    {
      fate := Attempt();
      RecordLocal(fate);
      var image := sites[s].Image(sha);
      if fate.Ok? || !fate.residue.Untouched? { sites := sites[s := sites[s].Put(c, image, false)]; }
      if fate.Ok? || fate.residue.Full? { sites := sites[s := sites[s].Put(c, image, true)]; }
      assert sites == old(sites)[s := Touch(old(sites)[s], old(Now().proc), fate)];
    }

    /** A container that does not become healthy is removed, if removing works. */
    method HealthCheck(s: Service, c: Color) returns (fate: Fate)
      requires Valid() && Here(s, Health) && c == Now().proc.Inactive()
      modifies this`sites, this`trace
      ensures sites == if fate.Failed? && fate.residue.Full? then old(sites)[s := old(sites[s].Remove(c))] else old(sites)
      ensures old(trace) <= trace && |trace| == |old(trace)| + 1
      ensures Valid() && Went(old(Now().proc), Now().proc, fate,
                              if old(Now().proc.cmd.DeployPreview?) then RecordPreview else Guard) && s in sites
    {
      fate := Attempt();
      RecordLocal(fate);
      if fate.Failed? && fate.residue.Full? { sites := sites[s := sites[s].Remove(c)]; }
      assert sites == old(sites)[s := Touch(old(sites)[s], old(Now().proc), fate)];
    }

    /** A container that cannot be inspected counts as not running. */
    method ContainerRunning(s: Service, c: Color) returns (running: bool)
      requires Valid() && Here(s, Guard) && c == Now().proc.Inactive()
      modifies this`trace
      ensures old(trace) <= trace && |trace| == |old(trace)| + 1
      ensures Valid() && (running ==> sites[s].Running(c))
      ensures Now().proc == old(Now().proc.Goto(if running then Pc.WriteActive else Finished(false)))
    {
      var sight := Look();
      running := sites[s].Seen(sight).Running(c);
      SeenIsThere(sites[s], sight, c, "");
      Record(Input(Ok, None, sight, {}));
      assert sites[s := sites[s]] == sites;
    }

    /** A write that is cut short leaves a file that reads as blue. */
    method WriteActive(s: Service, c: Color) returns (fate: Fate)
      requires Valid() && Here(s, Pc.WriteActive) && c == Now().proc.Inactive()
      modifies this`sites, this`trace
      ensures sites == old(sites)[s := old(sites[s]).(active := match fate
                                                       case Ok => c
                                                       case Failed(Untouched) => old(sites[s].active)
                                                       case Failed(Partial) => Blue
                                                       case Failed(Full) => c)]
      ensures old(trace) <= trace && |trace| == |old(trace)| + 1
      ensures Valid() && Went(old(Now().proc), Now().proc, fate, WriteSha) && s in sites
    {
      fate := Attempt();
      RecordLocal(fate);
      if fate.Ok? || fate.residue.Full? { sites := sites[s := sites[s].(active := c)]; }
      else if fate.residue.Partial? { sites := sites[s := sites[s].(active := Blue)]; }
      assert sites == old(sites)[s := Touch(old(sites)[s], old(Now().proc), fate)];
    }

    method WriteActiveSha(s: Service, sha: string) returns (fate: Fate)
      requires Valid() && Here(s, WriteSha) && sha == Now().proc.target
      modifies this`sites, this`trace
      ensures sites == old(sites)[s := match fate
                                       case Ok => old(sites[s]).(sha := if sha == "" then None else Some(sha))
                                       case Failed(Untouched) => old(sites[s])
                                       case Failed(Partial) => old(sites[s]).(sha := None)
                                       case Failed(Full) => old(sites[s]).(sha := if sha == "" then None else Some(sha))]
      ensures old(trace) <= trace && |trace| == |old(trace)| + 1
      ensures Valid() && Went(old(Now().proc), Now().proc, fate, ReadColors) && s in sites
    {
      fate := Attempt();
      RecordLocal(fate);
      if fate.Ok? || fate.residue.Full? { sites := sites[s := sites[s].RecordSha(sha)]; }
      else if fate.residue.Partial? { sites := sites[s := sites[s].RecordSha("")]; }
      assert sites == old(sites)[s := Touch(old(sites)[s], old(Now().proc), fate)];
    }

    /** Stop gracefully; nothing to do for a container that does not exist. */
    method StopContainer(s: Service, c: Color) returns (fate: Fate)
      requires Valid()
      requires (Here(s, StopOld) && c == Now().proc.active) || (Here(s, StopInactive) && c == Now().proc.Inactive())
      modifies this`sites, this`trace
      ensures sites == if fate.Ok? || fate.residue.Full? then old(sites)[s := old(sites[s].Switch(c, false))] else old(sites)
      ensures old(trace) <= trace && |trace| == |old(trace)| + 1
      ensures Valid() && Went(old(Now().proc), Now().proc, fate,
                              if old(Now().proc.pc.StopInactive?) then DropInactive
                              else if old(Now().proc.cmd.Rollback?) then Finished(true) else Prune) && s in sites
    {
      fate := Attempt();
      RecordLocal(fate);
      if fate.Ok? || fate.residue.Full? { sites := sites[s := sites[s].Stop(c)]; }
      assert sites == old(sites)[s := Touch(old(sites)[s], old(Now().proc), fate)];
    }

    /** Start a container that exists and is stopped. */
    method StartExisting(s: Service, c: Color) returns (fate: Fate)
      requires Valid() && Here(s, StartPrevious) && c == Now().proc.Inactive()
      modifies this`sites, this`trace
      ensures sites == if fate.Ok? || fate.residue.Full? then old(sites)[s := old(sites[s].Switch(c, true))] else old(sites)
      ensures old(trace) <= trace && |trace| == |old(trace)| + 1
      ensures Valid() && Went(old(Now().proc), Now().proc, fate, Pc.PollHealth) && s in sites
    {
      fate := Attempt();
      RecordLocal(fate);
      if fate.Ok? || fate.residue.Full? { sites := sites[s := sites[s].Resume(c)]; }
      assert sites == old(sites)[s := Touch(old(sites)[s], old(Now().proc), fate)];
    }

    /** Poll without removing; the caller stops what it started, if stopping works. */
    method PollHealth(s: Service, c: Color) returns (fate: Fate)
      requires Valid() && Here(s, Pc.PollHealth) && c == Now().proc.Inactive()
      modifies this`sites, this`trace
      ensures sites == if fate.Failed? && fate.residue.Full? then old(sites)[s := old(sites[s].Switch(c, false))] else old(sites)
      ensures old(trace) <= trace && |trace| == |old(trace)| + 1
      ensures Valid() && Went(old(Now().proc), Now().proc, fate, Pc.WriteActive) && s in sites
    {
      fate := Attempt();
      RecordLocal(fate);
      if fate.Failed? && fate.residue.Full? { sites := sites[s := sites[s].Stop(c)]; }
      assert sites == old(sites)[s := Touch(old(sites)[s], old(Now().proc), fate)];
    }

    method UpsertPreview(s: Service, preview: Preview) returns (fate: Fate)
      requires Valid() && Here(s, RecordPreview) && preview == Preview(Now().proc.target, Now().proc.Inactive())
      modifies this`sites, this`trace
      ensures sites == if fate.Ok? || fate.residue.Full?
                       then old(sites)[s := old(sites[s]).(preview := Some(preview))] else old(sites)
      ensures old(trace) <= trace && |trace| == |old(trace)| + 1
      ensures Valid() && Went(old(Now().proc), Now().proc, fate, ReadColorsAgain) && s in sites
    {
      fate := Attempt();
      RecordLocal(fate);
      if fate.Ok? || fate.residue.Full? { sites := sites[s := sites[s].(preview := Some(preview))]; }
      assert sites == old(sites)[s := Touch(old(sites)[s], old(Now().proc), fate)];
    }

    method DropPreview(s: Service) returns (fate: Fate, existed: bool)
      requires Valid() && Here(s, DeletePreview)
      modifies this`sites, this`trace
      ensures sites == if fate.Ok? || fate.residue.Full? then old(sites)[s := old(sites[s]).(preview := None)] else old(sites)
      ensures old(trace) <= trace && |trace| == |old(trace)| + 1
      ensures Valid() && Went(old(Now().proc), Now().proc, fate,
                              if existed then ReadColorsAgain else Finished(true)) && s in sites
      ensures existed == old(sites[s].preview.Some?)
    {
      existed := sites[s].preview.Some?;
      fate := Attempt();
      RecordLocal(fate);
      if fate.Ok? || fate.residue.Full? { sites := sites[s := sites[s].(preview := None)]; }
      assert sites == old(sites)[s := Touch(old(sites)[s], old(Now().proc), fate)];
    }

    /** Read the colors of all services from the state files, a file that cannot be
        read counting as blue, then hand the configuration made from them to Caddy. */
    method ApplyAll(s: Service) returns (ok: bool)
      requires Valid() && (Here(s, ReadColors) || Here(s, ReadColorsAgain))
      modifies this`caddy, this`trace
      ensures old(trace) <= trace
      ensures Valid()
      ensures !ok ==> Now().proc.pc == Finished(false)
      ensures ok ==> caddy == View().ColorsBut(Now().proc.blind)
      ensures ok ==> Now().proc == old(Now().proc.Goto(if Now().proc.pc.ReadColors? then StopOld else Nginx))
                                   .Reading(old(View()), Now().proc.blind)
    {
      var blind: set<Service> := *;
      var colors := map t | t in sites :: if t in blind then Blue else sites[t].active;
      var read := Attempt();
      ReadStep(Now(), read, blind);
      Record(Input(read, None, CLEAR, blind));
      if read.Failed? { return false; }
      var loaded := Attempt();
      LoadStep(Now(), loaded);
      Record(Plainly(loaded));
      if loaded.Ok? || loaded.residue.Full? { caddy := colors; }
      ok := loaded.Ok?;
    }

    // ---------- Shared parts of the commands ----------

    /** Validate, replace the inactive container and wait until it is healthy. */
    method StartInactive(s: Service, sha: string, inactive: Color) returns (ok: bool)
      requires Valid() && Here(s, Validate) && sha == Now().proc.target && inactive == Now().proc.Inactive()
      modifies this`sites, this`trace
      ensures old(trace) <= trace
      ensures Valid()
      ensures !ok ==> Now().proc.pc == Finished(false)
      ensures ok ==> s in sites
      ensures ok ==> Now().proc == old(Now().proc.Goto(if Now().proc.cmd.DeployPreview? then RecordPreview else Guard))
    {
      var fate := Checked(s, Validate);
      if fate.Failed? { return false; }
      fate := RemoveContainerIfExists(s, inactive);
      if fate.Failed? { return false; }
      fate := StartContainer(s, sha, inactive);
      if fate.Failed? { return false; }
      fate := HealthCheck(s, inactive);
      ok := fate.Ok?;
    }

    /** Write state, reload Caddy, stop the old container. */
    method SwitchOver(s: Service, sha: string, active: Color, inactive: Color) returns (ok: bool)
      requires Valid() && Here(s, Pc.WriteActive)
      requires sha == Now().proc.target && active == Now().proc.active && inactive == Flip(active)
      modifies this`sites, this`caddy, this`trace
      ensures old(trace) <= trace
      ensures Valid()
      ensures !ok ==> Now().proc.pc == Finished(false)
      ensures ok ==> s in sites
      ensures ok ==> Reached(old(Now().proc), Now().proc, if old(Now().proc.cmd.Rollback?) then Finished(true) else Prune)
    {
      var fate := WriteActive(s, inactive);
      if fate.Failed? { return false; }
      fate := WriteActiveSha(s, sha);
      if fate.Failed? { return false; }
      var applied := ApplyAll(s);
      if !applied { return false; }
      fate := StopContainer(s, active);
      ok := fate.Ok?;
    }

    /** The cutover proper: refuse unless the replacement is up, switch, prune. */
    method CutOver(s: Service, sha: string, active: Color, inactive: Color) returns (ok: bool)
      requires Valid() && Here(s, Guard) && !Now().proc.cmd.Rollback?
      requires sha == Now().proc.target && active == Now().proc.active && inactive == Flip(active)
      modifies this`sites, this`caddy, this`trace
      ensures old(trace) <= trace
      ensures Valid()
      ensures !ok ==> Now().proc.pc == Finished(false)
      ensures ok ==> s in sites
      ensures ok ==> Reached(old(Now().proc), Now().proc, if old(Now().proc.cmd.Deploy?) then Finished(true) else DeletePreview)
    {
      var running := ContainerRunning(s, inactive);
      if !running { return false; }
      var switched := SwitchOver(s, sha, active, inactive);
      if !switched { return false; }
      var fate := Checked(s, Prune);
      ok := fate.Ok?;
    }

    /** Re-apply the routes after the preview table changed. */
    method ReapplyRoutes(s: Service) returns (ok: bool)
      requires Valid() && Here(s, ReadColorsAgain)
      modifies this`caddy, this`trace
      ensures old(trace) <= trace
      ensures Valid() && Now().proc.pc == Finished(ok)
    {
      var applied := ApplyAll(s);
      if !applied { return false; }
      var fate := Checked(s, Nginx);
      ok := fate.Ok?;
    }

    /** Forget the preview; if there was one, its route goes too. */
    method CleanUpPreview(s: Service) returns (ok: bool)
      requires Valid() && Here(s, DeletePreview)
      modifies this`sites, this`caddy, this`trace
      ensures old(trace) <= trace
      ensures Valid() && Now().proc.pc == Finished(ok)
    {
      var fate, existed := DropPreview(s);
      if fate.Failed? { return false; }
      if !existed { return true; }
      ok := ReapplyRoutes(s);
    }

    // ---------- The commands, once their lock is held ----------

    /** The host has run this command from where it was, effect by effect. */
    ghost predicate Ran(before: World, cmd: Command, s: Service, ok: bool)
      reads this
    {
      Valid() && trace[0] == State(before, Begin(cmd, s)) && Now().proc.pc == Finished(ok)
    }

    /** Look at the service and decide what to do. */
    ghost method Inspected(s: Service, ok: bool, newest: Option<LocalImage>, sight: Sight)
      requires Valid() && Now().proc.pc.Inspect? && Now().proc.service == s && !Now().proc.cmd.ReloadRoutes?
      modifies this`trace
      ensures old(trace) <= trace
      ensures Valid()
      ensures Now().proc == if ok && s in sites then old(Decide(sites[s].Seen(sight), Now().proc, newest))
                            else old(Now().proc.Goto(Finished(false)))
      ensures ok ==> trace == old(trace) + [old(Step(Now(), Input(Ok, newest, sight, {})))]
    {
      Record(Input(if ok then Ok else Failed(Residue.Untouched), newest, sight, {}));
      if s in sites { assert sites[s := sites[s]] == sites; }
    }

    /** `deploy <service> <sha>` */
    method RunDeploy(s: Service, sha: string) returns (ok: bool)
      modifies this`sites, this`caddy, this`trace
      ensures Ran(old(View()), Command.Deploy(sha), s, ok)
    {
      Start(Command.Deploy(sha), s);
      var ready := Attempt();                            // preflight, network, definition
      var sight := Look();
      Inspected(s, ready.Ok?, None, sight);
      if ready.Failed? || s !in sites { return false; }
      var v := sites[s].Seen(sight);
      var active := v.active;
      if v.sha == Some(sha) && v.Running(active) { return true; }
      var started := StartInactive(s, sha, Flip(active));
      if !started { return false; }
      ok := CutOver(s, sha, active, Flip(active));
    }

    /** `deploy-preview <service> <sha>` */
    method RunDeployPreview(s: Service, sha: string) returns (ok: bool)
      modifies this`sites, this`caddy, this`trace
      ensures Ran(old(View()), Command.DeployPreview(sha), s, ok)
    {
      Start(Command.DeployPreview(sha), s);
      var ready := Attempt();
      var sight := Look();
      Inspected(s, ready.Ok?, None, sight);
      if ready.Failed? || s !in sites { return false; }
      var v := sites[s].Seen(sight);
      var inactive := Flip(v.active);
      var started := StartInactive(s, sha, inactive);
      if !started { return false; }
      var fate := UpsertPreview(s, Preview(sha, inactive));
      if fate.Failed? { return false; }
      ok := ReapplyRoutes(s);
    }

    /** `cutover <service> [--sha <sha>]`, with the newest image the local cache shows. */
    method RunCutover(s: Service, explicit: Option<string>, newest: Option<LocalImage>) returns (ok: bool, ghost sight: Sight)
      modifies this`sites, this`caddy, this`trace
      ensures Ran(old(View()), Command.Cutover(explicit), s, ok)
      ensures ok ==> Began(trace, Input(Ok, newest, sight, {}))
    {
      ok := false;
      Start(Command.Cutover(explicit), s);
      var ready := Attempt();
      var looked := Look();
      sight := looked;
      Inspected(s, ready.Ok?, newest, looked);
      if ready.Failed? || s !in sites { return; }
      assert trace[1] == Step(trace[0], Input(Ok, newest, sight, {}));
      var v := sites[s].Seen(looked);
      var active := v.active;
      var inactive := Flip(active);
      match PlanFor(v, explicit, newest) {
        case PromoteSha(sha, alreadyStaged) =>
          if !alreadyStaged && !v.RunsImage(inactive, v.Image(sha)) {
            var started := StartInactive(s, sha, inactive);
            if !started { return; }
          }
          var promoted := CutOver(s, sha, active, inactive);
          if !promoted { return; }
        case NothingNewer =>
        case NoLocalImages => return;
        case StalePreview => return;
      }
      ok := CleanUpPreview(s);
    }

    /** `cancel-preview <service>` */
    method RunCancelPreview(s: Service) returns (ok: bool)
      modifies this`sites, this`caddy, this`trace
      ensures Ran(old(View()), Command.CancelPreview, s, ok)
    {
      Start(Command.CancelPreview, s);
      var ready := Attempt();
      var sight := Look();
      Inspected(s, ready.Ok?, None, sight);
      if ready.Failed? || s !in sites { return false; }
      var v := sites[s].Seen(sight);
      var inactive := Flip(v.active);
      var fate := StopContainer(s, inactive);
      if fate.Failed? { return false; }
      fate := RemoveContainerIfExists(s, inactive);
      if fate.Failed? { return false; }
      fate := Checked(s, Prune);
      if fate.Failed? { return false; }
      ok := CleanUpPreview(s);
    }

    /** The UI's rollback: bring the stopped container of the other color back. */
    method RunRollback(s: Service) returns (ok: bool)
      modifies this`sites, this`caddy, this`trace
      ensures Ran(old(View()), Command.Rollback, s, ok)
    {
      Start(Command.Rollback, s);
      var ready := Attempt();
      var sight := Look();
      Inspected(s, ready.Ok?, None, sight);
      if ready.Failed? || s !in sites { return false; }
      var v := sites[s].Seen(sight);
      var active := v.active;
      var previous := Flip(active);
      if v.Slot(previous).None? || v.Running(previous) { return false; }
      var sha := ShaOrUnknown(s, v.Slot(previous).value.image);
      var fate := StartExisting(s, previous);
      if fate.Failed? { return false; }
      fate := PollHealth(s, previous);
      if fate.Failed? { return false; }
      ok := SwitchOver(s, sha, active, previous);
    }

    // ---------- The command line and the UI ----------

    /** An exclusive lock that is never waited for; opening its file may fail too. */
    method TryAcquire(s: Service) returns (ok: bool)
      modifies this`locked
      ensures ok ==> s !in old(locked) && locked == old(locked) + {s}
      ensures !ok ==> locked == old(locked)
    {
      var file := Attempt();
      ok := file.Ok? && s !in locked;
      if ok { locked := locked + {s}; }
    }

    /** What a command leaves behind whether or not it ran through. */
    twostate predicate Kept(s: Service, ok: bool)
      reads this
    {
      && locked == old(locked)
      && (s in old(locked) ==> !ok && View() == old(View()))
      && (s in old(sites) && Available(old(sites[s])) ==> UpThroughout(trace, s) && s in sites && Available(sites[s]))
    }

    method Deploy(s: Service, sha: string) returns (ok: bool)
      requires Valid()
      modifies this
      ensures Valid() && Kept(s, ok)
      ensures ok && s in old(sites) ==> DeployPromise(old(View()), View(), s, sha, Now().proc.blind)
    {
      Start(Command.Deploy(sha), s);
      var free := TryAcquire(s);
      if !free { return false; }
      ok := RunDeploy(s, sha);
      locked := locked - {s};
      DeployTraced(trace, old(View()), s, sha, ok);
    }

    method DeployPreview(s: Service, sha: string) returns (ok: bool)
      requires Valid()
      modifies this
      ensures Valid() && Kept(s, ok)
      ensures ok && s in old(sites) ==>
                View() == Recolored(old(View()), s, old(PreviewResult(sites[s], sha)), Now().proc.blind)
    {
      Start(Command.DeployPreview(sha), s);
      var free := TryAcquire(s);
      if !free { return false; }
      ok := RunDeployPreview(s, sha);
      locked := locked - {s};
      PreviewTraced(trace, old(View()), s, sha, ok);
    }

    /** A cutover promotes what `promoted` names, or finds nothing newer than what
        its first `look` showed. */
    method Cutover(s: Service, explicit: Option<string>, newest: Option<LocalImage>)
      returns (ok: bool, ghost promoted: string, ghost look: Input)
      requires Valid()
      modifies this
      ensures Valid() && Kept(s, ok) && look.newest == newest
      ensures ok && s in old(sites) ==> CutoverPromise(old(View()), View(), s, explicit, look, promoted, Now().proc.blind)
    {
      promoted, look := "", Input(Ok, newest, CLEAR, {});
      Start(Command.Cutover(explicit), s);
      var free := TryAcquire(s);
      if !free { ok := false; return; }
      ghost var sight;
      ok, sight := RunCutover(s, explicit, newest);
      look := Input(Ok, newest, sight, {});
      locked := locked - {s};
      promoted := CutoverTraced(trace, old(View()), s, explicit, look, ok);
    }

    method CancelPreview(s: Service) returns (ok: bool)
      requires Valid()
      modifies this
      ensures Valid() && Kept(s, ok)
      ensures ok && s in old(sites) ==> View() == Cancelled(old(View()), s, Now().proc.blind)
    {
      Start(Command.CancelPreview, s);
      var free := TryAcquire(s);
      if !free { return false; }
      ok := RunCancelPreview(s);
      locked := locked - {s};
      CancelTraced(trace, old(View()), s, ok);
    }

    method Rollback(s: Service) returns (ok: bool)
      requires Valid()
      modifies this
      ensures Valid() && Kept(s, ok)
      ensures ok && s in old(sites) ==>
                && View() == Recolored(old(View()), s, old(Promoted(Revived(sites[s]), PreviousSha(sites[s], s))),
                                       Now().proc.blind)
                && HasStopped(old(sites[s])) && Swapped(old(sites[s]), sites[s], s)
    {
      Start(Command.Rollback, s);
      var free := TryAcquire(s);
      if !free { return false; }
      ok := RunRollback(s);
      locked := locked - {s};
      RollbackTraced(trace, old(View()), s, ok);
    }
  }

  // ---------- From traces to the protocol's theorems ----------

  ghost predicate Traced(trace: seq<State>, w: World, cmd: Command, s: Service, ok: bool) {
    && IsTrace(trace) && trace[0] == State(w, Begin(cmd, s)) && !cmd.ReloadRoutes?
    && trace[|trace| - 1].proc.pc == Finished(ok)
  }

  ghost predicate StaysUp(trace: seq<State>, w: World, s: Service)
    requires trace != []
  {
    s in w.sites ==>
      && s in trace[|trace| - 1].world.sites
      && (Available(w.sites[s]) ==> UpThroughout(trace, s))
  }

  /** Skipped with reason, or the closed-form result, converged if and only if the
      service did not go to green with its color file unreadable. */
  predicate DeployPromise(w: World, w': World, s: Service, sha: string, blind: set<Service>)
    requires s in w.sites
  {
    if w' == w then NoOp(w.sites[s], sha)
    else
      && w' == Recolored(w, s, Promoted(Staged(w.sites[s], sha), sha), blind)
      && (Converged(w', s, sha) <==> !Misread(w', s, blind))
  }

  /** No idle container, no preview; Caddy is told only if there was one. */
  function Cancelled(w: World, s: Service, blind: set<Service>): World
    requires s in w.sites
  {
    if w.sites[s].preview.Some? then Recolored(w, s, CancelResult(w.sites[s]), blind)
    else World(w.sites[s := CancelResult(w.sites[s])], w.caddy)
  }

  predicate CutoverPromise(w: World, w': World, s: Service, explicit: Option<string>, look: Input,
                           promoted: string, blind: set<Service>)
    requires s in w.sites
  {
    && s in w'.sites && w'.sites[s].preview.None?
    && (w' == w <==> NothingToPromote(w.sites[s], explicit, look))
    && (w' != w ==>
          && Chosen(w.sites[s], explicit, look, promoted)
          && w' == Recolored(w, s, CutoverResult(w.sites[s], promoted), blind)
          && (Converged(w', s, promoted) <==> !Misread(w', s, blind)))
  }

  lemma TracedRun(trace: seq<State>, w: World, cmd: Command, s: Service, ok: bool) returns (inputs: seq<Input>)
    requires Traced(trace, w, cmd, s, ok)
    ensures Run(State(w, Begin(cmd, s)), inputs) == trace[|trace| - 1]
    ensures StaysUp(trace, w, s)
  {
    TraceIsRun(trace, |trace| - 1);
    inputs :| Run(trace[0], inputs) == trace[|trace| - 1];
    if s in w.sites { TraceStaysUp(trace, w, cmd, s); }
  }

  lemma DeployTraced(trace: seq<State>, w: World, s: Service, sha: string, ok: bool)
    requires Traced(trace, w, Command.Deploy(sha), s, ok)
    ensures StaysUp(trace, w, s)
    ensures var end := trace[|trace| - 1];
            ok && s in w.sites ==> DeployPromise(w, end.world, s, sha, end.proc.blind)
  {
    var inputs := TracedRun(trace, w, Command.Deploy(sha), s, ok);
    if ok && s in w.sites { DeployConverges(w, s, sha, inputs); }
  }

  lemma PreviewTraced(trace: seq<State>, w: World, s: Service, sha: string, ok: bool)
    requires Traced(trace, w, Command.DeployPreview(sha), s, ok)
    ensures StaysUp(trace, w, s)
    ensures var end := trace[|trace| - 1];
            ok && s in w.sites ==> end.world == Recolored(w, s, PreviewResult(w.sites[s], sha), end.proc.blind)
  {
    var inputs := TracedRun(trace, w, Command.DeployPreview(sha), s, ok);
    if ok && s in w.sites { RunResult(w, s, Command.DeployPreview(sha), inputs); }
  }

  lemma CutoverTraced(trace: seq<State>, w: World, s: Service, explicit: Option<string>, look: Input, ok: bool)
    returns (promoted: string)
    requires Traced(trace, w, Command.Cutover(explicit), s, ok)
    requires ok ==> Began(trace, look)
    ensures StaysUp(trace, w, s)
    ensures var end := trace[|trace| - 1];
            ok && s in w.sites ==> CutoverPromise(w, end.world, s, explicit, look, promoted, end.proc.blind)
  {
    var inputs := TracedRun(trace, w, Command.Cutover(explicit), s, ok);
    promoted := "";
    if ok && s in w.sites {
      inputs := TracedFrom(trace, look);
      promoted := CutoverConverges(w, s, explicit, inputs);
    }
  }

  /** The same run with its first input known. */
  lemma TracedFrom(trace: seq<State>, first: Input) returns (inputs: seq<Input>)
    requires IsTrace(trace) && Began(trace, first)
    ensures inputs != [] && inputs[0] == first && Run(trace[0], inputs) == trace[|trace| - 1]
  {
    var rest := trace[1..];
    assert IsTrace(rest) by {
      forall k | 0 <= k < |rest| - 1 ensures Follows(rest[k], rest[k + 1]) {
        assert Follows(trace[k + 1], trace[k + 1 + 1]);
      }
    }
    TraceIsRun(rest, |rest| - 1);
    var more :| Run(rest[0], more) == rest[|rest| - 1];
    RunCons(trace[0], first, more);
    inputs := [first] + more;
  }

  lemma CancelTraced(trace: seq<State>, w: World, s: Service, ok: bool)
    requires Traced(trace, w, Command.CancelPreview, s, ok)
    ensures StaysUp(trace, w, s)
    ensures var end := trace[|trace| - 1];
            ok && s in w.sites ==> end.world == Cancelled(w, s, end.proc.blind)
  {
    var inputs := TracedRun(trace, w, Command.CancelPreview, s, ok);
    if ok && s in w.sites { RunResult(w, s, Command.CancelPreview, inputs); }
  }

  lemma RollbackTraced(trace: seq<State>, w: World, s: Service, ok: bool)
    requires Traced(trace, w, Command.Rollback, s, ok)
    ensures StaysUp(trace, w, s)
    ensures var end := trace[|trace| - 1];
            ok && s in w.sites ==>
              && end.world == Recolored(w, s, Promoted(Revived(w.sites[s]), PreviousSha(w.sites[s], s)), end.proc.blind)
              && s in end.world.sites && HasStopped(w.sites[s]) && Swapped(w.sites[s], end.world.sites[s], s)
  {
    var inputs := TracedRun(trace, w, Command.Rollback, s, ok);
    if ok && s in w.sites { RollbackSwaps(w, s, inputs); }
  }

  /** The active container of the service is up in every state of the command. */
  ghost predicate UpThroughout(trace: seq<State>, s: Service) {
    forall k :: 0 <= k < |trace| ==> s in trace[k].world.sites && Available(trace[k].world.sites[s])
  }

  lemma {:induction false} TraceIsRun(trace: seq<State>, k: nat)
    requires IsTrace(trace) && k < |trace|
    ensures exists inputs :: Run(trace[0], inputs) == trace[k]
  {
    if k == 0 {
      assert Run(trace[0], []) == trace[0];
    } else {
      TraceIsRun(trace, k - 1);
      var inputs :| Run(trace[0], inputs) == trace[k - 1];
      assert Follows(trace[k - 1], trace[k - 1 + 1]);
      var i :| Step(trace[k - 1], i) == trace[k];
      RunSnoc(trace[0], inputs, i);
    }
  }

  lemma {:induction false} TraceStaysUpTo(trace: seq<State>, w: World, cmd: Command, s: Service, k: nat)
    requires IsTrace(trace) && trace[0] == State(w, Begin(cmd, s)) && !cmd.ReloadRoutes?
    requires s in w.sites && k < |trace|
    ensures var st := trace[k];
            && st.proc.service == s && st.proc.cmd == cmd && s in st.world.sites
            && ProcInv(st.world.sites[s], st.proc)
            && (Available(w.sites[s]) ==> Available(st.world.sites[s]))
  {
    if k > 0 {
      TraceStaysUpTo(trace, w, cmd, s, k - 1);
      var st := trace[k - 1];
      assert Follows(st, trace[k - 1 + 1]);
      var i :| Step(st, i) == trace[k];
      StepSite(st, i);
      MoveKeepsIdentity(st.world.sites[s], st.proc, i);
      MoveKeepsInv(st.world.sites[s], st.proc, i);
      Interleaving.SnapshotIrrelevant(Touch(st.world.sites[s], st.proc, i.fate), trace[k].proc, st.proc.snapshot, st.proc.blind);
      if Available(st.world.sites[s]) { TouchKeepsAvailable(st.world.sites[s], st.proc, i.fate); }
    }
  }

  lemma TraceStaysUp(trace: seq<State>, w: World, cmd: Command, s: Service)
    requires IsTrace(trace) && trace[0] == State(w, Begin(cmd, s)) && !cmd.ReloadRoutes? && s in w.sites
    ensures s in trace[|trace| - 1].world.sites
    ensures Available(w.sites[s]) ==> UpThroughout(trace, s)
  {
    forall k | 0 <= k < |trace|
      ensures s in trace[k].world.sites && (Available(w.sites[s]) ==> Available(trace[k].world.sites[s]))
    {
      TraceStaysUpTo(trace, w, cmd, s, k);
    }
  }
}
