/** What each command amounts to when it runs through, from any state at all. */
module CommandResults {
  import opened Common
  import opened Images
  import opened Protocol

  // ---------- Results in closed form ----------

  /** The inactive container runs the image. */
  function Staged(v: Site, sha: string): Site {
    v.Put(Flip(v.active), v.Image(sha), true)
  }

  /** The stopped container of the other color is up again. */
  function Revived(v: Site): Site {
    v.Resume(Flip(v.active))
  }

  /** The colors have changed places: the other one is recorded, the former one stopped. */
  function Promoted(v: Site, sha: string): Site {
    v.(active := Flip(v.active)).RecordSha(sha).Stop(v.active)
  }

  /** The service has changed and Caddy was given the colors that could be read. */
  function Recolored(w: World, s: Service, v: Site, blind: set<Service>): World {
    var w' := World(w.sites[s := v], w.caddy);
    World(w'.sites, w'.ColorsBut(blind))
  }

  function PreviousSha(v: Site, s: Service): string {
    var slot := v.Slot(Flip(v.active));
    if slot.Some? then ShaOrUnknown(s, slot.value.image) else "unknown"
  }

  // ---------- Where a run stands ----------

  function Base(v0: Site, p: Proc): Site {
    if p.cmd.Rollback? then Revived(v0) else Staged(v0, p.target)
  }

  function Recorded(v0: Site, p: Proc): Site {
    Base(v0, p).(active := Flip(v0.active)).RecordSha(p.target)
  }

  /** A cutover that found nothing newer changed nothing. */
  predicate Untouched(v0: Site, v: Site, p: Proc) {
    p.cmd.Cutover? && v == v0 && v0.preview.None?
  }

  predicate Starts(cmd: Command) {
    cmd.Deploy? || cmd.DeployPreview? || cmd.Cutover?
  }

  predicate Switches(cmd: Command) {
    cmd.Deploy? || cmd.Cutover? || cmd.Rollback?
  }

  /** What a run that got as far as `p.pc` has made of the site it found. */
  predicate At(v0: Site, v: Site, p: Proc) {
    match p.pc
    case Inspect => v == v0
    case Validate => v == v0 && Starts(p.cmd)
    case RemoveInactive => v == v0 && Starts(p.cmd)
    case StartInactive => v == v0.Remove(Flip(v0.active)) && Starts(p.cmd)
    case Health => v == Base(v0, p) && Starts(p.cmd)
    case RecordPreview => v == Base(v0, p) && p.cmd.DeployPreview?
    case Guard => v == Base(v0, p) && Switches(p.cmd) && !p.cmd.Rollback?
    case WriteActive => v == Base(v0, p) && Switches(p.cmd)
    case WriteSha => v == Base(v0, p).(active := Flip(v0.active)) && Switches(p.cmd)
    case ReadColors => v == Recorded(v0, p) && Switches(p.cmd)
    case Reload => v == Recorded(v0, p) && Switches(p.cmd)
    case StopOld => v == Recorded(v0, p) && Switches(p.cmd)
    case Prune =>
      if p.cmd.CancelPreview? then v == v0.Remove(Flip(v0.active))
      else (p.cmd.Deploy? || p.cmd.Cutover?) && v == Promoted(Base(v0, p), p.target)
    case StopInactive => v == v0 && p.cmd.CancelPreview?
    case DropInactive => v == v0.Stop(Flip(v0.active)) && p.cmd.CancelPreview?
    case StartPrevious => v == v0 && p.cmd.Rollback?
    case PollHealth => v == Base(v0, p) && p.cmd.Rollback?
    case DeletePreview =>
      || Untouched(v0, v, p)
      || (p.cmd.CancelPreview? && v == v0.Remove(Flip(v0.active)))
      || (p.cmd.Cutover? && v == Promoted(Base(v0, p), p.target))
    case ReadColorsAgain => AfterPreviewChange(v0, v, p)
    case ReloadAgain => AfterPreviewChange(v0, v, p)
    case Nginx => AfterPreviewChange(v0, v, p)
    case Finished(ok) => ok ==> Result(v0, v, p)
    case Acquire => false
  }

  predicate AfterPreviewChange(v0: Site, v: Site, p: Proc) {
    match p.cmd
    case DeployPreview(sha) => p.target == sha && v == PreviewResult(v0, sha)
    case Cutover(_) => v == CutoverResult(v0, p.target)
    case CancelPreview => v0.preview.Some? && v == CancelResult(v0)
    case _ => false
  }

  function PreviewResult(v0: Site, sha: string): Site {
    Staged(v0, sha).(preview := Some(Preview(sha, Flip(v0.active))))
  }

  function CutoverResult(v0: Site, sha: string): Site {
    Promoted(Staged(v0, sha), sha).(preview := None)
  }

  function CancelResult(v0: Site): Site {
    v0.Remove(Flip(v0.active)).(preview := None)
  }

  predicate Result(v0: Site, v: Site, p: Proc) {
    match p.cmd
    case Deploy(sha) => (NoOp(v0, sha) && v == v0) || v == Promoted(Staged(v0, sha), sha)
    case DeployPreview(sha) => v == PreviewResult(v0, sha)
    case Cutover(_) => Untouched(v0, v, p) || v == CutoverResult(v0, p.target)
    case CancelPreview => v == CancelResult(v0)
    case Rollback => v == Promoted(Revived(v0), p.target)
    case ReloadRoutes => false
  }

  predicate HasStopped(v: Site) {
    v.Slot(Flip(v.active)).Some? && !v.Slot(Flip(v.active)).value.running
  }

  /** What the command promotes is settled once it has decided. */
  predicate Locals(v0: Site, p: Proc) {
    p.pc.Inspect? || p.pc == Finished(false)
    || (&& p.active == v0.active
        && (p.cmd.Deploy? ==> p.target == p.cmd.sha || (p.pc == Finished(true) && NoOp(v0, p.cmd.sha)))
        && (p.cmd.DeployPreview? ==> p.target == p.cmd.sha)
        && (p.cmd.Rollback? ==> p.target == PreviousSha(v0, p.service) && HasStopped(v0))
        && (p.cmd.Cutover? && p.cmd.explicit.Some? ==> p.target == p.cmd.explicit.value)
        && (p.cmd.Cutover? && v0.preview.Some? && p.cmd.explicit.None? ==> p.target == v0.preview.value.sha))
  }

  /** Caddy has been given the colors that could be read. */
  predicate Told(w: World, p: Proc) {
    w.caddy == w.ColorsBut(p.blind)
  }

  /** What Caddy has been told by then. */
  predicate Applied(w0: World, w: World, p: Proc) {
    match p.pc
    case Reload => w.caddy == w0.caddy && p.snapshot == w.ColorsBut(p.blind)
    case StopOld => Told(w, p)
    case Prune => if p.cmd.CancelPreview? then w.caddy == w0.caddy else Told(w, p)
    case DeletePreview =>
      if p.cmd.CancelPreview? then w.caddy == w0.caddy else w == w0 || (Told(w, p) && Switched(w0, w, p))
    case ReadColorsAgain => true
    case ReloadAgain => p.snapshot == w.ColorsBut(p.blind)
    case Nginx => Told(w, p)
    case Finished(ok) => ok ==> Loaded(w0, w, p)
    case _ => w.caddy == w0.caddy
  }

  /** What Caddy has been told by a command that ran through. */
  predicate Loaded(w0: World, w: World, p: Proc) {
    match p.cmd
    case Deploy(_) => w == w0 || (Told(w, p) && Switched(w0, w, p))
    case DeployPreview(_) => Told(w, p)
    case Cutover(_) => w == w0 || (Told(w, p) && Switched(w0, w, p))
    case CancelPreview =>
      if p.service in w0.sites && w0.sites[p.service].preview.Some? then Told(w, p) else w.caddy == w0.caddy
    case Rollback => Told(w, p)
    case ReloadRoutes => Told(w, p)
  }

  predicate Switched(w0: World, w: World, p: Proc) {
    && p.service in w0.sites && p.service in w.sites
    && w.sites[p.service].active != w0.sites[p.service].active
  }

  predicate Standing(w0: World, s: Service, cmd: Command, st: State) {
    && s in w0.sites && s in st.world.sites
    && st.proc.cmd == cmd && st.proc.service == s && !cmd.ReloadRoutes?
    && At(w0.sites[s], st.world.sites[s], st.proc)
    && Locals(w0.sites[s], st.proc)
    && Applied(w0, st.world, st.proc)
    && st.world.sites == w0.sites[s := st.world.sites[s]]
    && (st.proc.pc.Inspect? ==> st == State(w0, Begin(cmd, s)))
  }

  lemma PlanStands(v0: Site, p: Proc, newest: Option<LocalImage>)
    requires p.cmd.Cutover? && p.active == v0.active
    ensures var q := InspectCutover(v0, p, p.cmd.explicit, newest);
            At(v0, v0, q) && Locals(v0, q) && !q.pc.Inspect?
  {
  }

  lemma DecideStands(v0: Site, p: Proc, newest: Option<LocalImage>)
    requires p.pc.Inspect? && !p.cmd.ReloadRoutes?
    ensures var q := Decide(v0, p, newest); At(v0, v0, q) && Locals(v0, q) && !q.pc.Inspect?
  {
    if p.cmd.Cutover? { PlanStands(v0, p.(active := v0.active), newest); }
  }

  /** Where a decision can lead. */
  predicate Decided(q: Proc) {
    match q.pc
    case Guard => true
    case Validate => true
    case StopInactive => true
    case StartPrevious => true
    case DeletePreview => q.cmd.Cutover?
    case Finished(ok) => ok ==> q.cmd.Deploy?
    case _ => false
  }

  lemma DecideDecides(v: Site, p: Proc, newest: Option<LocalImage>)
    requires p.pc.Inspect? && !p.cmd.ReloadRoutes?
    ensures Decided(Decide(v, p, newest))
  {
  }

  /** What stands on less than there is stands on all there is. */
  lemma SeenStands(v0: Site, x: Sight, q: Proc)
    requires At(v0.Seen(x), v0.Seen(x), q) && Locals(v0.Seen(x), q) && Decided(q)
    ensures At(v0, v0, q) && Locals(v0, q)
  {
    SeenLocals(v0, x, q);
    if q.pc.Guard? { SeenStaged(v0, x, q.target); }
  }

  lemma SeenLocals(v0: Site, x: Sight, q: Proc)
    requires Locals(v0.Seen(x), q)
    ensures Locals(v0, q)
  {
    SeenIsThere(v0, x, v0.active, "");
    SeenIsThere(v0, x, Flip(v0.active), "");
  }

  lemma SeenStaged(v0: Site, x: Sight, sha: string)
    requires v0.Seen(x) == Staged(v0.Seen(x), sha)
    ensures v0 == Staged(v0, sha)
  {
  }

  predicate InSwitch(pc: Pc) {
    pc.WriteActive? || pc.WriteSha? || pc.ReadColors? || pc.Reload? || pc.StopOld?
  }

  predicate InClosing(pc: Pc) {
    pc.Prune? || pc.DeletePreview? || pc.ReadColorsAgain? || pc.ReloadAgain? || pc.Nginx?
  }

  lemma StartStands(v0: Site, v: Site, p: Proc)
    requires At(v0, v, p) && Locals(v0, p)
    requires !p.pc.Inspect? && !p.pc.Finished? && !InSwitch(p.pc) && !InClosing(p.pc)
    ensures var q := p.Goto(Following(v, p)); At(v0, Done(v, p), q) && Locals(v0, q)
  {
  }

  lemma SwitchStands(v0: Site, v: Site, p: Proc)
    requires At(v0, v, p) && Locals(v0, p) && InSwitch(p.pc)
    ensures var q := p.Goto(Following(v, p)); At(v0, Done(v, p), q) && Locals(v0, q)
  {
  }

  lemma ClosingStands(v0: Site, v: Site, p: Proc)
    requires At(v0, v, p) && Locals(v0, p) && InClosing(p.pc)
    ensures var q := p.Goto(Following(v, p)); At(v0, Done(v, p), q) && Locals(v0, q)
  {
  }

  // ---------- Runs ----------

  lemma SameColors(w: World, s: Service, v: Site, caddy: map<Service, Color>, blind: set<Service>)
    requires s in w.sites && v.active == w.sites[s].active
    ensures World(w.sites[s := v], caddy).ColorsBut(blind) == w.ColorsBut(blind)
  {
  }

  /** The state after a successful effect other than the opening decision. */
  function Succeeded(st: State, s: Service, blind: set<Service>): State
    requires s in st.world.sites
  {
    var w, p := st.world, st.proc;
    var v := w.sites[s];
    var q := if ReadsColors(p.pc) then p.Reading(w, blind) else p;
    State(World(w.sites[s := Done(v, p)], Reloaded(w, p, Ok)), q.Goto(Following(v, p)))
  }

  lemma ApplyStands(w0: World, st: State, s: Service, blind: set<Service>)
    requires s in st.world.sites && Applied(w0, st.world, st.proc)
    requires ReadsColors(st.proc.pc) || LoadsColors(st.proc.pc)
    ensures Applied(w0, Succeeded(st, s, blind).world, Succeeded(st, s, blind).proc)
  {
    var st' := Succeeded(st, s, blind);
    SameColors(st.world, s, st.world.sites[s], st'.world.caddy, st'.proc.blind);
  }

  lemma CleanupStands(w0: World, st: State, s: Service, blind: set<Service>)
    requires s in st.world.sites && Applied(w0, st.world, st.proc) && st.proc.service == s
    requires st.proc.pc.StopOld? || st.proc.pc.Prune? || st.proc.pc.DeletePreview? || st.proc.pc.Nginx?
    requires s in w0.sites && At(w0.sites[s], st.world.sites[s], st.proc)
    requires st.proc.pc.Nginx? && st.proc.cmd.Cutover? ==> Switched(w0, st.world, st.proc)
    requires (st.proc.pc.Prune? || st.proc.pc.StopOld?) && !st.proc.cmd.CancelPreview? ==>
               Switched(w0, st.world, st.proc)
    ensures Applied(w0, Succeeded(st, s, blind).world, Succeeded(st, s, blind).proc)
  {
    var w, v := st.world, st.world.sites[s];
    var v' := Done(v, st.proc);
    SameColors(w, s, v', w.caddy, st.proc.blind);
    if v' == v { assert w.sites[s := v] == w.sites; }
    assert Succeeded(st, s, blind).world == World(w.sites[s := v'], w.caddy);
  }

  lemma AppliedStands(w0: World, s: Service, cmd: Command, st: State, blind: set<Service>)
    requires Standing(w0, s, cmd, st) && !st.proc.pc.Inspect? && !st.proc.pc.Finished?
    ensures Applied(w0, Succeeded(st, s, blind).world, Succeeded(st, s, blind).proc)
  {
    var p := st.proc;
    if ReadsColors(p.pc) || LoadsColors(p.pc) {
      ApplyStands(w0, st, s, blind);
    } else if p.pc.StopOld? || p.pc.Prune? || p.pc.DeletePreview? || p.pc.Nginx? {
      CleanupStands(w0, st, s, blind);
    }
  }

  lemma SucceededStands(w0: World, s: Service, cmd: Command, st: State, blind: set<Service>)
    requires Standing(w0, s, cmd, st) && !st.proc.pc.Inspect? && !st.proc.pc.Finished?
    ensures Standing(w0, s, cmd, Succeeded(st, s, blind))
  {
    var v0, v, p := w0.sites[s], st.world.sites[s], st.proc;
    var q := if ReadsColors(p.pc) then p.Reading(st.world, blind) else p;
    AppliedStands(w0, s, cmd, st, blind);
    if InSwitch(p.pc) { SwitchStands(v0, v, q); }
    else if InClosing(p.pc) { ClosingStands(v0, v, q); }
    else { StartStands(v0, v, q); }
  }

  lemma FinishedStays(st: State, i: Input)
    requires st.proc.pc.Finished? && st.proc.service in st.world.sites
    ensures Step(st, i) == st
  {
    var w, s := st.world, st.proc.service;
    assert w.sites[s := w.sites[s]] == w.sites;
  }

  lemma DecisionStands(w0: World, s: Service, cmd: Command, st: State, i: Input)
    requires Standing(w0, s, cmd, st) && st.proc.pc.Inspect? && i.fate.Ok?
    ensures Standing(w0, s, cmd, Step(st, i))
  {
    var seen := w0.sites[s].Seen(i.sight);
    var q := Decide(seen, st.proc, i.newest);
    DecideStands(seen, st.proc, i.newest);
    DecideDecides(seen, st.proc, i.newest);
    SeenStands(w0.sites[s], i.sight, q);
    assert w0.sites[s := w0.sites[s]] == w0.sites;
    assert Step(st, i) == State(w0, q);
  }

  /** A failed effect ends the command there and then. */
  lemma FailureEnds(st: State, i: Input)
    requires st.proc.service in st.world.sites && !st.proc.cmd.ReloadRoutes?
    requires !st.proc.pc.Acquire? && !st.proc.pc.Finished?
    requires i.fate.Failed? || (st.proc.pc.Guard? && !st.world.sites[st.proc.service].Seen(i.sight).Running(st.proc.Inactive()))
    ensures Step(st, i).proc.pc == Finished(false)
  {
  }

  lemma StepStands(w0: World, s: Service, cmd: Command, st: State, i: Input)
    requires Standing(w0, s, cmd, st)
    ensures Standing(w0, s, cmd, Step(st, i))
  {
    var p := st.proc;
    if p.pc.Finished? {
      FinishedStays(st, i);
    } else if i.fate.Failed? || (p.pc.Guard? && !st.world.sites[s].Seen(i.sight).Running(p.Inactive())) {
      FailureEnds(st, i);
    } else if p.pc.Inspect? {
      DecisionStands(w0, s, cmd, st, i);
    } else {
      SucceededStands(w0, s, cmd, st, i.blind);
      assert Step(st, i) == Succeeded(st, s, i.blind);
    }
  }

  /** Every run of a command stands where its program counter says. */
  lemma {:induction false} RunStands(w0: World, s: Service, cmd: Command, inputs: seq<Input>)
    requires s in w0.sites && !cmd.ReloadRoutes?
    ensures Standing(w0, s, cmd, Run(State(w0, Begin(cmd, s)), inputs))
    decreases |inputs|
  {
    if inputs == [] {
      assert w0.sites[s := w0.sites[s]] == w0.sites;
    } else {
      var before := inputs[..|inputs| - 1];
      RunStands(w0, s, cmd, before);
      StepStands(w0, s, cmd, Run(State(w0, Begin(cmd, s)), before), inputs[|inputs| - 1]);
    }
  }

  /** What a run that ended well has done. */
  lemma RunResult(w0: World, s: Service, cmd: Command, inputs: seq<Input>)
    requires s in w0.sites && !cmd.ReloadRoutes?
    requires Run(State(w0, Begin(cmd, s)), inputs).proc.pc == Finished(true)
    ensures var st := Run(State(w0, Begin(cmd, s)), inputs);
            && st.proc.cmd == cmd && st.proc.service == s
            && s in st.world.sites && st.world.sites == w0.sites[s := st.world.sites[s]]
            && Result(w0.sites[s], st.world.sites[s], st.proc)
            && Locals(w0.sites[s], st.proc)
            && Loaded(w0, st.world, st.proc)
  {
    RunStands(w0, s, cmd, inputs);
  }
}
