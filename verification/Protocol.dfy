/** The blue/green deploy protocol as a machine of small effects.

    A command is a process that performs one effect per step. Every effect may
    fail, and a failed effect may have left nothing, a part or all of its change
    behind; a failure ends the command. */
module Protocol {
  import opened Common
  import opened Images

  // ---------- What the host holds ----------

  datatype Container = Container(image: string, running: bool)

  datatype Preview = Preview(sha: string, color: Color)

  /** One defined service: its image template, its two state files, its two
      containers and its preview record. A missing color file reads as blue. */
  datatype Site = Site(
    template: string,
    active: Color,
    sha: Option<string>,
    blue: Option<Container>,
    green: Option<Container>,
    preview: Option<Preview>)
  {
    function Slot(c: Color): Option<Container> {
      if c.Blue? then blue else green
    }

    function WithSlot(c: Color, slot: Option<Container>): Site {
      if c.Blue? then this.(blue := slot) else this.(green := slot)
    }

    predicate Running(c: Color) {
      Slot(c).Some? && Slot(c).value.running
    }

    predicate RunsImage(c: Color, image: string) {
      Slot(c) == Some(Container(image, true))
    }

    function Image(sha: string): string {
      ImageRef(template, sha)
    }

    /** What a command takes the service to be when some of its looks fail: an
        unreadable SHA file reads as no SHA, a container that cannot be inspected
        as none. */
    function Seen(x: Sight): Site {
      this.(sha := if x.noSha then None else sha,
            blue := if Blue in x.unseen then None else blue,
            green := if Green in x.unseen then None else green)
    }

    // ----- effects -----

    function Put(c: Color, image: string, running: bool): Site {
      WithSlot(c, Some(Container(image, running)))
    }

    function Remove(c: Color): Site {
      WithSlot(c, None)
    }

    /** A container that is there, and no other, is up or down from now on. */
    function Switch(c: Color, running: bool): Site {
      WithSlot(c, if Slot(c).None? then None else Some(Slot(c).value.(running := running)))
    }

    function Stop(c: Color): Site {
      if Slot(c).Some? then Put(c, Slot(c).value.image, false) else this
    }

    function Resume(c: Color): Site {
      if Slot(c).Some? then Put(c, Slot(c).value.image, true) else this
    }

    /** An empty SHA file reads as no SHA. */
    function RecordSha(s: string): Site {
      this.(sha := if s == "" then None else Some(s))
    }
  }

  /** All defined services and the colors the live Caddy config was built from. */
  datatype World = World(sites: map<Service, Site>, caddy: map<Service, Color>) {

    /** The color live Caddy sends the service's traffic to. */
    function Routed(s: Service): Color {
      if s in caddy then caddy[s] else Blue
    }

    function Colors(): map<Service, Color> {
      map s | s in sites :: sites[s].active
    }

    /** The colors an `apply_all` reads from the state files: a file it cannot
        read counts as blue. */
    function ColorsBut(blind: set<Service>): map<Service, Color> {
      map s | s in sites :: if s in blind then Blue else sites[s].active
    }
  }

  // ---------- How an effect ends ----------

  datatype Residue = Untouched | Partial | Full
  datatype Fate = Ok | Failed(residue: Residue)

  datatype LocalImage = LocalImage(sha: string, tag: string)

  /** Looks that fail without ending the command. */
  datatype Sight = Sight(noSha: bool, unseen: set<Color>)

  const CLEAR := Sight(false, {})

  /** What the outside supplies to one step: how the effect ends; where a cutover
      looks, the newest image in the local Docker cache; which looks at the service
      fail; and which color files an `apply_all` cannot read. */
  datatype Input = Input(fate: Fate, newest: Option<LocalImage>, sight: Sight, blind: set<Service>)

  function Plainly(fate: Fate): Input { Input(fate, None, CLEAR, {}) }

  // ---------- Cutover planning ----------

  datatype CutoverPlan =
    | PromoteSha(sha: string, alreadyStaged: bool)
    | NothingNewer
    | NoLocalImages
    | StalePreview

  function PlanCutover(explicit: Option<string>, preview: Option<string>, previewStaged: bool,
                       newest: Option<LocalImage>, activeTag: string): (plan: CutoverPlan)
    ensures explicit.Some? ==> plan == PromoteSha(explicit.value, false)
    ensures explicit.None? && preview.Some? && plan.PromoteSha? ==> plan == PromoteSha(preview.value, true)
    ensures explicit.None? && preview.None? && plan.PromoteSha? ==> newest.Some? && plan == PromoteSha(newest.value.sha, false)
    ensures plan.StalePreview? <==> explicit.None? && preview.Some? && !previewStaged
    ensures plan.NoLocalImages? <==> explicit.None? && preview.None? && newest.None?
    ensures plan.NothingNewer? <==> explicit.None? && preview.None? && newest.Some? && newest.value.tag == activeTag
  {
    match explicit
    case Some(sha) => PromoteSha(sha, false)
    case None =>
      match preview
      case Some(p) => if previewStaged then PromoteSha(p, true) else StalePreview
      case None =>
        match newest
        case None => NoLocalImages
        case Some(image) => if image.tag == activeTag then NothingNewer else PromoteSha(image.sha, false)
  }

  // ---------- Processes ----------

  datatype Command =
    | Deploy(sha: string)
    | DeployPreview(sha: string)
    | Cutover(explicit: Option<string>)
    | CancelPreview
    | Rollback
    | ReloadRoutes

  datatype Pc =
    | Acquire                                        // take the service's deploy lock
    | Inspect                                        // preflight, load the definition, read state, decide
    | Validate | RemoveInactive | StartInactive | Health
    | RecordPreview
    | Guard | WriteActive | WriteSha | ReadColors | Reload | StopOld | Prune
    | StopInactive | DropInactive
    | StartPrevious | PollHealth
    | DeletePreview | ReadColorsAgain | ReloadAgain | Nginx
    | Finished(ok: bool)

  /** A running command: the locals it has read so far and its next effect. */
  datatype Proc = Proc(
    cmd: Command,
    service: Service,
    pc: Pc,
    active: Color,                                   // the active color it read
    target: string,                                  // the SHA it promotes
    snapshot: map<Service, Color>,                   // colors it read for Caddy
    blind: set<Service>)                             // color files it could not read then
  {
    function Inactive(): Color { Flip(active) }
    function Goto(next: Pc): Proc { this.(pc := next) }
    function Reading(w: World, unread: set<Service>): Proc {
      this.(snapshot := w.ColorsBut(unread), blind := unread)
    }
  }

  function Begin(cmd: Command, s: Service): Proc {
    Proc(cmd, s, if cmd.ReloadRoutes? then ReadColorsAgain else Inspect, Blue, "", map[], {})
  }

  // ---------- Decisions ----------

  /** The deploy is skipped: the SHA is recorded and the active container is up. */
  predicate NoOp(v: Site, sha: string) {
    v.sha == Some(sha) && v.Running(v.active)
  }

  function PlanFor(v: Site, explicit: Option<string>, newest: Option<LocalImage>): CutoverPlan {
    var preview := if v.preview.Some? then Some(v.preview.value.sha) else None;
    var staged := preview.Some? && v.RunsImage(Flip(v.active), v.Image(preview.value));
    var activeTag := if v.Slot(v.active).Some? then v.Slot(v.active).value.image else "";
    PlanCutover(explicit, preview, staged, newest, activeTag)
  }

  function InspectCutover(v: Site, p: Proc, explicit: Option<string>, newest: Option<LocalImage>): Proc {
    match PlanFor(v, explicit, newest)
    case PromoteSha(sha, alreadyStaged) =>
      var q := p.(target := sha);
      if alreadyStaged || v.RunsImage(p.Inactive(), v.Image(sha)) then q.Goto(Guard) else q.Goto(Validate)
    case NothingNewer => p.Goto(DeletePreview)
    case NoLocalImages => p.Goto(Finished(false))
    case StalePreview => p.Goto(Finished(false))
  }

  /** Everything a command decides before its first effect, on what it saw. */
  function Decide(v: Site, begun: Proc, newest: Option<LocalImage>): Proc {
    var p := begun.(active := v.active);
    match p.cmd
    case Deploy(sha) =>
      if NoOp(v, sha) then p.Goto(Finished(true)) else p.(target := sha).Goto(Validate)
    case DeployPreview(sha) => p.(target := sha).Goto(Validate)
    case Cutover(explicit) => InspectCutover(v, p, explicit, newest)
    case CancelPreview => p.Goto(StopInactive)
    case Rollback =>
      var previous := v.Slot(p.Inactive());
      if previous.Some? && !previous.value.running
      then p.(target := ShaOrUnknown(p.service, previous.value.image)).Goto(StartPrevious)
      else p.Goto(Finished(false))
    case ReloadRoutes => p.Goto(ReadColorsAgain)
  }

  // ---------- Effects ----------

  /** What the effect at each program counter makes of the service. */
  function Done(v: Site, p: Proc): Site {
    match p.pc
    case RemoveInactive => v.Remove(p.Inactive())
    case StartInactive => v.Put(p.Inactive(), v.Image(p.target), true)
    case RecordPreview => v.(preview := Some(Preview(p.target, p.Inactive())))
    case WriteActive => v.(active := p.Inactive())
    case WriteSha => v.RecordSha(p.target)
    case StopOld => v.Stop(p.active)
    case StopInactive => v.Stop(p.Inactive())
    case DropInactive => v.Remove(p.Inactive())
    case StartPrevious => v.Resume(p.Inactive())
    case DeletePreview => v.(preview := None)
    case _ => v
  }

  /** What an effect that stops half-way leaves: a created container that was not
      started, a color file that does not parse and so reads as blue, an empty SHA file. */
  function HalfDone(v: Site, p: Proc): Site {
    match p.pc
    case StartInactive => v.Put(p.Inactive(), v.Image(p.target), false)
    case WriteActive => v.(active := Blue)
    case WriteSha => v.RecordSha("")
    case _ => v
  }

  /** What a failure leaves when it is reported after the change was made. A
      failed health check takes the container it judged down with it: a deploy
      removes it, a rollback stops it. */
  function FailedLate(v: Site, p: Proc): Site {
    match p.pc
    case Health => v.Remove(p.Inactive())
    case PollHealth => v.Stop(p.Inactive())
    case _ => Done(v, p)
  }

  function Touch(v: Site, p: Proc, fate: Fate): Site {
    match fate
    case Ok => Done(v, p)
    case Failed(Untouched) => v
    case Failed(Partial) => HalfDone(v, p)
    case Failed(Full) => FailedLate(v, p)
  }

  /** Where a command goes after the effect at its program counter succeeded. */
  function Following(v: Site, p: Proc): Pc {
    match p.pc
    case Validate => RemoveInactive
    case RemoveInactive => StartInactive
    case StartInactive => Health
    case Health => if p.cmd.DeployPreview? then RecordPreview else Guard
    case RecordPreview => ReadColorsAgain
    case Guard => WriteActive
    case WriteActive => WriteSha
    case WriteSha => ReadColors
    case ReadColors => Reload
    case Reload => StopOld
    case StopOld => if p.cmd.Rollback? then Finished(true) else Prune
    case Prune => if p.cmd.Deploy? then Finished(true) else DeletePreview
    case StopInactive => DropInactive
    case DropInactive => Prune
    case StartPrevious => PollHealth
    case PollHealth => WriteActive
    case DeletePreview => if v.preview.Some? then ReadColorsAgain else Finished(true)
    case ReadColorsAgain => ReloadAgain
    case ReloadAgain => Nginx
    case Nginx => Finished(true)
    case Acquire => Acquire
    case Inspect => Inspect
    case Finished(ok) => Finished(ok)
  }

  /** The command's own next state once its locals are up to date. */
  function Move(v: Site, p: Proc, i: Input): Proc {
    if p.pc.Finished? || p.pc.Acquire? then p
    else if i.fate.Failed? || (p.pc.Guard? && !v.Seen(i.sight).Running(p.Inactive())) then p.Goto(Finished(false))
    else if p.pc.Inspect? then Decide(v.Seen(i.sight), p, i.newest)
    else p.Goto(Following(v, p))
  }

  predicate ReadsColors(pc: Pc) { pc.ReadColors? || pc.ReadColorsAgain? }

  predicate LoadsColors(pc: Pc) { pc.Reload? || pc.ReloadAgain? }

  /** An `apply_all` reads the state files of every service and only later
      hands the result to Caddy. */
  function Reloaded(w: World, p: Proc, fate: Fate): map<Service, Color> {
    if LoadsColors(p.pc) && (fate.Ok? || fate == Failed(Full)) then p.snapshot else w.caddy
  }

  datatype State = State(world: World, proc: Proc)

  /** One effect of a command. A service without a definition fails at once. */
  function Step(st: State, i: Input): State {
    var w, p := st.world, st.proc;
    var s := p.service;
    if p.cmd.ReloadRoutes? then
      State(World(w.sites, Reloaded(w, p, i.fate)), StepReload(w, p, i))
    else if s !in w.sites then State(w, p.Goto(Finished(false)))
    else
      var v := w.sites[s];
      var q := if ReadsColors(p.pc) then p.Reading(w, i.blind) else p;
      State(World(w.sites[s := Touch(v, p, i.fate)], Reloaded(w, p, i.fate)), Move(v, q, i))
  }

  /** `reload-routes` belongs to no service: it only re-applies the routes. */
  function StepReload(w: World, p: Proc, i: Input): Proc {
    if p.pc.Finished? then p
    else if i.fate.Failed? then p.Goto(Finished(false))
    else
      match p.pc
      case ReadColorsAgain => p.Reading(w, i.blind).Goto(ReloadAgain)
      case ReloadAgain => p.Goto(Nginx)
      case _ => p.Goto(Finished(true))
  }

  /** A command that runs with nobody else moving. */
  function Run(st: State, inputs: seq<Input>): State
    decreases |inputs|
  {
    if inputs == [] then st
    else Step(Run(st, inputs[..|inputs| - 1]), inputs[|inputs| - 1])
  }

  lemma RunSnoc(st: State, inputs: seq<Input>, i: Input)
    ensures Run(st, inputs + [i]) == Step(Run(st, inputs), i)
  {
    assert (inputs + [i])[..|inputs|] == inputs;
  }

  lemma {:induction false} RunCons(st: State, i: Input, inputs: seq<Input>)
    ensures Run(st, [i] + inputs) == Run(Step(st, i), inputs)
    decreases |inputs|
  {
    var all, n := [i] + inputs, |inputs|;
    if n == 0 {
      assert all[..0] == [] && all[0] == i;
    } else {
      RunCons(st, i, inputs[..n - 1]);
      assert all[..n] == [i] + inputs[..n - 1];
    }
  }

  // ---------- What the protocol promises ----------

  /** The container of the active color is up. */
  predicate Available(v: Site) {
    v.Running(v.active)
  }

  /** The recorded SHA names the image of the active container. */
  predicate Agrees(v: Site) {
    v.sha.Some? ==> v.Slot(v.active).Some? && v.Slot(v.active).value.image == v.Image(v.sha.value)
  }

  /** A look that fails only takes away. */
  lemma SeenIsThere(v: Site, x: Sight, c: Color, image: string)
    ensures v.Seen(x).active == v.active && v.Seen(x).preview == v.preview && v.Seen(x).template == v.template
    ensures v.Seen(x).Slot(c).Some? ==> v.Seen(x).Slot(c) == v.Slot(c)
    ensures v.Seen(x).Running(c) ==> v.Running(c)
    ensures v.Seen(x).RunsImage(c, image) ==> v.RunsImage(c, image)
    ensures v.Seen(CLEAR) == v
  {
  }

  /** A color file that cannot be read matters exactly on green. */
  predicate Misread(w: World, s: Service, blind: set<Service>)
    requires s in w.sites
  {
    s in blind && w.sites[s].active.Green?
  }

  /** Live Caddy was built from the recorded color. */
  predicate InSync(w: World, s: Service)
    requires s in w.sites
  {
    w.Routed(s) == w.sites[s].active
  }
}
