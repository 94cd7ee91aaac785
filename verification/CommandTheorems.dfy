/** Convergence, verified promotion, rollback as an inverse, and the two ways to
    deploy: what the commands promise about whole runs. */
module CommandTheorems {
  import opened Common
  import opened Images
  import opened Protocol
  import opened CommandResults

  function After(w: World, cmd: Command, s: Service, inputs: seq<Input>): World {
    Run(State(w, Begin(cmd, s)), inputs).world
  }

  predicate Succeeds(w: World, cmd: Command, s: Service, inputs: seq<Input>) {
    Run(State(w, Begin(cmd, s)), inputs).proc.pc == Finished(true)
  }

  /** What reading the SHA file gives after writing `sha` to it. */
  function Readback(sha: string): Option<string> {
    if sha == "" then None else Some(sha)
  }

  /** State, containers and Caddy agree on one live image. */
  predicate Converged(w: World, s: Service, sha: string) {
    s in w.sites &&
    var v := w.sites[s];
    && v.RunsImage(v.active, v.Image(sha))
    && v.sha == Readback(sha)
    && InSync(w, s)
    && !v.Running(Flip(v.active))
  }

  /** The color files the command could not read when it last asked for the colors. */
  function Unread(w: World, cmd: Command, s: Service, inputs: seq<Input>): set<Service> {
    Run(State(w, Begin(cmd, s)), inputs).proc.blind
  }

  lemma PromotedIsConverged(w: World, s: Service, sha: string, blind: set<Service>)
    requires s in w.sites
    ensures var w' := Recolored(w, s, Promoted(Staged(w.sites[s], sha), sha), blind);
            Converged(w', s, sha) <==> !Misread(w', s, blind)
    ensures var w' := Recolored(w, s, CutoverResult(w.sites[s], sha), blind);
            Converged(w', s, sha) <==> !Misread(w', s, blind)
  {
  }

  /** From any state at all, a deploy that runs through was rightly skipped or
      leaves exactly the closed-form result. That result is converged if and only
      if the service did not go to green with its color file unreadable. */
  lemma DeployConverges(w: World, s: Service, sha: string, inputs: seq<Input>)
    requires s in w.sites && Succeeds(w, Deploy(sha), s, inputs)
    ensures var w', blind := After(w, Deploy(sha), s, inputs), Unread(w, Deploy(sha), s, inputs);
            && (w' == w ==> NoOp(w.sites[s], sha))
            && (w' != w ==>
                  && w' == Recolored(w, s, Promoted(Staged(w.sites[s], sha), sha), blind)
                  && w'.sites[s].active == Flip(w.sites[s].active)
                  && (Converged(w', s, sha) <==> !Misread(w', s, blind)))
  {
    RunResult(w, s, Deploy(sha), inputs);
    PromotedIsConverged(w, s, sha, Unread(w, Deploy(sha), s, inputs));
  }

  /** The skip is noticed: the SHA file is read and the active container inspected. */
  predicate Noticed(v: Site, i: Input) {
    !i.sight.noSha && v.active !in i.sight.unseen
  }

  /** A deploy is skipped if and only if there is nothing to do and that is noticed. */
  lemma SkippedIffNoticed(w: World, s: Service, sha: string, i: Input)
    requires s in w.sites
    ensures Run(State(w, Begin(Deploy(sha), s)), [i]).proc.pc == Finished(true)
       <==> i.fate.Ok? && NoOp(w.sites[s], sha) && Noticed(w.sites[s], i)
  {
    var st := State(w, Begin(Deploy(sha), s));
    assert [i][..0] == [];
    assert Run(st, [i]) == Step(st, i);
    SeenIsThere(w.sites[s], i.sight, w.sites[s].active, "");
  }

  /** A skipped deploy touches nothing, Caddy included. */
  lemma {:induction false} NoOpLeavesWorld(w: World, s: Service, sha: string, inputs: seq<Input>)
    requires s in w.sites && NoOp(w.sites[s], sha)
    requires inputs != [] ==> inputs[0].fate.Failed? || Noticed(w.sites[s], inputs[0])
    ensures After(w, Deploy(sha), s, inputs) == w
    ensures inputs != [] ==> Run(State(w, Begin(Deploy(sha), s)), inputs).proc.pc.Finished?
    decreases |inputs|
  {
    if inputs != [] {
      var before, i := inputs[..|inputs| - 1], inputs[|inputs| - 1];
      var st := Run(State(w, Begin(Deploy(sha), s)), before);
      NoOpLeavesWorld(w, s, sha, before);
      RunStands(w, s, Deploy(sha), before);
      assert w.sites[s := w.sites[s]] == w.sites;
      if before == [] {
        SkippedIffNoticed(w, s, sha, i);
        assert inputs == [i];
      } else {
        FinishedStays(st, i);
      }
    }
  }

  /** Not noticed, it is redone: the same image goes to the other color. */
  lemma UnreadShaRedeploys(w: World, s: Service, sha: string, inputs: seq<Input>)
    requires s in w.sites && NoOp(w.sites[s], sha)
    requires Smooth(inputs, Input(Ok, None, Sight(true, {}), {})) && |inputs| >= 20
    ensures Succeeds(w, Deploy(sha), s, inputs) && After(w, Deploy(sha), s, inputs) != w
  {
    var i := Input(Ok, None, Sight(true, {}), {});
    SmoothRunSucceeds(w, Deploy(sha), s, i, inputs);
    NotFinishedAtOnce(w, s, sha, i);
    SwitchedUnlessSkipped(w, s, sha, inputs);
  }

  lemma NotFinishedAtOnce(w: World, s: Service, sha: string, i: Input)
    requires s in w.sites && i.fate.Ok? && i.sight.noSha
    ensures Run(State(w, Begin(Deploy(sha), s)), [i]).proc.pc == Validate
  {
    var st := State(w, Begin(Deploy(sha), s));
    assert [i][..0] == [];
    assert Run(st, [i]) == Step(st, i);
  }

  /** A deploy that goes past its decision and runs through has changed colors. */
  lemma {:induction false} SwitchedUnlessSkipped(w: World, s: Service, sha: string, inputs: seq<Input>)
    requires s in w.sites && inputs != [] && Run(State(w, Begin(Deploy(sha), s)), inputs[..1]).proc.pc == Validate
    ensures var st := Run(State(w, Begin(Deploy(sha), s)), inputs);
            && !st.proc.pc.Inspect?
            && (st.proc.pc == Finished(true) ==> Switched(w, st.world, st.proc))
    decreases |inputs|
  {
    var before, i := inputs[..|inputs| - 1], inputs[|inputs| - 1];
    if before == [] {
      assert inputs[..1] == inputs;
    } else {
      assert before[..1] == inputs[..1];
      SwitchedUnlessSkipped(w, s, sha, before);
      RunStands(w, s, Deploy(sha), before);
      var st := Run(State(w, Begin(Deploy(sha), s)), before);
      if st.proc.pc.Finished? { FinishedStays(st, i); } else { LastEffectSwitched(w, s, sha, st, i); }
    }
  }

  lemma LastEffectSwitched(w: World, s: Service, sha: string, st: State, i: Input)
    requires Standing(w, s, Deploy(sha), st) && !st.proc.pc.Finished? && !st.proc.pc.Inspect?
    ensures !Step(st, i).proc.pc.Inspect?
    ensures Step(st, i).proc.pc == Finished(true) ==> Switched(w, Step(st, i).world, Step(st, i).proc)
  {
  }

  /** The tag of the active container, as far as it was seen. */
  function TagSeen(v: Site, x: Sight): string {
    if v.active in x.unseen || v.Slot(v.active).None? then "" else v.Slot(v.active).value.image
  }

  /** A preview's image was seen running on the other color. */
  predicate StagedSeen(v: Site, x: Sight) {
    && v.preview.Some? && Flip(v.active) !in x.unseen
    && v.Slot(Flip(v.active)) == Some(Container(ImageRef(v.template, v.preview.value.sha), true))
  }

  /** What a cutover promotes when its first look is `i`: an explicit SHA; or else
      the preview, if it was seen staged; or else the newest image, if it is another
      than the active container's. */
  function Choice(v: Site, explicit: Option<string>, i: Input): Option<string> {
    if explicit.Some? then explicit
    else if v.preview.Some? then (if StagedSeen(v, i.sight) then Some(v.preview.value.sha) else None)
    else if i.newest.Some? && i.newest.value.tag != TagSeen(v, i.sight) then Some(i.newest.value.sha)
    else None
  }

  predicate Chosen(v: Site, explicit: Option<string>, i: Input, sha: string) {
    Choice(v, explicit, i) == Some(sha)
  }

  /** There is nothing to promote: no SHA, no preview, and the newest image is the
      one the active container was seen with. */
  predicate NothingToPromote(v: Site, explicit: Option<string>, i: Input) {
    && explicit.None? && v.preview.None? && i.newest.Some? && i.newest.value.tag == TagSeen(v, i.sight)
  }

  /** The command is past the write of the new color. */
  predicate PastSwitch(pc: Pc) {
    pc.WriteSha? || pc.ReadColors? || pc.Reload? || pc.StopOld? || InClosing(pc) || pc == Finished(true)
  }

  lemma CutoverChooses(w: World, s: Service, explicit: Option<string>, i: Input)
    requires s in w.sites
    ensures var st := Step(State(w, Begin(Cutover(explicit), s)), i);
            && st.world == w
            && (st.proc.pc == Finished(false)
                || (st.proc.pc.DeletePreview? && NothingToPromote(w.sites[s], explicit, i))
                || (!PastSwitch(st.proc.pc) && !st.proc.pc.Inspect? && Chosen(w.sites[s], explicit, i, st.proc.target)))
  {
    assert w.sites[s := w.sites[s]] == w.sites;
  }

  lemma KeepsSwitch(w: World, s: Service, explicit: Option<string>, st: State, i: Input)
    requires Standing(w, s, Cutover(explicit), st) && !st.proc.pc.Inspect? && !st.proc.pc.Finished?
    requires PastSwitch(st.proc.pc) ==> Switched(w, st.world, st.proc)
    ensures var st' := Step(st, i);
            && !st'.proc.pc.Inspect? && st'.proc.target == st.proc.target
            && (PastSwitch(st'.proc.pc) ==> Switched(w, st'.world, st'.proc))
  {
    var v, p := st.world.sites[s], st.proc;
    MoveKeepsTarget(v, if ReadsColors(p.pc) then p.Reading(st.world, i.blind) else p, i);
    if PastSwitch(p.pc) { DoneKeepsColor(v, p, i.fate); }
  }

  lemma MoveKeepsTarget(v: Site, p: Proc, i: Input)
    requires !p.pc.Inspect?
    ensures var q := Move(v, p, i);
            && !q.pc.Inspect? && q.target == p.target && q.service == p.service && q.cmd == p.cmd
            && (Crosses(p, q) ==> p.pc.WriteActive? && i.fate.Ok?)
  {
  }

  /** A cutover gets past the write of the new color. */
  predicate Crosses(p: Proc, q: Proc) {
    && p.cmd.Cutover? && !PastSwitch(p.pc) && PastSwitch(q.pc)
    && !p.pc.StopInactive? && !p.pc.DropInactive? && !p.pc.RecordPreview?
  }

  lemma DoneKeepsColor(v: Site, p: Proc, fate: Fate)
    requires PastSwitch(p.pc)
    ensures Touch(v, p, fate).active == v.active
  {
  }

  lemma NothingChanges(w: World, s: Service, explicit: Option<string>, st: State, i: Input)
    requires Standing(w, s, Cutover(explicit), st) && w.sites[s].preview.None?
    requires st.world == w && (st.proc.pc.DeletePreview? || st.proc.pc.Finished?)
    ensures Step(st, i).world == w && Step(st, i).proc.pc.Finished?
  {
    if st.proc.pc.Finished? { FinishedStays(st, i); }
    assert w.sites[s := w.sites[s]] == w.sites;
  }

  /** What was decided by the first look is what is done. */
  lemma {:induction false} CutoverKeepsChoice(w: World, s: Service, explicit: Option<string>, inputs: seq<Input>)
    requires s in w.sites && inputs != []
    ensures var st := Run(State(w, Begin(Cutover(explicit), s)), inputs);
            || st.proc.pc == Finished(false)
            || (NothingToPromote(w.sites[s], explicit, inputs[0]) && st.world == w
                && (st.proc.pc.DeletePreview? || st.proc.pc.Finished?))
            || (Chosen(w.sites[s], explicit, inputs[0], st.proc.target) && !st.proc.pc.Inspect?
                && (PastSwitch(st.proc.pc) ==> Switched(w, st.world, st.proc)))
    decreases |inputs|
  {
    var before, i := inputs[..|inputs| - 1], inputs[|inputs| - 1];
    var st := Run(State(w, Begin(Cutover(explicit), s)), before);
    if before == [] {
      CutoverChooses(w, s, explicit, i);
    } else {
      CutoverKeepsChoice(w, s, explicit, before);
      RunStands(w, s, Cutover(explicit), before);
      if st.proc.pc.Finished? { FinishedStays(st, i); }
      else if NothingToPromote(w.sites[s], explicit, inputs[0]) { NothingChanges(w, s, explicit, st, i); }
      else { KeepsSwitch(w, s, explicit, st, i); }
    }
  }

  /** A cutover that runs through changed nothing if and only if neither a SHA was
      given nor a preview pending and the newest image is the one the active
      container was seen with. Otherwise it leaves the closed-form result of what it
      had to choose, converged if and only if it did not go to green with the color
      file unreadable. No preview record is left. */
  lemma CutoverConverges(w: World, s: Service, explicit: Option<string>, inputs: seq<Input>)
    returns (sha: string)
    requires s in w.sites && Succeeds(w, Cutover(explicit), s, inputs)
    ensures var w', blind := After(w, Cutover(explicit), s, inputs), Unread(w, Cutover(explicit), s, inputs);
            && s in w'.sites && inputs != []
            && w'.sites[s].preview.None?
            && (w' == w <==> NothingToPromote(w.sites[s], explicit, inputs[0]))
            && (w' != w ==>
                  && Chosen(w.sites[s], explicit, inputs[0], sha)
                  && w' == Recolored(w, s, CutoverResult(w.sites[s], sha), blind)
                  && (Converged(w', s, sha) <==> !Misread(w', s, blind)))
  {
    RunResult(w, s, Cutover(explicit), inputs);
    var st := Run(State(w, Begin(Cutover(explicit), s)), inputs);
    sha := st.proc.target;
    CutoverKeepsChoice(w, s, explicit, inputs);
    PromotedIsConverged(w, s, sha, st.proc.blind);
  }

  /** Until the preview record is deleted nothing has gone wrong with it: a step
      that fails before that leaves it in place. */
  lemma FailedCutoverKeepsPreview(w: World, s: Service, explicit: Option<string>, inputs: seq<Input>, i: Input)
    requires s in w.sites
    ensures var st := Run(State(w, Begin(Cutover(explicit), s)), inputs);
            s in st.world.sites && s in Step(st, i).world.sites &&
            (st.proc.pc.Prune? || (!InClosing(st.proc.pc) && !st.proc.pc.Finished?) ==>
               Step(st, i).world.sites[s].preview == w.sites[s].preview)
  {
    RunStands(w, s, Cutover(explicit), inputs);
    var st := Run(State(w, Begin(Cutover(explicit), s)), inputs);
    StandingKeepsPreview(w.sites[s], st.world.sites[s], st.proc);
    if st.proc.pc.Prune? || (!InClosing(st.proc.pc) && !st.proc.pc.Finished?) { StepKeepsPreview(st, i); }
  }

  lemma StandingKeepsPreview(v0: Site, v: Site, p: Proc)
    requires p.cmd.Cutover? && At(v0, v, p)
    ensures p.pc.Prune? || (!InClosing(p.pc) && !p.pc.Finished?) ==> v.preview == v0.preview
  {
  }

  lemma StepKeepsPreview(st: State, i: Input)
    requires st.proc.service in st.world.sites && !st.proc.cmd.ReloadRoutes?
    requires !st.proc.pc.DeletePreview? && !st.proc.pc.RecordPreview?
    ensures st.proc.service in Step(st, i).world.sites
    ensures Step(st, i).world.sites[st.proc.service].preview == st.world.sites[st.proc.service].preview
  {
  }

  // ---------- Rollback ----------

  /** A rollback that runs through swaps the colors and records the SHA it reads
      off the revived container's tag. */
  lemma RollbackSwaps(w: World, s: Service, inputs: seq<Input>)
    requires s in w.sites && Succeeds(w, Rollback, s, inputs)
    ensures HasStopped(w.sites[s])
    ensures After(w, Rollback, s, inputs)
         == Recolored(w, s, Promoted(Revived(w.sites[s]), PreviousSha(w.sites[s], s)), Unread(w, Rollback, s, inputs))
    ensures s in After(w, Rollback, s, inputs).sites
            && Swapped(w.sites[s], After(w, Rollback, s, inputs).sites[s], s)
  {
    RunResult(w, s, Rollback, inputs);
    PromotedSwaps(w.sites[s], s);
  }

  /** The other color's container, which was stopped, is up and recorded, with the
      SHA that follows the service's name on a registry tag, or else "unknown"; the
      former one is stopped. */
  ghost predicate Swapped(v: Site, v': Site, s: Service)
    requires HasStopped(v)
  {
    var image := v.Slot(Flip(v.active)).value.image;
    && v'.active == Flip(v.active) && v'.template == v.template && v'.preview == v.preview
    && v'.RunsImage(v'.active, image)
    && v'.Slot(v.active) == (if v.Slot(v.active).None? then None else Some(v.Slot(v.active).value.(running := false)))
    && (forall sha :: image == "ghcr.io/coderyoss/codery:" + s + "-" + sha ==>
          v'.sha == if sha == "" then None else Some(sha))
    && (!("ghcr.io/coderyoss/codery:" + s + "-" <= image) ==> v'.sha == Some("unknown"))
  }

  lemma PromotedSwaps(v: Site, s: Service)
    requires HasStopped(v)
    ensures Swapped(v, Promoted(Revived(v), PreviousSha(v, s)), s)
  {
    TagIsRead(s, v.Slot(Flip(v.active)).value.image);
  }

  /** What the image of the active container says its SHA is. */
  function TaggedSha(v: Site, s: Service): Option<string>
    requires v.Slot(v.active).Some?
  {
    Readback(ShaOrUnknown(s, v.Slot(v.active).value.image))
  }

  lemma SiteAfterDeployAndRollback(v: Site, s: Service, sha: string)
    requires v.Slot(v.active).Some?
    ensures var v1 := Promoted(Staged(v, sha), sha);
            var v2 := Promoted(Revived(v1), PreviousSha(v1, s));
            && v2.active == v.active
            && v2.Slot(v.active) == Some(v.Slot(v.active).value.(running := true))
            && v2.sha == TaggedSha(v, s)
            && !v2.Running(Flip(v.active))
            && v2.template == v.template && v2.preview == v.preview
  {
  }

  /** A rollback right after a deploy brings back the color. It brings back the
      running container exactly if that was up before, the SHA exactly if the SHA
      was the one on its tag, and Caddy exactly if the color is not a green one
      that could not be read. */
  lemma RollbackUndoesDeploy(w: World, s: Service, sha: string, deployed: seq<Input>, rolled: seq<Input>)
    requires s in w.sites && Succeeds(w, Deploy(sha), s, deployed) && After(w, Deploy(sha), s, deployed) != w
    requires Succeeds(After(w, Deploy(sha), s, deployed), Rollback, s, rolled)
    ensures var v, w1 := w.sites[s], After(w, Deploy(sha), s, deployed);
            var w2 := After(w1, Rollback, s, rolled);
            && s in w2.sites && v.Slot(v.active).Some?
            && w2.sites[s].active == v.active
            && (InSync(w2, s) <==> !Misread(w2, s, Unread(w1, Rollback, s, rolled)))
            && (w2.sites[s].Slot(v.active) == v.Slot(v.active) <==> Available(v))
            && (w2.sites[s].sha == v.sha <==> v.sha == TaggedSha(v, s))
  {
    var v, w1 := w.sites[s], After(w, Deploy(sha), s, deployed);
    DeployConverges(w, s, sha, deployed);
    RollbackSwaps(w1, s, rolled);
    assert w1.sites[s] == Promoted(Staged(v, sha), sha);
    assert v.Slot(v.active).Some?;
    SiteAfterDeployAndRollback(v, s, sha);
  }

  /** On a registry template a SHA that agrees with the running image is on its tag. */
  lemma RegistryShaIsOnTag(v: Site, s: Service)
    requires '{' !in s && v.template == RegistryTemplate(s)
    requires v.sha.Some? && v.sha.value != "" && Agrees(v)
    ensures v.sha == TaggedSha(v, s)
  {
    RegistryImage(s, v.sha.value);
  }

  /** Two rollbacks in a row are the identity on the whole host exactly when the
      active container was up, its tag carried the recorded SHA and Caddy was on the
      colors that the second rollback read. */
  lemma RollbackTwice(w: World, s: Service, first: seq<Input>, second: seq<Input>)
    requires s in w.sites && Succeeds(w, Rollback, s, first)
    requires Succeeds(After(w, Rollback, s, first), Rollback, s, second)
    ensures w.sites[s].Slot(w.sites[s].active).Some?
    ensures After(After(w, Rollback, s, first), Rollback, s, second) == w
       <==> && Available(w.sites[s]) && w.sites[s].sha == TaggedSha(w.sites[s], s)
            && w.caddy == w.ColorsBut(Unread(After(w, Rollback, s, first), Rollback, s, second))
  {
    var v, w1 := w.sites[s], After(w, Rollback, s, first);
    RollbackSwaps(w, s, first);
    RollbackSwaps(w1, s, second);
    var v1 := Promoted(Revived(v), PreviousSha(v, s));
    var v2 := Promoted(Revived(v1), PreviousSha(v1, s));
    assert w1.sites[s] == v1;
    assert v.Slot(v.active).Some?;
    assert v2 == v <==> Available(v) && v.sha == TaggedSha(v, s);
    var w2 := After(w1, Rollback, s, second);
    assert w2.sites == w.sites[s := v2];
    if v2 == v { assert w2.sites == w.sites; } else { assert w2.sites[s] != w.sites[s]; }
  }

  // ---------- One command or two ----------

  lemma PreviewThenCutoverSite(v: Site, sha: string)
    requires v.preview.None?
    ensures CutoverResult(PreviewResult(v, sha), sha) == Promoted(Staged(v, sha), sha)
  {
  }

  /** Staging a preview and cutting over to it ends where a plain deploy ends:
      the same state files, containers and empty preview slot, and the same colors
      in Caddy if and only if both read the same green services. */
  lemma TwoPathsAgree(w: World, s: Service, sha: string,
                      deployed: seq<Input>, previewed: seq<Input>, promoted: seq<Input>)
    requires s in w.sites && w.sites[s].preview.None?
    requires Succeeds(w, Deploy(sha), s, deployed) && After(w, Deploy(sha), s, deployed) != w
    requires Succeeds(w, DeployPreview(sha), s, previewed)
    requires Succeeds(After(w, DeployPreview(sha), s, previewed), Cutover(None), s, promoted)
    ensures var direct, w1 := After(w, Deploy(sha), s, deployed), After(w, DeployPreview(sha), s, previewed);
            var staged := After(w1, Cutover(None), s, promoted);
            && staged.sites == direct.sites
            && (staged == direct <==>
                  forall t <- direct.sites ::
                    Misread(direct, t, Unread(w, Deploy(sha), s, deployed))
                    == Misread(direct, t, Unread(w1, Cutover(None), s, promoted)))
  {
    var v, w1 := w.sites[s], After(w, DeployPreview(sha), s, previewed);
    DeployConverges(w, s, sha, deployed);
    RunResult(w, s, DeployPreview(sha), previewed);
    assert w1.sites == w.sites[s := PreviewResult(v, sha)];
    var promotedSha := CutoverConverges(w1, s, None, promoted);
    assert promotedSha == sha;
    PreviewThenCutoverSite(v, sha);
    assert w1.sites[s := Promoted(Staged(v, sha), sha)] == w.sites[s := Promoted(Staged(v, sha), sha)];
    var direct := After(w, Deploy(sha), s, deployed);
    SameReading(direct, Unread(w, Deploy(sha), s, deployed), Unread(w1, Cutover(None), s, promoted));
  }

  lemma SameReading(w: World, a: set<Service>, b: set<Service>)
    ensures w.ColorsBut(a) == w.ColorsBut(b) <==> forall t <- w.sites :: Misread(w, t, a) == Misread(w, t, b)
  {
    if w.ColorsBut(a) == w.ColorsBut(b) {
      forall t <- w.sites ensures Misread(w, t, a) == Misread(w, t, b) {
        assert w.ColorsBut(a)[t] == w.ColorsBut(b)[t];
      }
    }
  }

  // ---------- Every command ends ----------

  function Rank(pc: Pc): nat {
    match pc
    case Acquire => 20
    case Inspect => 19
    case Validate => 18
    case RemoveInactive => 17
    case StartInactive => 16
    case Health => 15
    case RecordPreview => 14
    case Guard => 14
    case StartPrevious => 15
    case PollHealth => 14
    case WriteActive => 13
    case WriteSha => 12
    case ReadColors => 11
    case Reload => 10
    case StopOld => 9
    case StopInactive => 10
    case DropInactive => 9
    case Prune => 8
    case DeletePreview => 7
    case ReadColorsAgain => 6
    case ReloadAgain => 5
    case Nginx => 4
    case Finished(_) => 0
  }

  lemma DecideFalls(v: Site, p: Proc, newest: Option<LocalImage>)
    requires !p.cmd.ReloadRoutes?
    ensures Rank(Decide(v, p, newest).pc) < 19
  {
  }

  lemma StepFalls(st: State, i: Input)
    requires st.proc.service in st.world.sites && !st.proc.cmd.ReloadRoutes?
    requires !st.proc.pc.Acquire? && !st.proc.pc.Finished?
    ensures Rank(Step(st, i).proc.pc) < Rank(st.proc.pc)
  {
    var v, p := st.world.sites[st.proc.service], st.proc;
    if p.pc.Inspect? {
      DecideFalls(v.Seen(i.sight), p, i.newest);
    } else {
      assert Rank(Following(v, p)) < Rank(p.pc);
    }
  }

  /** No command takes more than nineteen effects, whatever happens. */
  lemma {:induction false} CommandEnds(w: World, cmd: Command, s: Service, inputs: seq<Input>)
    requires s in w.sites && !cmd.ReloadRoutes?
    ensures var st := Run(State(w, Begin(cmd, s)), inputs);
            st.proc.pc.Finished? || Rank(st.proc.pc) + |inputs| <= 19
    decreases |inputs|
  {
    if inputs != [] {
      var before, i := inputs[..|inputs| - 1], inputs[|inputs| - 1];
      var st := Run(State(w, Begin(cmd, s)), before);
      CommandEnds(w, cmd, s, before);
      RunStands(w, s, cmd, before);
      if st.proc.pc.Finished? { FinishedStays(st, i); } else { StepFalls(st, i); }
    }
  }

  /** The command found nothing to refuse. */
  predicate Accepted(v: Site, cmd: Command, s: Service, i: Input) {
    Decide(v.Seen(i.sight), Begin(cmd, s), i.newest).pc != Finished(false)
  }

  /** When exactly that is. */
  lemma AcceptedMeaning(v: Site, cmd: Command, s: Service, i: Input)
    ensures Accepted(v, cmd, s, i) <==>
              match cmd
              case Cutover(explicit) => explicit.Some? || (if v.preview.Some? then StagedSeen(v, i.sight) else i.newest.Some?)
              case Rollback =>
                Flip(v.active) !in i.sight.unseen && v.Slot(Flip(v.active)).Some? && !v.Slot(Flip(v.active)).value.running
              case _ => true
  {
  }

  lemma BaseIsUp(v0: Site, p: Proc)
    requires Locals(v0, p) && p.pc.Guard? && At(v0, Base(v0, p), p)
    ensures Base(v0, p).Running(p.Inactive())
  {
  }

  /** Nothing fails, and both containers can be inspected. */
  predicate Smooth(inputs: seq<Input>, i: Input) {
    && i.fate.Ok? && i.sight.unseen == {}
    && forall k :: 0 <= k < |inputs| ==> inputs[k] == i
  }

  lemma {:induction false} SmoothRun(w: World, cmd: Command, s: Service, i: Input, inputs: seq<Input>)
    requires s in w.sites && !cmd.ReloadRoutes? && Accepted(w.sites[s], cmd, s, i)
    requires Smooth(inputs, i)
    ensures Run(State(w, Begin(cmd, s)), inputs).proc.pc != Finished(false)
    decreases |inputs|
  {
    if inputs != [] {
      var before := inputs[..|inputs| - 1];
      SmoothRun(w, cmd, s, i, before);
      RunStands(w, s, cmd, before);
      SmoothStep(w, s, cmd, Run(State(w, Begin(cmd, s)), before), i);
    }
  }

  /** A command that is accepted and meets no failure runs through. */
  lemma SmoothRunSucceeds(w: World, cmd: Command, s: Service, i: Input, inputs: seq<Input>)
    requires s in w.sites && !cmd.ReloadRoutes? && Accepted(w.sites[s], cmd, s, i)
    requires Smooth(inputs, i) && |inputs| >= 20
    ensures Succeeds(w, cmd, s, inputs)
  {
    SmoothRun(w, cmd, s, i, inputs);
    CommandEnds(w, cmd, s, inputs);
  }

  lemma SmoothStep(w: World, s: Service, cmd: Command, st: State, i: Input)
    requires Standing(w, s, cmd, st) && Accepted(w.sites[s], cmd, s, i) && i.fate.Ok? && i.sight.unseen == {}
    requires st.proc.pc != Finished(false)
    ensures Step(st, i).proc.pc != Finished(false)
  {
    if st.proc.pc.Inspect? {
      assert Step(st, i).proc == Decide(w.sites[s].Seen(i.sight), Begin(cmd, s), i.newest);
    } else {
      if st.proc.pc.Guard? { BaseIsUp(w.sites[s], st.proc); }
      SmoothEffect(st, i);
    }
  }

  lemma SmoothEffect(st: State, i: Input)
    requires st.proc.service in st.world.sites && !st.proc.cmd.ReloadRoutes? && i.fate.Ok? && i.sight.unseen == {}
    requires !st.proc.pc.Inspect? && st.proc.pc != Finished(false)
    requires st.proc.pc.Guard? ==> st.world.sites[st.proc.service].Running(st.proc.Inactive())
    ensures Step(st, i).proc.pc != Finished(false)
  {
    assert Following(st.world.sites[st.proc.service], st.proc) != Finished(false);
  }
}
