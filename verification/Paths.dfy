/** Which effects a command performs, in which order. */
module Paths {
  import opened Common
  import opened Images
  import opened Protocol
  import opened CommandResults
  import opened CommandTheorems

  const STARTING := [Validate, RemoveInactive, StartInactive, Health]
  const SWITCHING := [WriteActive, WriteSha, ReadColors, Reload, StopOld]
  const REAPPLYING := [ReadColorsAgain, ReloadAgain, Nginx]

  /** The other color was seen running this SHA's image. */
  predicate SeenWith(v: Site, x: Sight, sha: string) {
    Flip(v.active) !in x.unseen && v.Slot(Flip(v.active)) == Some(Container(ImageRef(v.template, sha), true))
  }

  predicate StoppedSeen(v: Site, x: Sight) {
    Flip(v.active) !in x.unseen && HasStopped(v)
  }

  function Promoting(seen: bool): seq<Pc> {
    (if seen then [] else STARTING) + ([Guard] + (SWITCHING + [Prune]))
  }

  /** Only a preview that was there needs the routes again. */
  function Forgetting(v: Site): seq<Pc> {
    [DeletePreview] + if v.preview.Some? then REAPPLYING else []
  }

  /** The effects of a command on the service, after its first look `i`; none if
      it is refused. */
  function Path(v: Site, cmd: Command, i: Input): Option<seq<Pc>> {
    match cmd
    case Deploy(sha) =>
      if v.sha == Some(sha) && v.Running(v.active) && Noticed(v, i) then Some([]) else Some(Promoting(false))
    case DeployPreview(_) => Some(STARTING + ([RecordPreview] + REAPPLYING))
    case Cutover(explicit) =>
      if NothingToPromote(v, explicit, i) then Some(Forgetting(v))
      else
        (match Choice(v, explicit, i)
         case None => None
         case Some(sha) => Some(Promoting(SeenWith(v, i.sight, sha)) + Forgetting(v)))
    case CancelPreview => Some([StopInactive, DropInactive, Prune] + Forgetting(v))
    case Rollback => if StoppedSeen(v, i.sight) then Some([StartPrevious, PollHealth] + SWITCHING) else None
    case ReloadRoutes => Some(REAPPLYING)
  }

  /** Where the path leads in the end, or has led after `n` effects. */
  function On(path: seq<Pc>, n: nat): Pc {
    if n < |path| then path[n] else Finished(true)
  }

  // ---------- One effect leads to the next ----------

  predicate Leads(v: Site, p: Proc, a: Pc, b: Pc) {
    Following(v, p.Goto(a)) == b
  }

  predicate Chained(v: Site, p: Proc, path: seq<Pc>) {
    forall k :: 0 <= k < |path| - 1 ==> Leads(v, p, path[k], path[k + 1])
  }

  lemma Joined(v: Site, p: Proc, a: seq<Pc>, b: seq<Pc>)
    requires Chained(v, p, a) && Chained(v, p, b)
    requires a != [] && b != [] ==> Leads(v, p, a[|a| - 1], b[0])
    ensures Chained(v, p, a + b)
  {
    var c := a + b;
    forall k | 0 <= k < |c| - 1 ensures Leads(v, p, c[k], c[k + 1]) {
      if k + 1 < |a| { assert c[k] == a[k] && c[k + 1] == a[k + 1]; }
      else if k >= |a| { assert c[k] == b[k - |a|] && c[k + 1] == b[k + 1 - |a|]; }
    }
  }

  lemma Parts(v: Site, p: Proc)
    ensures Chained(v, p, STARTING) && Chained(v, p, SWITCHING) && Chained(v, p, REAPPLYING)
  {
  }

  lemma PromotingChained(v: Site, p: Proc, seen: bool)
    requires p.cmd.Deploy? || p.cmd.Cutover?
    ensures Chained(v, p, Promoting(seen))
  {
    Parts(v, p);
    Joined(v, p, SWITCHING, [Prune]);
    Joined(v, p, [Guard], SWITCHING + [Prune]);
    Joined(v, p, if seen then [] else STARTING, [Guard] + (SWITCHING + [Prune]));
  }

  lemma ForgettingChained(v: Site, p: Proc)
    ensures Chained(v, p, Forgetting(v)) && Forgetting(v)[0] == DeletePreview
  {
    Parts(v, p);
    Joined(v, p, [DeletePreview], if v.preview.Some? then REAPPLYING else []);
  }

  lemma CutoverChained(v: Site, p: Proc, seen: bool)
    requires p.cmd.Cutover?
    ensures Chained(v, p, Promoting(seen) + Forgetting(v))
  {
    PromotingChained(v, p, seen);
    ForgettingChained(v, p);
    Joined(v, p, Promoting(seen), Forgetting(v));
  }

  lemma CancelChained(v: Site, p: Proc)
    requires p.cmd.CancelPreview?
    ensures Chained(v, p, [StopInactive, DropInactive, Prune] + Forgetting(v))
  {
    ForgettingChained(v, p);
    Joined(v, p, [StopInactive, DropInactive, Prune], Forgetting(v));
  }

  lemma PreviewChained(v: Site, p: Proc)
    requires p.cmd.DeployPreview?
    ensures Chained(v, p, STARTING + ([RecordPreview] + REAPPLYING))
  {
    Parts(v, p);
    Joined(v, p, [RecordPreview], REAPPLYING);
    Joined(v, p, STARTING, [RecordPreview] + REAPPLYING);
  }

  lemma PathChained(v: Site, p: Proc, i: Input)
    requires Path(v, p.cmd, i).Some? && !p.cmd.ReloadRoutes?
    ensures Chained(v, p, Path(v, p.cmd, i).value)
  {
    Parts(v, p);
    match p.cmd
    case Deploy(_) => PromotingChained(v, p, false);
    case DeployPreview(_) => PreviewChained(v, p);
    case Cutover(explicit) =>
      ForgettingChained(v, p);
      CutoverChained(v, p, true);
      CutoverChained(v, p, false);
    case CancelPreview => CancelChained(v, p);
    case Rollback => Joined(v, p, [StartPrevious, PollHealth], SWITCHING);
  }

  /** The last effect of the path ends the command. */
  lemma PathEnds(v: Site, p: Proc, i: Input)
    requires Path(v, p.cmd, i).Some? && !p.cmd.ReloadRoutes? && Path(v, p.cmd, i).value != []
    ensures var path := Path(v, p.cmd, i).value;
            Leads(v, p, path[|path| - 1], Finished(true))
  {
    var path := Path(v, p.cmd, i).value;
    var last := path[|path| - 1];
    assert last == match p.cmd
                   case Deploy(_) => Prune
                   case DeployPreview(_) => Nginx
                   case Rollback => StopOld
                   case _ => if v.preview.Some? then Nginx else DeletePreview;
  }

  lemma OneOn(v: Site, p: Proc, i: Input, n: nat)
    requires Path(v, p.cmd, i).Some? && !p.cmd.ReloadRoutes? && n < |Path(v, p.cmd, i).value|
    ensures var path := Path(v, p.cmd, i).value;
            Leads(v, p, path[n], On(path, n + 1))
  {
    PathChained(v, p, i);
    PathEnds(v, p, i);
  }

  predicate Effect(pc: Pc) { !pc.Finished? && !pc.Inspect? && !pc.Acquire? }

  predicate AllEffects(path: seq<Pc>) {
    forall k :: 0 <= k < |path| ==> Effect(path[k])
  }

  lemma PathHasEffects(v: Site, cmd: Command, i: Input)
    requires Path(v, cmd, i).Some?
    ensures AllEffects(Path(v, cmd, i).value)
  {
    assert AllEffects(STARTING) && AllEffects(SWITCHING) && AllEffects(REAPPLYING);
    assert AllEffects(Forgetting(v)) && AllEffects(Promoting(true)) && AllEffects(Promoting(false));
  }

  // ---------- Runs ----------

  /** The first look decides which path it is. */
  lemma FirstOn(w: World, s: Service, cmd: Command, i: Input)
    requires s in w.sites && !cmd.ReloadRoutes?
    ensures var q, path := Step(State(w, Begin(cmd, s)), i).proc, Path(w.sites[s], cmd, i);
            q.pc == Finished(false) || (path.Some? && q.pc == On(path.value, 0))
  {
    var v := w.sites[s];
    SeenIsThere(v, i.sight, v.active, "");
    SeenIsThere(v, i.sight, Flip(v.active), "");
    if i.fate.Ok? { DecidedOn(v, Begin(cmd, s), i); }
  }

  lemma DecidedOn(v: Site, p: Proc, i: Input)
    requires p.pc.Inspect? && !p.cmd.ReloadRoutes?
    ensures var q, path := Decide(v.Seen(i.sight), p, i.newest), Path(v, p.cmd, i);
            if path.None? then q.pc == Finished(false) else q.pc == On(path.value, 0)
  {
    PromotingFirst(true);
    PromotingFirst(false);
    if p.cmd.Cutover? { CutoverOn(v, p, i); }
  }

  lemma CutoverOn(v: Site, p: Proc, i: Input)
    requires p.pc.Inspect? && p.cmd.Cutover?
    ensures var q, path := Decide(v.Seen(i.sight), p, i.newest), Path(v, p.cmd, i);
            if path.None? then q.pc == Finished(false) else q.pc == On(path.value, 0)
  {
    PromotingFirst(true);
    PromotingFirst(false);
  }

  lemma PromotingFirst(seen: bool)
    ensures Promoting(seen) != [] && Promoting(seen)[0] == if seen then Guard else Validate
  {
  }

  /** The record of a preview is what it was until it is deleted. */
  lemma PreviewThere(w: World, s: Service, cmd: Command, st: State)
    requires Standing(w, s, cmd, st) && st.proc.pc.DeletePreview?
    ensures st.world.sites[s].preview == w.sites[s].preview
  {
  }

  lemma NextOn(w: World, s: Service, cmd: Command, st: State, i: Input, first: Input, n: nat)
    requires Standing(w, s, cmd, st) && !st.proc.pc.Finished? && !st.proc.pc.Inspect?
    requires var path := Path(w.sites[s], cmd, first);
             path.Some? && n < |path.value| && st.proc.pc == path.value[n]
    ensures var q, path := Step(st, i).proc, Path(w.sites[s], cmd, first).value;
            q.pc == Finished(false) || q.pc == On(path, n + 1)
  {
    var v0, v, p := w.sites[s], st.world.sites[s], st.proc;
    OneOn(v0, p, first, n);
    assert p.Goto(p.pc) == p;
    if p.pc.DeletePreview? { PreviewThere(w, s, cmd, st); }
    assert Following(v, p) == Following(v0, p);
  }

  /** Every run of a command keeps to its path, from any state: after `n` effects
      it stands where the path does, or it has failed. */
  lemma {:induction false} RunKeepsToPath(w: World, s: Service, cmd: Command, inputs: seq<Input>)
    requires s in w.sites && !cmd.ReloadRoutes? && inputs != []
    ensures var p, path := Run(State(w, Begin(cmd, s)), inputs).proc, Path(w.sites[s], cmd, inputs[0]);
            p.pc == Finished(false) || (path.Some? && p.pc == On(path.value, |inputs| - 1))
    decreases |inputs|
  {
    var before, i := inputs[..|inputs| - 1], inputs[|inputs| - 1];
    var st := Run(State(w, Begin(cmd, s)), before);
    if before == [] {
      FirstOn(w, s, cmd, i);
    } else {
      RunKeepsToPath(w, s, cmd, before);
      RunStands(w, s, cmd, before);
      if Path(w.sites[s], cmd, inputs[0]).Some? { PathHasEffects(w.sites[s], cmd, inputs[0]); }
      if st.proc.pc.Finished? {
        FinishedStays(st, i);
      } else {
        NextOn(w, s, cmd, st, i, inputs[0], |before| - 1);
      }
    }
  }

  /** One of the three effects failed. */
  predicate FailsEarly(inputs: seq<Input>) {
    exists k :: 0 <= k < |inputs| && k < 3 && inputs[k].fate.Failed?
  }

  lemma FailsNext(inputs: seq<Input>, n: nat)
    requires |inputs| == n + 1
    ensures FailsEarly(inputs) <==> FailsEarly(inputs[..n]) || (n < 3 && inputs[n].fate.Failed?)
  {
    assert forall k :: 0 <= k < n ==> inputs[..n][k] == inputs[k];
  }

  lemma ReloadStep(st: State, i: Input, n: nat)
    requires st.proc.cmd.ReloadRoutes? && st.proc.pc == On(REAPPLYING, n)
    ensures Step(st, i).proc.pc == if n < 3 && i.fate.Failed? then Finished(false) else On(REAPPLYING, n + 1)
  {
  }

  /** `reload-routes` takes no first look: it reads, loads and reloads Nginx, up to
      the first effect that fails. */
  lemma {:induction false} ReloadKeepsToPath(w: World, s: Service, inputs: seq<Input>)
    ensures var p := Run(State(w, Begin(ReloadRoutes, s)), inputs).proc;
            && p.cmd.ReloadRoutes?
            && p.pc == if FailsEarly(inputs) then Finished(false) else On([ReadColorsAgain, ReloadAgain, Nginx], |inputs|)
    decreases |inputs|
  {
    if inputs != [] {
      var n := |inputs| - 1;
      var st := Run(State(w, Begin(ReloadRoutes, s)), inputs[..n]);
      ReloadKeepsToPath(w, s, inputs[..n]);
      FailsNext(inputs, n);
      if st.proc.pc != Finished(false) { ReloadStep(st, inputs[n], n); }
    }
  }
}
