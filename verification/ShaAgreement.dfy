/** The recorded SHA and the image behind it, over every interleaved run. */
module ShaAgreement {
  import opened Common
  import opened Images
  import opened Protocol
  import opened ProcInvariant
  import opened Interleaving

  /** The definition uses the registry template, and so do the containers made from it. */
  predicate Registered(v: Site, s: Service) {
    && '{' !in s
    && v.template == RegistryTemplate(s)
    && Tagged(v.blue, s) && Tagged(v.green, s)
  }

  predicate Tagged(slot: Option<Container>, s: Service) {
    slot.Some? ==> TagPrefix(s) <= slot.value.image
  }

  /** No failure falls between the two state writes: the color file is replaced
      or left alone, and the SHA write that follows goes through. */
  predicate CleanFate(pc: Pc, fate: Fate) {
    && (pc.WriteActive? ==> fate.Ok? || fate == Failed(Untouched))
    && (pc.WriteSha? ==> fate.Ok?)
  }

  /** The image is one the container had before or the one the command starts. */
  predicate KnownImage(v: Site, v': Site, p: Proc, c: Color) {
    && v'.template == v.template
    && (v'.Slot(c).Some? ==>
          || v'.Slot(c).value.image == v.Image(p.target)
          || (v.Slot(c).Some? && v'.Slot(c).value.image == v.Slot(c).value.image))
  }

  lemma DoneImages(v: Site, p: Proc, c: Color)
    ensures KnownImage(v, Done(v, p), p, c)
  {
  }

  lemma TouchImages(v: Site, p: Proc, fate: Fate, c: Color)
    ensures KnownImage(v, Touch(v, p, fate), p, c)
  {
    DoneImages(v, p, c);
    assert KnownImage(v, HalfDone(v, p), p, c);
    assert KnownImage(v, FailedLate(v, p), p, c);
  }

  lemma TouchKeepsRegistered(v: Site, p: Proc, fate: Fate)
    requires Registered(v, p.service)
    ensures Registered(Touch(v, p, fate), p.service)
  {
    assert Tagged(Some(Container(v.Image(p.target), true)), p.service) by {
      RegistryImage(p.service, p.target);
      assert TagPrefix(p.service) <= TagPrefix(p.service) + p.target;
    }
    TouchImages(v, p, fate, Blue);
    TouchImages(v, p, fate, Green);
  }

  /** The promoted container's image is the image of the SHA about to be recorded. */
  lemma PromotableNamesImage(v: Site, p: Proc)
    requires Registered(v, p.service) && Promotable(v, p)
    ensures v.Slot(p.Inactive()).value.image == v.Image(p.target)
  {
    if p.cmd.Rollback? { ShaNamesImage(p.service, v.Slot(p.Inactive()).value.image); }
  }

  lemma TouchKeepsAgreement(v: Site, p: Proc, i: Input)
    requires ProcInv(v, p) && CleanFate(p.pc, i.fate)
    requires if p.pc.WriteSha? then v.Slot(p.Inactive()).value.image == v.Image(p.target) else Agrees(v)
    ensures Move(v, p, i).pc.WriteSha? || Agrees(Touch(v, p, i.fate))
  {
  }

  // ---------- Runs ----------

  /** Some command on the service stands between its two state writes. */
  predicate Between(sys: Sys, pid: Pid, s: Service) {
    pid in sys.procs && Holding(sys.procs[pid]) && sys.procs[pid].service == s && sys.procs[pid].pc.WriteSha?
  }

  predicate Clean(sys: Sys, a: Action, s: Service) {
    match a
    case Launch(_, _, _) => true
    case Advance(pid, i) => Moves(sys, a, s) ==> CleanFate(sys.procs[pid].pc, i.fate)
    case Kill(pid) => !Between(sys, pid, s)
  }

  ghost predicate CleanRun(sys: Sys, actions: seq<Action>, s: Service) {
    forall k :: 0 <= k < |actions| ==> Clean(Exec(sys, actions[..k]), actions[k], s)
  }

  predicate StartsRollback(a: Action, s: Service) {
    a.Launch? && a.cmd.Rollback? && a.service == s
  }

  /** A rollback reads the SHA off a tag, so rollbacks are for registry images. */
  ghost predicate Readable(sys: Sys, s: Service, rollbacks: bool)
    requires s in sys.world.sites
  {
    if rollbacks then Registered(sys.world.sites[s], s)
    else forall pid <- sys.procs :: !(sys.procs[pid].cmd.Rollback? && sys.procs[pid].service == s)
  }

  ghost predicate Agreeing(sys: Sys, s: Service, rollbacks: bool) {
    && s in sys.world.sites
    && Readable(sys, s, rollbacks)
    && (Agrees(sys.world.sites[s]) || exists pid :: Between(sys, pid, s))
  }

  lemma StepKeepsCommand(st: State, i: Input)
    ensures Step(st, i).proc.cmd == st.proc.cmd && Step(st, i).proc.service == st.proc.service
  {
  }

  lemma NextKeepsReadable(sys: Sys, a: Action, s: Service, rollbacks: bool)
    requires s in sys.world.sites && Readable(sys, s, rollbacks)
    requires rollbacks || !StartsRollback(a, s)
    ensures s in Next(sys, a).world.sites && Readable(Next(sys, a), s, rollbacks)
  {
    NextFrame(sys, a, s);
    if rollbacks {
      if Moves(sys, a, s) {
        NextMover(sys, a, s);
        TouchKeepsRegistered(sys.world.sites[s], sys.procs[a.pid], a.input.fate);
      }
    } else if a.Advance? && a.pid in sys.procs {
      StepKeepsCommand(State(sys.world, sys.procs[a.pid]), a.input);
    }
  }

  /** A step of the service's own command. */
  lemma MoverKeepsAgreement(sys: Sys, a: Action, s: Service, rollbacks: bool)
    requires SysInv(sys) && Agreeing(sys, s, rollbacks) && Clean(sys, a, s) && Moves(sys, a, s)
    ensures Agreeing(Next(sys, a), s, rollbacks)
  {
    var v, p, pid := sys.world.sites[s], sys.procs[a.pid], a.pid;
    assert OwnInv(sys, pid);
    NextMover(sys, a, s);
    NextKeepsReadable(sys, a, s, rollbacks);
    if !Agrees(v) {
      var other :| Between(sys, other, s);
      Exclusive(sys, pid, other);
    }
    if p.pc.WriteSha? && p.cmd.Rollback? { PromotableNamesImage(v, p); }
    TouchKeepsAgreement(v, p, a.input);
    if Move(v, p, a.input).pc.WriteSha? { assert Between(Next(sys, a), pid, s); }
  }

  /** A step of anything else. */
  lemma OthersKeepAgreement(sys: Sys, a: Action, s: Service, rollbacks: bool)
    requires SysInv(sys) && Agreeing(sys, s, rollbacks) && Clean(sys, a, s) && !Moves(sys, a, s)
    requires rollbacks || !StartsRollback(a, s)
    ensures Agreeing(Next(sys, a), s, rollbacks)
  {
    NextFrame(sys, a, s);
    NextKeepsReadable(sys, a, s, rollbacks);
    if !Agrees(sys.world.sites[s]) {
      var pid :| Between(sys, pid, s);
      assert Between(Next(sys, a), pid, s);
    }
  }

  lemma CleanPrefix(sys: Sys, actions: seq<Action>, s: Service)
    requires actions != [] && CleanRun(sys, actions, s)
    ensures CleanRun(sys, actions[..|actions| - 1], s)
    ensures Clean(Exec(sys, actions[..|actions| - 1]), actions[|actions| - 1], s)
  {
    var n := |actions| - 1;
    var before := actions[..n];
    forall k | 0 <= k < n ensures Clean(Exec(sys, before[..k]), before[k], s) {
      assert before[..k] == actions[..k];
    }
  }

  lemma {:induction false} ExecKeepsAgreement(sys: Sys, actions: seq<Action>, s: Service, rollbacks: bool)
    requires SysInv(sys) && Agreeing(sys, s, rollbacks) && CleanRun(sys, actions, s)
    requires rollbacks || forall a <- actions :: !StartsRollback(a, s)
    ensures Agreeing(Exec(sys, actions), s, rollbacks)
    decreases |actions|
  {
    if actions != [] {
      var before, last := actions[..|actions| - 1], actions[|actions| - 1];
      CleanPrefix(sys, actions, s);
      ExecKeepsAgreement(sys, before, s, rollbacks);
      ExecKeepsInv(sys, before);
      var now := Exec(sys, before);
      if Moves(now, last, s) { MoverKeepsAgreement(now, last, s, rollbacks); }
      else { OthersKeepAgreement(now, last, s, rollbacks); }
    }
  }

  /** In every run without a failure between the two state writes, on registry
      images or without rollbacks: whenever no command holds the service's lock,
      the recorded SHA names the image of the active container, and a deploy that
      is skipped for that SHA is right to be, for its image is the one that is live. */
  lemma ShaNamesLiveImage(sys: Sys, actions: seq<Action>, s: Service, sha: string)
    requires Idle(sys) && s in sys.world.sites && Agrees(sys.world.sites[s])
    requires Registered(sys.world.sites[s], s) || forall a <- actions :: !StartsRollback(a, s)
    requires CleanRun(sys, actions, s)
    ensures var now := Exec(sys, actions);
            s in now.world.sites &&
            (s !in now.locks ==>
               var v := now.world.sites[s];
               Agrees(v) && (NoOp(v, sha) ==> v.RunsImage(v.active, v.Image(sha))))
  {
    ExecKeepsAgreement(sys, actions, s, Registered(sys.world.sites[s], s));
    ExecKeepsInv(sys, actions);
    var now := Exec(sys, actions);
    forall pid | Between(now, pid, s) ensures s in now.locks { assert OwnInv(now, pid); }
  }

  /** A rollback records a SHA that names the revived image if and only if that
      is what the tag says; on a fixed upstream tag it does not. */
  lemma RollbackAgrees(v: Site, p: Proc)
    requires ProcInv(v, p) && p.pc.WriteSha? && p.cmd.Rollback? && p.target != ""
    ensures Agrees(Touch(v, p, Ok))
       <==> v.Image(ShaOrUnknown(p.service, v.Slot(v.active).value.image)) == v.Slot(v.active).value.image
  {
  }

  /** The hypothesis is needed: when the SHA write fails after the color was
      written, a deploy of the recorded SHA is skipped, and its image is live if
      and only if the two SHAs stand for the same image. */
  lemma LostShaWriteMisleads(v: Site, p: Proc, stale: string)
    requires ProcInv(v, p) && p.pc.WriteSha? && !p.cmd.Rollback? && v.sha == Some(stale)
    ensures var v' := Touch(v, p, Failed(Untouched));
            && NoOp(v', stale)
            && (v'.RunsImage(v'.active, v'.Image(stale)) <==> v.Image(stale) == v.Image(p.target))
            && (Agrees(v') <==> v.Image(stale) == v.Image(p.target))
  {
  }
}
