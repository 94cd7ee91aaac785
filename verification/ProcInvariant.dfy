/** What holds at each program counter of a command, whatever failed before. */
module ProcInvariant {
  import opened Common
  import opened Images
  import opened Protocol

  /** The inactive container is up and is the one the promoted SHA stands for. */
  predicate Promotable(v: Site, p: Proc) {
    && v.Running(p.Inactive())
    && TargetMatches(v.Slot(p.Inactive()).value.image, v, p)
  }

  predicate TargetMatches(image: string, v: Site, p: Proc) {
    if p.cmd.Rollback? then p.target == ShaOrUnknown(p.service, image) else image == v.Image(p.target)
  }

  /** The command has read the active color and has not yet written a new one. */
  predicate BeforeWrite(pc: Pc) {
    match pc
    case Validate => true
    case RemoveInactive => true
    case StartInactive => true
    case Health => true
    case RecordPreview => true
    case Guard => true
    case WriteActive => true
    case StopInactive => true
    case DropInactive => true
    case StartPrevious => true
    case PollHealth => true
    case _ => false
  }

  /** The new color is recorded and the old container has not been stopped. */
  predicate AfterWrite(pc: Pc) {
    match pc
    case WriteSha => true
    case ReadColors => true
    case Reload => true
    case StopOld => true
    case _ => false
  }

  /** The inactive container has been checked, or started and left running. */
  predicate Verified(pc: Pc) {
    match pc
    case Health => true
    case RecordPreview => true
    case Guard => true
    case WriteActive => true
    case PollHealth => true
    case _ => AfterWrite(pc)
  }

  /** Program counters that only some commands reach. */
  predicate OnItsPath(p: Proc) {
    && (p.pc.RecordPreview? ==> p.cmd.DeployPreview?)
    && (p.pc.StartPrevious? || p.pc.PollHealth? ==> p.cmd.Rollback?)
    && (p.pc.Validate? || p.pc.RemoveInactive? || p.pc.StartInactive? || p.pc.Health? || p.pc.Guard?
        ==> !p.cmd.Rollback?)
  }

  /** A pending preview fixes what a cutover without `--sha` promotes. */
  predicate KeepsToPreview(v: Site, p: Proc) {
    p.cmd == Cutover(None) && v.preview.Some? && (BeforeWrite(p.pc) || AfterWrite(p.pc))
    ==> p.target == v.preview.value.sha
  }

  predicate ProcInv(v: Site, p: Proc) {
    && OnItsPath(p)
    && KeepsToPreview(v, p)
    && (BeforeWrite(p.pc) ==> v.active == p.active)
    && (AfterWrite(p.pc) ==> v.active == p.Inactive())
    && (Verified(p.pc) ==> Promotable(v, p))
    && (p.pc.StartPrevious? ==>
          v.Slot(p.Inactive()).Some? && TargetMatches(v.Slot(p.Inactive()).value.image, v, p))
  }

  lemma DecideInv(v: Site, p: Proc, newest: Option<LocalImage>)
    requires p.pc.Inspect?
    ensures ProcInv(v, Decide(v, p, newest))
  {
  }

  /** What was decided on less than there is holds of all there is. */
  lemma SeenInv(v: Site, x: Sight, p: Proc)
    requires ProcInv(v.Seen(x), p)
    ensures ProcInv(v, p)
  {
    SeenIsThere(v, x, p.Inactive(), v.Image(p.target));
  }

  lemma DoneKeepsInvBeforeWrite(v: Site, p: Proc)
    requires ProcInv(v, p) && BeforeWrite(p.pc)
    requires p.pc.Guard? ==> v.Running(p.Inactive())
    ensures ProcInv(Done(v, p), p.Goto(Following(v, p)))
  {
  }

  lemma DoneKeepsInvAfterWrite(v: Site, p: Proc)
    requires ProcInv(v, p) && !BeforeWrite(p.pc)
    ensures ProcInv(Done(v, p), p.Goto(Following(v, p)))
  {
  }

  /** Every step keeps the invariant of its own command. */
  lemma MoveKeepsInv(v: Site, p: Proc, i: Input)
    requires ProcInv(v, p)
    ensures ProcInv(Touch(v, p, i.fate), Move(v, p, i))
  {
    if p.pc.Inspect? {
      DecideInv(v.Seen(i.sight), p, i.newest);
      SeenInv(v, i.sight, Move(v, p, i));
    } else if i.fate.Ok? && BeforeWrite(p.pc) {
      if p.pc.Guard? ==> v.Running(p.Inactive()) { DoneKeepsInvBeforeWrite(v, p); }
    } else if i.fate.Ok? {
      DoneKeepsInvAfterWrite(v, p);
    }
  }

  /** No step takes the active container down. */
  lemma TouchKeepsAvailable(v: Site, p: Proc, fate: Fate)
    requires ProcInv(v, p) && Available(v)
    ensures Available(Touch(v, p, fate))
  {
  }

  lemma MoveKeepsIdentity(v: Site, p: Proc, i: Input)
    ensures var q := Move(v, p, i);
            && q.service == p.service && q.cmd == p.cmd
            && (!p.pc.Acquire? ==> !q.pc.Acquire?)
  {
  }
}
