/** Any number of commands on any services, interleaved step by step, started,
    failing and killed at any point, with one exclusive deploy lock per service. */
module Interleaving {
  import opened Common
  import opened Images
  import opened Protocol
  import opened ProcInvariant

  type Pid = nat

  datatype Sys = Sys(world: World, procs: map<Pid, Proc>, locks: map<Service, Pid>)

  datatype Action =
    | Launch(pid: Pid, cmd: Command, service: Service)
    | Advance(pid: Pid, input: Input)
    | Kill(pid: Pid)

  /** Every command but `reload-routes` starts by asking for its service's lock. */
  function Launched(cmd: Command, s: Service): Proc {
    if cmd.ReloadRoutes? then Begin(cmd, s) else Begin(cmd, s).Goto(Acquire)
  }

  /** The process ends, and with it the lock it held. */
  function Exit(sys: Sys, pid: Pid): Sys {
    Sys(sys.world, sys.procs - {pid}, map s | s in sys.locks && sys.locks[s] != pid :: sys.locks[s])
  }

  /** The lock is never waited for: a command that finds it taken ends. */
  function TryAcquire(sys: Sys, pid: Pid, p: Proc, fate: Fate): Sys {
    if fate.Failed? || p.service in sys.locks then Exit(sys, pid)
    else Sys(sys.world, sys.procs[pid := p.Goto(Inspect)], sys.locks[p.service := pid])
  }

  function StepProc(sys: Sys, pid: Pid, p: Proc, i: Input): Sys {
    var st := Step(State(sys.world, p), i);
    Sys(st.world, sys.procs[pid := st.proc], sys.locks)
  }

  function Next(sys: Sys, a: Action): Sys {
    match a
    case Launch(pid, cmd, s) =>
      if pid in sys.procs then sys else sys.(procs := sys.procs[pid := Launched(cmd, s)])
    case Kill(pid) => if pid in sys.procs then Exit(sys, pid) else sys
    case Advance(pid, i) =>
      if pid !in sys.procs then sys
      else
        var p := sys.procs[pid];
        if p.pc.Acquire? then TryAcquire(sys, pid, p, i.fate)
        else if p.pc.Finished? then Exit(sys, pid)
        else StepProc(sys, pid, p, i)
  }

  /** The system after a whole schedule; its prefixes are the points on the way. */
  function Exec(sys: Sys, actions: seq<Action>): Sys
    decreases |actions|
  {
    if actions == [] then sys
    else Next(Exec(sys, actions[..|actions| - 1]), actions[|actions| - 1])
  }

  predicate Idle(sys: Sys) {
    sys.procs == map[] && sys.locks == map[]
  }

  /** The process is past its lock. */
  predicate Holding(p: Proc) {
    !p.pc.Acquire? && !p.cmd.ReloadRoutes?
  }

  /** A process past its lock owns it, and its own invariant holds. */
  predicate OwnInv(sys: Sys, pid: Pid)
    requires pid in sys.procs
  {
    var p := sys.procs[pid];
    Holding(p) ==>
      && p.service in sys.locks && sys.locks[p.service] == pid
      && (p.service in sys.world.sites ==> ProcInv(sys.world.sites[p.service], p))
  }

  ghost predicate SysInv(sys: Sys) {
    forall pid :: pid in sys.procs ==> OwnInv(sys, pid)
  }

  // ---------- One step ----------

  /** A process of the service, past its lock, is the one that moves. */
  predicate Moves(sys: Sys, a: Action, s: Service) {
    && a.Advance? && a.pid in sys.procs
    && Holding(sys.procs[a.pid]) && !sys.procs[a.pid].pc.Finished?
    && sys.procs[a.pid].service == s
  }

  /** A step changes no service but its own, and no service appears or vanishes. */
  lemma NextFrame(sys: Sys, a: Action, t: Service)
    ensures t in sys.world.sites <==> t in Next(sys, a).world.sites
    ensures t in sys.world.sites && !Moves(sys, a, t) ==>
              Next(sys, a).world.sites[t] == sys.world.sites[t]
  {
  }

  /** The mover's service and program counter change as the single-service machine says. */
  lemma NextMover(sys: Sys, a: Action, s: Service)
    requires Moves(sys, a, s) && s in sys.world.sites
    ensures var p := sys.procs[a.pid];
            var v := sys.world.sites[s];
            && Next(sys, a).world.sites[s] == Touch(v, p, a.input.fate)
            && a.pid in Next(sys, a).procs
            && Next(sys, a).procs[a.pid].(snapshot := p.snapshot, blind := p.blind) == Move(v, p, a.input)
  {
  }

  /** Two processes past the lock of one service are one process. */
  lemma Exclusive(sys: Sys, a: Pid, b: Pid)
    requires SysInv(sys) && a in sys.procs && b in sys.procs
    requires Holding(sys.procs[a]) && Holding(sys.procs[b])
    requires sys.procs[a].service == sys.procs[b].service
    ensures a == b
  {
    assert OwnInv(sys, a) && OwnInv(sys, b);
  }

  lemma SnapshotIrrelevant(v: Site, p: Proc, snapshot: map<Service, Color>, blind: set<Service>)
    ensures ProcInv(v, p.(snapshot := snapshot, blind := blind)) == ProcInv(v, p)
  {
  }

  lemma MoverKeepsInv(sys: Sys, a: Action, s: Service)
    requires SysInv(sys) && Moves(sys, a, s)
    ensures OwnInv(Next(sys, a), a.pid)
  {
    assert OwnInv(sys, a.pid);
    if s in sys.world.sites {
      var p, v := sys.procs[a.pid], sys.world.sites[s];
      NextMover(sys, a, s);
      MoveKeepsInv(v, p, a.input);
      SnapshotIrrelevant(Touch(v, p, a.input.fate), Next(sys, a).procs[a.pid], p.snapshot, p.blind);
    }
  }

  lemma OtherKeepsInv(sys: Sys, a: Action, pid: Pid)
    requires SysInv(sys) && pid in sys.procs && pid in Next(sys, a).procs
    requires a.Advance? ==> a.pid != pid
    ensures OwnInv(Next(sys, a), pid)
  {
    var p := sys.procs[pid];
    assert OwnInv(sys, pid);
    if Holding(p) {
      NextFrame(sys, a, p.service);
      if Moves(sys, a, p.service) { Exclusive(sys, a.pid, pid); }
    }
  }

  /** Every action keeps the invariant of the whole system. */
  lemma NextKeepsInv(sys: Sys, a: Action)
    requires SysInv(sys)
    ensures SysInv(Next(sys, a))
  {
    var sys' := Next(sys, a);
    forall pid | pid in sys'.procs ensures OwnInv(sys', pid) {
      if a.Advance? && a.pid == pid {
        if Moves(sys, a, sys.procs[pid].service) { MoverKeepsInv(sys, a, sys.procs[pid].service); }
      } else if pid in sys.procs {
        OtherKeepsInv(sys, a, pid);
      }
    }
  }

  lemma {:induction false} ExecKeepsInv(sys: Sys, actions: seq<Action>)
    requires SysInv(sys)
    ensures SysInv(Exec(sys, actions))
    decreases |actions|
  {
    if actions != [] {
      var before := actions[..|actions| - 1];
      ExecKeepsInv(sys, before);
      NextKeepsInv(Exec(sys, before), actions[|actions| - 1]);
    }
  }

  // ---------- Availability ----------

  lemma NextKeepsAvailable(sys: Sys, a: Action, s: Service)
    requires SysInv(sys) && s in sys.world.sites && Available(sys.world.sites[s])
    ensures s in Next(sys, a).world.sites && Available(Next(sys, a).world.sites[s])
  {
    NextFrame(sys, a, s);
    if Moves(sys, a, s) {
      assert OwnInv(sys, a.pid);
      NextMover(sys, a, s);
      TouchKeepsAvailable(sys.world.sites[s], sys.procs[a.pid], a.input.fate);
    }
  }

  /** Whatever commands run on whatever services, in whatever order, with
      whatever failing or being killed: a service whose active container is up
      when nothing runs has its active container up after every step. */
  lemma {:induction false} AvailabilityAlways(sys: Sys, actions: seq<Action>, s: Service)
    requires Idle(sys) && s in sys.world.sites && Available(sys.world.sites[s])
    ensures s in Exec(sys, actions).world.sites && Available(Exec(sys, actions).world.sites[s])
    decreases |actions|
  {
    if actions != [] {
      var before := actions[..|actions| - 1];
      AvailabilityAlways(sys, before, s);
      ExecKeepsInv(sys, before);
      NextKeepsAvailable(Exec(sys, before), actions[|actions| - 1], s);
    }
  }

  /** Whenever a command is about to record a new color, the container of that
      color is up and, for a deploy or cutover, runs exactly the image of the SHA
      that is recorded next; a pending preview is the only thing a cutover
      without `--sha` promotes. */
  lemma PromotionVerified(sys: Sys, actions: seq<Action>, pid: Pid)
    requires Idle(sys) && pid in Exec(sys, actions).procs
    ensures var now := Exec(sys, actions);
            var p := now.procs[pid];
            p.pc.WriteActive? && Holding(p) && p.service in now.world.sites ==>
              var v := now.world.sites[p.service];
              && v.active == p.active
              && v.Running(p.Inactive())
              && (!p.cmd.Rollback? ==> v.RunsImage(p.Inactive(), v.Image(p.target)))
              && (p.cmd == Cutover(None) && v.preview.Some? ==> p.target == v.preview.value.sha)
  {
    ExecKeepsInv(sys, actions);
    assert OwnInv(Exec(sys, actions), pid);
  }

  /** At no time are two commands past the lock of the same service. */
  lemma MutualExclusion(sys: Sys, actions: seq<Action>, a: Pid, b: Pid)
    requires Idle(sys)
    requires a in Exec(sys, actions).procs && b in Exec(sys, actions).procs
    requires Holding(Exec(sys, actions).procs[a]) && Holding(Exec(sys, actions).procs[b])
    requires Exec(sys, actions).procs[a].service == Exec(sys, actions).procs[b].service
    ensures a == b
  {
    ExecKeepsInv(sys, actions);
    Exclusive(Exec(sys, actions), a, b);
  }

  // ---------- Locks ----------

  /** A lock that is taken is held by a process that runs. */
  ghost predicate LocksLive(sys: Sys) {
    forall t <- sys.locks :: sys.locks[t] in sys.procs
  }

  lemma NextKeepsLocksLive(sys: Sys, a: Action)
    requires LocksLive(sys)
    ensures LocksLive(Next(sys, a))
  {
  }

  /** The process is the one that has the lock of the service, past it. */
  predicate Owner(sys: Sys, t: Service)
    requires t in sys.locks
  {
    sys.locks[t] in sys.procs && Holding(sys.procs[sys.locks[t]]) && sys.procs[sys.locks[t]].service == t
  }

  /** Every lock has its owner, and only commands with a service ask for one. */
  ghost predicate LocksOwned(sys: Sys) {
    && (forall t <- sys.locks :: Owner(sys, t))
    && (forall pid <- sys.procs :: sys.procs[pid].pc.Acquire? ==> !sys.procs[pid].cmd.ReloadRoutes?)
  }

  lemma StepKeepsIdentity(st: State, i: Input)
    requires !st.proc.pc.Acquire?
    ensures var q := Step(st, i).proc;
            q.cmd == st.proc.cmd && q.service == st.proc.service && !q.pc.Acquire?
  {
    if !st.proc.cmd.ReloadRoutes? && st.proc.service in st.world.sites {
      MoveKeepsIdentity(st.world.sites[st.proc.service], st.proc, i);
    }
  }

  lemma NextKeepsLocksOwned(sys: Sys, a: Action)
    requires LocksOwned(sys)
    ensures LocksOwned(Next(sys, a))
  {
    if a.Advance? && a.pid in sys.procs && !sys.procs[a.pid].pc.Acquire? {
      StepKeepsIdentity(State(sys.world, sys.procs[a.pid]), a.input);
    }
  }

  lemma {:induction false} ExecKeepsLocksOwned(sys: Sys, actions: seq<Action>)
    requires LocksOwned(sys)
    ensures LocksOwned(Exec(sys, actions))
    decreases |actions|
  {
    if actions != [] {
      var before := actions[..|actions| - 1];
      ExecKeepsLocksOwned(sys, before);
      NextKeepsLocksOwned(Exec(sys, before), actions[|actions| - 1]);
    }
  }

  /** Some command of the service is past its lock. */
  predicate Busy(sys: Sys, s: Service) {
    exists pid <- sys.procs :: Holding(sys.procs[pid]) && sys.procs[pid].service == s
  }

  /** Over every run: a lock is taken exactly while some command of its service is
      past it, so commands that end or are killed free it, and a command that asks
      for the lock goes on if and only if there is no such command. */
  lemma LockGrantedIff(sys: Sys, actions: seq<Action>, pid: Pid, i: Input)
    requires Idle(sys)
    ensures forall s :: s in Exec(sys, actions).locks <==> Busy(Exec(sys, actions), s)
    ensures var now := Exec(sys, actions);
            pid in now.procs && now.procs[pid].pc.Acquire? ==>
              var s, next := now.procs[pid].service, Next(now, Advance(pid, i));
              && (pid in next.procs <==> i.fate.Ok? && !Busy(now, s))
              && (pid in next.procs ==> next.procs[pid].pc.Inspect? && s in next.locks && next.locks[s] == pid)
    ensures pid !in Next(Exec(sys, actions), Kill(pid)).procs
  {
    var now := Exec(sys, actions);
    ExecKeepsInv(sys, actions);
    ExecKeepsLocksOwned(sys, actions);
    forall s ensures s in now.locks <==> Busy(now, s) {
      if Busy(now, s) {
        var q :| q in now.procs && Holding(now.procs[q]) && now.procs[q].service == s;
        assert OwnInv(now, q);
      }
      if s in now.locks { assert Owner(now, s); }
    }
  }
}
