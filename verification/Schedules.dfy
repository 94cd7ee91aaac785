/** Schedules that keep to a rule, built one action at a time. */
module Schedules {
  import opened Common
  import opened Protocol
  import opened Interleaving

  /** Which action a rule allows in which state. */
  type Rule = (Sys, Action) -> bool

  /** Every action of the schedule is allowed where it happens. */
  ghost predicate Follows(sys: Sys, actions: seq<Action>, rule: Rule) {
    forall k :: 0 <= k < |actions| ==> rule(Exec(sys, actions[..k]), actions[k])
  }

  ghost predicate Link(x: Sys, y: Sys, rule: Rule) {
    exists a :: rule(x, a) && Next(x, a) == y
  }

  ghost predicate Linked(trace: seq<Sys>, k: nat, rule: Rule)
    requires k + 1 < |trace|
  {
    Link(trace[k], trace[k + 1], rule)
  }

  ghost predicate IsTrace(trace: seq<Sys>, rule: Rule) {
    trace != [] && forall k: nat {:trigger Linked(trace, k, rule)} :: k + 1 < |trace| ==> Linked(trace, k, rule)
  }

  /** Some schedule that keeps to the rule leads from one system to the other. */
  ghost predicate Leads(sys: Sys, end: Sys, rule: Rule) {
    exists trace :: IsTrace(trace, rule) && trace[0] == sys && trace[|trace| - 1] == end
  }

  lemma LeadsHere(sys: Sys, rule: Rule)
    ensures Leads(sys, sys, rule)
  {
    assert IsTrace([sys], rule);
  }

  lemma LeadsOn(sys: Sys, mid: Sys, a: Action, end: Sys, rule: Rule)
    requires Leads(sys, mid, rule) && rule(mid, a) && end == Next(mid, a)
    ensures Leads(sys, end, rule)
  {
    var trace :| IsTrace(trace, rule) && trace[0] == sys && trace[|trace| - 1] == mid;
    var more := trace + [end];
    forall k: nat | k + 1 < |more| ensures Linked(more, k, rule) {
      if k + 1 < |trace| { assert Linked(trace, k, rule); } else { assert Link(mid, end, rule); }
    }
    assert IsTrace(more, rule);
  }

  lemma FollowsOn(sys: Sys, actions: seq<Action>, a: Action, mid: Sys, end: Sys, rule: Rule)
    requires Follows(sys, actions, rule) && Exec(sys, actions) == mid && rule(mid, a) && Next(mid, a) == end
    ensures Follows(sys, actions + [a], rule) && Exec(sys, actions + [a]) == end
  {
    var more := actions + [a];
    assert more[..|actions|] == actions;
    forall k | 0 <= k < |more| ensures rule(Exec(sys, more[..k]), more[k]) {
      if k < |actions| { assert more[..k] == actions[..k]; }
    }
  }

  lemma {:induction false} TraceSchedule(trace: seq<Sys>, k: nat, rule: Rule) returns (actions: seq<Action>)
    requires IsTrace(trace, rule) && k < |trace|
    ensures Follows(trace[0], actions, rule) && Exec(trace[0], actions) == trace[k]
  {
    actions := [];
    if k > 0 {
      var before := TraceSchedule(trace, k - 1, rule);
      assert Linked(trace, k - 1, rule);
      var a :| rule(trace[k - 1], a) && Next(trace[k - 1], a) == trace[k];
      FollowsOn(trace[0], before, a, trace[k - 1], trace[k], rule);
      actions := before + [a];
    }
  }

  lemma LeadsSchedule(sys: Sys, end: Sys, rule: Rule) returns (actions: seq<Action>)
    requires Leads(sys, end, rule)
    ensures Follows(sys, actions, rule) && Exec(sys, actions) == end
  {
    var trace :| IsTrace(trace, rule) && trace[0] == sys && trace[|trace| - 1] == end;
    actions := TraceSchedule(trace, |trace| - 1, rule);
  }

  /** The system with one process moved on. */
  function With(sys: Sys, pid: Pid, st: State): Sys {
    Sys(st.world, sys.procs[pid := st.proc], sys.locks)
  }

  /** One more step of the process, if the rule allows it. */
  lemma LetMove(start: Sys, sys: Sys, pid: Pid, st: State, i: Input, rule: Rule)
    requires Leads(start, With(sys, pid, st), rule) && !st.proc.pc.Acquire? && !st.proc.pc.Finished?
    requires rule(With(sys, pid, st), Advance(pid, i))
    ensures Leads(start, With(sys, pid, Step(st, i)), rule)
  {
    assert sys.procs[pid := st.proc][pid := Step(st, i).proc] == sys.procs[pid := Step(st, i).proc];
    LeadsOn(start, With(sys, pid, st), Advance(pid, i), With(sys, pid, Step(st, i)), rule);
  }
}
