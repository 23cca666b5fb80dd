/**
 Progress of `Lifecycle`: no process is ever stuck, each takes a bounded number of steps besides polling
 the guest's agent, and from every reachable state the processes there are can all be brought to their end.
 */
module LifecycleProgress {
  import opened Wrappers
  import opened SignalGate
  import opened Lifecycle
  import opened LifecycleLocal
  import opened LifecycleProofs
  import opened LifecycleTheorems

  // Rank -------------------------------------------------------------------------------------

  /** How far a process is from its end. */
  function Rank(q: Proc): nat {
    match q.pc
    case Ended(_) => 0
    case LeaveGate => 1
    case LeaveWorktree => 2
    case OuterLeaveCap => 3
    case Removal(stage, from) => Left(stage, CLEAR_IDENTITY) + if from.Inner? then 23 else 4
    case Verify => 15
    case LookUp => 16
    case ReadClaim => 17
    case OuterWaitCap => 20
    case OuterFinally => 21
    case InnerLeaveCap => 22
    case InnerHandler => 33
    case Flow(at) => Left(at, PROVISIONED) + 34
    case WaitWorktree => MAX_STEPS
  }

  const MAX_STEPS := 53

  function Left(at: nat, last: nat): nat {
    if at <= last then last - at else 0
  }

  /** Every step brings a process nearer to its end, except a poll of the agent, which changes nothing. */
  lemma StepLowersRank(q: Proc, v: View, a: Action)
    requires FlagsOk(q) && Possible(q, v, a)
    ensures if a.result.Again? then Local(q, v, a).0 == q else Rank(Local(q, v, a).0) < Rank(q)
  {
    match q.pc
    case Flow(_) => FlowLowersRank(q, v, a);
    case Removal(_, _) => RemovalLowersRank(q, v, a);
    case ReadClaim | LookUp | Verify =>
    case WaitWorktree =>
    case _ =>
  }

  lemma FlowLowersRank(q: Proc, v: View, a: Action)
    requires FlagsOk(q) && q.pc.Flow? && PossibleInFlow(q, v, a)
    ensures if a.result.Again? then UpStep(q, v, a).0 == q else Rank(UpStep(q, v, a).0) < Rank(q)
  {
  }

  lemma RemovalLowersRank(q: Proc, v: View, a: Action)
    requires FlagsOk(q) && q.pc.Removal?
    ensures Rank(RemovalStep(q, v, a).0) < Rank(q)
  {
  }

  /** The steps a process takes in a run, polls of the agent not counted. */
  function Steps(run: seq<Event>, p: Pid): nat {
    if run == [] then 0
    else
      var ev := run[|run| - 1];
      Steps(run[..|run| - 1], p) + if ev.Step? && ev.pid == p && !ev.action.result.Again? then 1 else 0
  }

  /** In every run a process takes at most `MAX_STEPS` steps besides polling the agent. */
  lemma {:induction false} BoundedSteps(h: Host, run: seq<Event>, p: Pid)
    requires Init(h) && ValidRun(h, run)
    ensures var g := After(h, run); Steps(run, p) + (if p in g.procs then Rank(g.procs[p]) else MAX_STEPS) <= MAX_STEPS
    decreases |run|
  {
    if run != [] {
      var before, ev := run[..|run| - 1], run[|run| - 1];
      BoundedSteps(h, before, p);
      AlwaysInv(h, before);
      EventMovesOne(After(h, before), ev, p);
    }
  }

  lemma StepMovesOne(g: Host, p: Pid, a: Action)
    requires Inv(g) && Enabled(g, Step(p, a))
    ensures var n := Do(g, Step(p, a));
            && p in n.procs && n.procs == g.procs[p := n.procs[p]]
            && if a.result.Again? then n.procs[p] == g.procs[p] else Rank(n.procs[p]) < Rank(g.procs[p])
  {
    hide Local, Possible, FlagsOk, SignalsOk, Knows, Apply, Polls, Rank, See;
    hide LocksOk, NamesOk, CapOk, LeaksOk, WaitersOk, ClaimsAreOwn, VmsAreClaimed, KnowledgeOk;
    assert FlagsOk(g.procs[p]);
    StepLowersRank(g.procs[p], See(g, p), a);
  }

  lemma EventMovesOne(g: Host, ev: Event, p: Pid)
    requires Inv(g) && Enabled(g, ev)
    ensures var n := Do(g, ev);
            && (p in g.procs ==> p in n.procs)
            && (p in n.procs && p !in g.procs ==> Rank(n.procs[p]) == MAX_STEPS)
            && (p in g.procs && !(ev.Step? && ev.pid == p) ==> n.procs[p] == g.procs[p])
            && (ev.Step? && ev.pid == p && ev.action.result.Again? ==> n.procs[p] == g.procs[p])
            && (ev.Step? && ev.pid == p && !ev.action.result.Again? ==> Rank(n.procs[p]) < Rank(g.procs[p]))
  {
    if ev.Step? {
      hide Do, Enabled, Inv, Rank;
      StepMovesOne(g, ev.pid, ev.action);
    } else {
      hide Inv, Fresh;
    }
  }

  // No process is stuck ------------------------------------------------------------------------

  /**
   A step onward for a process that waits for no lock: it succeeds, or is cut short by a pending signal,
   or, where the guest is not running, gives up waiting for the agent.
   */
  function Onward(q: Proc, v: View): Action {
    var gated := q.pc.Flow? && q.pc.at in {COUNT, CLONE, WAIT_AGENT, ARCHIVE, PROVISION};
    Action(
      if gated && v.signal.Some? then Stop else if GivesUp(q, v) then Bad else Good,
      true, Identity(0, 0))
  }

  /** The wait for the agent is bounded; it ends in a failure if the guest does not run. */
  predicate GivesUp(q: Proc, v: View) {
    q.pc == Flow(WAIT_AGENT) && v.signal.None? && !v.running
  }

  lemma OnwardIsPossible(q: Proc, v: View)
    requires FlagsOk(q) && !q.pc.Ended?
    requires q.pc.WaitWorktree? ==> v.wtFree
    requires RequestsCap(q) ==> v.capFree
    ensures Possible(q, v, Onward(q, v))
  {
  }

  /** The process, or a waiter it abandoned, has the lock. */
  predicate Keeps(holder: Holder, p: Pid) {
    holder == Held(p) || holder == Passing(p)
  }

  /** The event moves on: an abandoned waiter lets a lock go, or a process takes its step onward. */
  ghost predicate MovesOn(g: Host, ev: Event) {
    && Enabled(g, ev)
    && (ev.WaiterCloses? || (ev.Step? && ev.action == Onward(g.procs[ev.pid], See(g, ev.pid))))
  }

  lemma NextMove(g: Host, p: Pid) returns (ev: Event)
    requires Inv(g) && p in g.procs && !g.procs[p].pc.Ended?
    ensures MovesOn(g, ev)
    ensures || ev.pid == p
            || Keeps(HolderOf(g, WorktreeLock(g.procs[p].wt)), ev.pid)
            || Keeps(HolderOf(g, CapLock), ev.pid)
  {
    hide Local, Possible, FlagsOk, SignalsOk, Knows, Onward, CapOk, NamesOk, ClaimsAreOwn, VmsAreClaimed;
    var wtHolder := HolderOf(g, WorktreeLock(g.procs[p].wt));
    if g.procs[p].pc.WaitWorktree? && wtHolder.Passing? {
      return WaiterCloses(wtHolder.pid, WorktreeLock(g.procs[p].wt));
    }
    var owner := if g.procs[p].pc.WaitWorktree? && wtHolder.Held? then wtHolder.pid else p;
    assert Inside(g.procs[owner], WorktreeLock(g.procs[p].wt)) <==> wtHolder == Held(owner);
    var capHolder := HolderOf(g, CapLock);
    if RequestsCap(g.procs[owner]) && capHolder.Passing? {
      return WaiterCloses(capHolder.pid, CapLock);
    }
    var mover := if RequestsCap(g.procs[owner]) && capHolder.Held? then capHolder.pid else owner;
    assert Inside(g.procs[mover], CapLock) <==> capHolder == Held(mover);
    assert FlagsOk(g.procs[mover]);
    OnwardIsPossible(g.procs[mover], See(g, mover));
    ev := Step(mover, Onward(g.procs[mover], See(g, mover)));
  }

  /**
   No deadlock: a process that has not ended can take a step onward, or the holder of its worktree's lock
   or of the cap lock can, or an abandoned waiter is about to let that lock go.
   */
  lemma NoDeadlock(h: Host, run: seq<Event>, p: Pid) returns (ev: Event)
    requires Init(h) && ValidRun(h, run) && p in After(h, run).procs && !After(h, run).procs[p].pc.Ended?
    ensures var g := After(h, run);
            && MovesOn(g, ev)
            && (ev.Step? ==> Rank(Do(g, ev).procs[ev.pid]) < Rank(g.procs[ev.pid]))
            && (|| ev.pid == p
                || Keeps(HolderOf(g, WorktreeLock(g.procs[p].wt)), ev.pid)
                || Keeps(HolderOf(g, CapLock), ev.pid))
  {
    hide Do, Enabled, Inv;
    AlwaysInv(h, run);
    ev := NextMove(After(h, run), p);
    EventMovesOne(After(h, run), ev, ev.pid);
  }

  // Every process can end ------------------------------------------------------------------------

  /** The ranks of all processes together. */
  ghost function Total(procs: map<Pid, Proc>): nat {
    if procs == map[] then 0
    else
      var p :| p in procs;
      Rank(procs[p]) + Total(procs - {p})
  }

  lemma {:induction false} TotalTakesOut(procs: map<Pid, Proc>, p: Pid)
    requires p in procs
    ensures Total(procs) == Rank(procs[p]) + Total(procs - {p})
    decreases |procs|
  {
    hide Rank;
    var x :| x in procs && Total(procs) == Rank(procs[x]) + Total(procs - {x});
    if x != p {
      TotalTakesOut(procs - {x}, p);
      TotalTakesOut(procs - {p}, x);
      assert procs - {x} - {p} == procs - {p} - {x};
    }
  }

  lemma RankLowersTotal(before: map<Pid, Proc>, after: map<Pid, Proc>, p: Pid)
    requires p in before && p in after && after == before[p := after[p]] && Rank(after[p]) < Rank(before[p])
    ensures Total(after) < Total(before)
  {
    hide Rank, Total;
    TotalTakesOut(before, p);
    TotalTakesOut(after, p);
    assert after - {p} == before - {p};
  }

  /** A move onward lowers the ranks of all together, or closes a waiter and leaves the processes alone. */
  lemma MoveLowers(g: Host, ev: Event)
    requires Inv(g) && MovesOn(g, ev)
    ensures var n := Do(g, ev);
            && n.procs.Keys == g.procs.Keys
            && (ev.Step? ==> Total(n.procs) < Total(g.procs))
            && (ev.WaiterCloses? ==> n.procs == g.procs && |n.abandoned| < |g.abandoned|)
  {
    assert ev.Step? ==> !ev.action.result.Again?;
    hide Inv, Local, Possible, Polls, Rank, Onward, See, Apply, Total;
    if ev.Step? {
      hide Do, Enabled;
      StepMovesOne(g, ev.pid, ev.action);
      RankLowersTotal(g.procs, Do(g, ev).procs, ev.pid);
    }
  }

  ghost predicate AllEnded(g: Host) {
    forall p | p in g.procs :: g.procs[p].pc.Ended?
  }

  /** From every reachable state a run without new processes brings every process to its end. */
  lemma {:induction false} AllCanEnd(h: Host, run: seq<Event>) returns (more: seq<Event>)
    requires Init(h) && ValidRun(h, run)
    ensures ValidRun(h, run + more) && (forall ev | ev in more :: ev.Step? || ev.WaiterCloses?)
    ensures var g := After(h, run + more); AllEnded(g) && g.procs.Keys == After(h, run).procs.Keys
    decreases Total(After(h, run).procs), |After(h, run).abandoned|
  {
    hide Do, Enabled, Inv, Total, Init, Keeps, ValidRun, After, Onward, See;
    var g := After(h, run);
    if AllEnded(g) {
      more := [];
      assert run + [] == run;
    } else {
      var p :| p in g.procs && !g.procs[p].pc.Ended?;
      AlwaysInv(h, run);
      var ev := NextMove(g, p);
      MoveLowers(g, ev);
      RunGrows(h, run, ev);
      more := AllCanEnd(h, run + [ev]);
      assert run + ([ev] + more) == run + [ev] + more;
      more := [ev] + more;
    }
  }
}
