/**
 What the end of `up` and `destroy` says about the run: a process ends well exactly if none of its steps met
 trouble, and what counts as trouble is read off the host and the outcome of the call, not off the process.
 */
module LifecycleVerdicts {
  import opened Wrappers
  import opened SignalGate
  import opened Lifecycle
  import opened LifecycleLocal
  import opened LifecycleProofs

  /** The nine labels at which `up` stops if a signal was recorded. */
  predicate IsCheckpoint(at: nat) {
    at in {START, CLAIMED, LOCKED, COUNTED, CLONED, BOOTED, UNLOCKED, ARCHIVED, PROVISIONED}
  }

  /**
   A call failed or was cut short, other than the reaping of `tart run`; or a checkpoint found a signal; or the
   worktree had a claim already, the Mac no room or the name taken, the new VM no disk; or the claim names a
   VM of another's, or one without the recorded disk; or a list contradicts the `stop` or `delete` before it.
   */
  predicate Trouble(q: Proc, v: View, a: Action) {
    || (a.result.Bad? && !(q.pc.Removal? && q.pc.stage == REAP_RUN))
    || a.result.Stop?
    || (match q.pc
        case Flow(at) =>
          || (IsCheckpoint(at) && v.signal.Some?)
          || (at == CLAIM && v.claim.Some?)
          || (at == COUNT && (!v.room || v.present))
          || (at == IDENTIFY && v.disk.None?)
        case ReadClaim => v.claim.Some? && v.claim.value.Names? && v.claim.value.name.Other?
        case Verify => !v.verified
        case Removal(stage, _) => (stage == LIST_RUNNING && v.running) || (stage == LIST_DELETED && v.present)
        case _ => false)
  }

  /** Some step of process `p` in the run met trouble. */
  ghost predicate Troubled(h: Host, run: seq<Event>, p: Pid)
    requires ValidRun(h, run)
    decreases |run|
  {
    run != [] &&
    var before, ev := run[..|run| - 1], run[|run| - 1];
    var g := After(h, before);
    || Troubled(h, before, p)
    || (ev.Step? && ev.pid == p && p in g.procs && p in g.gates && Trouble(g.procs[p], See(g, p), ev.action))
  }

  lemma FlowVerdict(q: Proc, v: View, a: Action)
    requires FlagsOk(q) && q.pc.Flow? && PossibleInFlow(q, v, a)
    ensures UpStep(q, v, a).0.raised.Nothing? <==> !Trouble(q, v, a)
  {
  }

  lemma RemovalVerdict(q: Proc, v: View, a: Action)
    requires FlagsOk(q) && q.pc.Removal? && (a.result.Good? || a.result.Bad?)
    ensures RemovalStep(q, v, a).0.raised.Nothing? <==> q.raised.Nothing? && !Trouble(q, v, a)
  {
  }

  /** A step leaves a process without an error exactly if it had none and the step met no trouble. */
  lemma StepVerdict(q: Proc, v: View, a: Action)
    requires FlagsOk(q) && Possible(q, v, a)
    ensures Local(q, v, a).0.raised.Nothing? <==> q.raised.Nothing? && !Trouble(q, v, a)
  {
    match q.pc
    case Flow(_) => FlowVerdict(q, v, a);
    case Removal(_, _) => RemovalVerdict(q, v, a);
    case _ =>
  }

  lemma {:induction false} NothingWithoutTrouble(h: Host, run: seq<Event>, p: Pid)
    requires Init(h) && ValidRun(h, run)
    ensures var g := After(h, run);
            if p in g.procs then g.procs[p].raised.Nothing? <==> !Troubled(h, run, p) else !Troubled(h, run, p)
    decreases |run|
  {
    if run != [] {
      var before, ev := run[..|run| - 1], run[|run| - 1];
      NothingWithoutTrouble(h, before, p);
      AlwaysInv(h, before);
      EventVerdict(After(h, before), ev, p);
    }
  }

  lemma EventVerdict(g: Host, ev: Event, p: Pid)
    requires Inv(g) && Enabled(g, ev)
    ensures var n := Do(g, ev);
            && (p in g.procs ==> p in n.procs)
            && (p in n.procs && p !in g.procs ==> n.procs[p].raised.Nothing? && !ev.Step?)
            && (p in g.procs && !(ev.Step? && ev.pid == p) ==> n.procs[p] == g.procs[p])
            && (ev.Step? && ev.pid == p ==>
                  p in g.gates && (n.procs[p].raised.Nothing? <==>
                                     g.procs[p].raised.Nothing? && !Trouble(g.procs[p], See(g, p), ev.action)))
  {
    hide Local, Possible, FlagsOk, SignalsOk, Knows, Apply, Polls, See, Trouble;
    hide LocksOk, NamesOk, CapOk, LeaksOk, WaitersOk, ClaimsAreOwn, VmsAreClaimed, KnowledgeOk;
    if ev.Step? {
      assert FlagsOk(g.procs[ev.pid]);
      StepVerdict(g.procs[ev.pid], See(g, ev.pid), ev.action);
    }
  }

  /**
   In every run a process that has ended met no trouble if and only if it ended well: without signals its
   status is 0, else 1, and an `up` is then done. So whatever goes wrong is reported, and nothing else is.
   */
  lemma EndsWellExactlyWithoutTrouble(h: Host, run: seq<Event>, p: Pid)
    requires Init(h) && ValidRun(h, run) && p in After(h, run).procs && After(h, run).procs[p].pc.Ended?
    ensures var g := After(h, run);
            var q := g.procs[p];
            && p in g.gates
            && (g.gates[p].delivered == [] ==> q.pc.status == if Troubled(h, run, p) then 1 else 0)
            && (q.verb.Up? ==> (q.done <==> !Troubled(h, run, p)))
  {
    hide Init, ValidRun, After, Troubled;
    AlwaysInv(h, run);
    NothingWithoutTrouble(h, run, p);
    var g := After(h, run);
    assert FlagsOk(g.procs[p]) && SignalsOk(g.procs[p], g.gates[p]);
    StatusNamesFirstSignal(g.gates[p], g.procs[p].raised);
  }
}
