/**
 The promises of `up` and `destroy`, for every run of `Lifecycle`: the cap, what exists when a verb
 ends, one removal per `up`, the locks, the exit status, and what `destroy` may touch.
 */
module LifecycleTheorems {
  import opened Wrappers
  import opened SignalGate
  import opened Lifecycle
  import opened LifecycleLocal
  import opened LifecycleProofs

  lemma EventKeepsPrompt(h: Host, ev: Event)
    requires Enabled(h, ev)
    ensures Do(h, ev).prompt == h.prompt
  {
    hide Local, Possible, See, Apply;
    match ev
    case Step(p, a) => ApplyFrame(h, p, h.procs[p], Local(h.procs[p], See(h, p), a).1);
    case Spawn(_, _, _, _, _) =>
    case Signal(_, _) =>
    case _ =>
  }

  /** An effect changes the VM table only at the process's name, and only a VM effect does. */
  lemma ApplyFrame(h: Host, p: Pid, q: Proc, e: Effect)
    ensures Apply(h, p, q, e).prompt == h.prompt
    ensures forall n | n in h.vms && (q.name != Some(n) || !(e.Create? || e.Boot? || e.Halt? || e.Remove?)) ::
              n in Apply(h, p, q, e).vms && Apply(h, p, q, e).vms[n] == h.vms[n]
  {
  }

  lemma {:induction false} PromptStays(h: Host, run: seq<Event>)
    requires ValidRun(h, run)
    ensures After(h, run).prompt == h.prompt
    decreases |run|
  {
    hide Do, Enabled;
    if run != [] {
      PromptStays(h, run[..|run| - 1]);
      EventKeepsPrompt(After(h, run[..|run| - 1]), run[|run| - 1]);
    }
  }

  /** Whether some `up` has reported that it could not remove its VM or clear its state. */
  ghost predicate SomeRemovalFailed(h: Host) {
    exists p | p in h.procs :: h.procs[p].verb.Up? && h.procs[p].past.problem
  }

  /**
   Apart from VMs left starting by a failed removal, never more than the cap run. So the cap holds
   throughout if a spawned VM is listed at once, and otherwise as long as no removal has failed.
   */
  lemma CapNeverExceeded(h: Host, run: seq<Event>)
    requires Init(h) && ValidRun(h, run)
    ensures var g := After(h, run);
            && |RunningVms(g) - g.leaked| <= MAX_CONCURRENT_VMS
            && (h.prompt || !SomeRemovalFailed(g) ==> |RunningVms(g)| <= MAX_CONCURRENT_VMS)
  {
    AlwaysInv(h, run);
    PromptStays(h, run);
    var g := After(h, run);
    hide Local, FlagsOk, SignalsOk, Knows;
    SubsetCounts(RunningVms(g) - g.leaked, Exposed(g));
    if g.leaked != {} {
      var n :| n in g.leaked;
      var p :| LeftBehind(g, n, p);
      assert SomeRemovalFailed(g);
    } else {
      assert RunningVms(g) - g.leaked == RunningVms(g);
    }
  }

  /** In every reachable state a VM made by `up` exists only while its worktree's claim names it. */
  lemma VmsOnlyWhileClaimed(h: Host, run: seq<Event>, n: Name)
    requires Init(h) && ValidRun(h, run)
    requires n in After(h, run).made && n in After(h, run).vms
    ensures After(h, run).made[n] in After(h, run).claims
    ensures After(h, run).claims[After(h, run).made[n]] == Names(n)
  {
    AlwaysInv(h, run);
  }

  /**
   What `up` leaves when it lets its worktree go: the VM with its claim and identity; or nothing; or,
   after a failed removal, the claim for `destroy` to find, unless the call that failed was the unlink of
   the identity file: then that file is left as it was, and nothing else. Once `up` has written the identity
   file, what it leaves is something `destroy` can act on. An `up` that did not claim leaves
   no VM, and its claim exactly if it had created the file.
   */
  lemma UpOutcome(h: Host, run: seq<Event>, p: Pid)
    requires Init(h) && ValidRun(h, run) && p in After(h, run).procs
    requires After(h, run).procs[p].verb.Up? && After(h, run).procs[p].pc.LeaveWorktree?
    ensures var g := After(h, run);
            var q := g.procs[p];
            var s := SliceOf(g, q);
            && (q.done ==> ClaimIs(s, q.name) && Recorded(s))
            && (!q.done && q.claimed && !q.past.problem ==> Gone(s))
            && (!q.done && q.claimed && q.past.problem && q.past.failedAt != Some(CLEAR_IDENTITY) ==>
                  ClaimIs(s, q.name))
            && (q.past.identified ==> Recoverable(s))
            && (!q.done && q.claimed && q.past.failedAt == Some(CLEAR_IDENTITY) ==>
                  s == Slice(None, None, q.past.found))
            && (!q.claimed ==> !q.done && s.vm.None? && (q.past.linked <==> ClaimIs(s, q.name)))
  {
    hide Init, ValidRun, After;
    AlwaysInv(h, run);
    var g := After(h, run);
    assert FlagsOk(g.procs[p]) && Knows(g.procs[p], SliceOf(g, g.procs[p]));
  }

  /** `destroy` that fails at nothing leaves no claim, and no VM or identity for the claim it read. */
  lemma DestroyOutcome(h: Host, run: seq<Event>, p: Pid)
    requires Init(h) && ValidRun(h, run) && p in After(h, run).procs
    requires After(h, run).procs[p].verb.Destroy? && After(h, run).procs[p].pc.LeaveWorktree?
    ensures var g := After(h, run);
            var q := g.procs[p];
            var s := SliceOf(g, q);
            q.raised.Nothing? ==> s.claim.None? && (q.name.Some? ==> Gone(s))
  {
    AlwaysInv(h, run);
    var g := After(h, run);
    assert Knows(g.procs[p], SliceOf(g, g.procs[p]));
  }

  /** `destroy` stops or removes a VM only in the middle of the removal. */
  lemma VmEffectPoint(q: Proc, v: View, a: Action)
    requires FlagsOk(q) && q.verb.Destroy? && Possible(q, v, a)
    ensures var e := Local(q, v, a).1;
            && !e.Create? && !e.Boot?
            && (e.Halt? || e.Remove? ==> q.pc.Removal? && q.pc.stage < CLEAR_CLAIM)
  {
  }

  lemma MidRemovalKnows(q: Proc, s: Slice)
    requires FlagsOk(q) && q.verb.Destroy? && Knows(q, s) && q.pc.Removal? && q.pc.stage < CLEAR_CLAIM
    ensures q.name.Some? && q.name.value.Own? && ClaimIs(s, q.name) && (s.vm.Some? ==> Recorded(s))
  {
  }

  /**
   A step of `destroy` changes the VM table only at the name its worktree's claim records, a name the
   tool makes, whose recorded disk identity is the VM's.
   */
  lemma DestroyTouchesOnlyItsOwn(h: Host, run: seq<Event>, p: Pid, a: Action, n: Name)
    requires Init(h) && ValidRun(h, run) && p in After(h, run).procs && After(h, run).procs[p].verb.Destroy?
    requires Enabled(After(h, run), Step(p, a))
    requires var g, g' := After(h, run), Do(After(h, run), Step(p, a));
             n in g.vms && (n !in g'.vms || g'.vms[n] != g.vms[n])
    ensures var g := After(h, run);
            var wt := g.procs[p].wt;
            && n.Own?
            && wt in g.claims && g.claims[wt] == Names(n)
            && wt in g.identities && g.identities[wt] == g.vms[n].disk
  {
    hide Local, Possible, FlagsOk, Knows, After, ValidRun, Init, Apply;
    AlwaysInv(h, run);
    var g := After(h, run);
    var q := g.procs[p];
    ApplyFrame(g, p, q, Local(q, See(g, p), a).1);
    VmEffectPoint(q, See(g, p), a);
    MidRemovalKnows(q, SliceOf(g, q));
  }

  /** An `up` that started its VM deletes it, if it does, only once its `tart run` is over and the VM stopped. */
  lemma DeletedOnlyOnceStopped(h: Host, run: seq<Event>, p: Pid)
    requires Init(h) && ValidRun(h, run) && p in After(h, run).procs && After(h, run).procs[p].verb.Up?
    requires After(h, run).procs[p].ran && After(h, run).procs[p].pc.Removal?
    requires REAP_RUN < After(h, run).procs[p].pc.stage
    ensures var s := SliceOf(After(h, run), After(h, run).procs[p]); s.vm.Some? ==> s.vm.value.state.Stopped?
  {
    hide Init, ValidRun, After;
    AlwaysInv(h, run);
    var g := After(h, run);
    assert Knows(g.procs[p], SliceOf(g, g.procs[p]));
  }

  /** `_cleanup` gets past its guard at most once, though two handlers call it. */
  lemma AtMostOneRemoval(h: Host, run: seq<Event>, p: Pid)
    requires Init(h) && ValidRun(h, run) && p in After(h, run).procs
    ensures After(h, run).procs[p].past.removals <= 1
  {
    AlwaysInv(h, run);
  }

  /** The process is at a point that asks for the cap lock. */
  predicate RequestsCap(q: Proc) {
    q.pc == Flow(WAIT_CAP) || q.pc.OuterWaitCap?
  }

  /** No process asks for the cap lock while it holds it, and one that ended holds no lock. */
  lemma LocksAreSound(h: Host, run: seq<Event>, p: Pid)
    requires Init(h) && ValidRun(h, run) && p in After(h, run).procs
    ensures var g := After(h, run);
            && (RequestsCap(g.procs[p]) ==> HolderOf(g, CapLock) != Held(p))
            && (g.procs[p].pc.Ended? ==> forall l :: HolderOf(g, l) != Held(p))
  {
    AlwaysInv(h, run);
    var g := After(h, run);
    assert forall l :: Inside(g.procs[p], l) <==> HolderOf(g, l) == Held(p);
  }

  /** The exit status is 128 plus the first signal that arrived, at whatever step, or else success or failure. */
  lemma ExitStatusNamesFirstSignal(h: Host, run: seq<Event>, p: Pid)
    requires Init(h) && ValidRun(h, run) && p in After(h, run).procs && After(h, run).procs[p].pc.Ended?
    ensures var g := After(h, run);
            && p in g.gates
            && var q, gate := g.procs[p], g.gates[p];
               && (gate.delivered != [] ==> q.pc.status == 128 + gate.delivered[0])
               && (gate.delivered == [] && q.verb.Up? ==> q.pc.status == if q.done then 0 else 1)
               && (gate.delivered == [] && q.verb.Destroy? ==> q.pc.status == if q.raised.Failure? then 1 else 0)
  {
    AlwaysInv(h, run);
    var g := After(h, run);
    assert FlagsOk(g.procs[p]) && SignalsOk(g.procs[p], g.gates[p]);
    StatusNamesFirstSignal(g.gates[p], g.procs[p].raised);
  }
}
