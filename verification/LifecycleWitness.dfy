/**
 Runs that show where the promises of `up` stop: one that passes the cap when a spawned VM is not listed
 at once; one after which `up` leaves its claim though no removal failed, and one after which it leaves the
 identity file alone; and one after which it leaves a claim that no `destroy` can act on.
 */
module LifecycleWitness {
  import opened Wrappers
  import opened SignalGate
  import opened Lifecycle
  import opened LifecycleLocal
  import opened LifecycleProofs
  import opened LifecycleTheorems
  import opened LifecycleRecovery

  ghost predicate Reaches(h: Host, g: Host) {
    exists run :: ValidRun(h, run) && After(h, run) == g
  }

  lemma ReachStart(h: Host)
    ensures Reaches(h, h)
  {
    assert ValidRun(h, []) && After(h, []) == h;
  }

  lemma ReachNext(h: Host, g: Host, ev: Event)
    requires Reaches(h, g) && Enabled(g, ev)
    ensures Reaches(h, Do(g, ev))
  {
    hide Do, Enabled, ValidRun, After;
    var run :| ValidRun(h, run) && After(h, run) == g;
    RunGrows(h, run, ev);
  }

  // One good step of `up` ------------------------------------------------------------------

  const BAD := Action(Bad, false, DISK)

  ghost predicate Quiet(h: Host, p: Pid) {
    p in h.gates && h.gates[p].pending == [] && h.gates[p].pipe == []
  }

  function GoodEffect(at: nat): Effect {
    if at == CLAIM then PutClaim
    else if at == WAIT_CAP then Take(CapLock)
    else if at == CLONE then Create(DISK)
    else if at == IDENTIFY then PutIdentity
    else if at == BOOT then Boot
    else NoEffect
  }

  /** The host lets the process take the good step at its point. */
  ghost predicate GoodPossible(h: Host, p: Pid) {
    && p in h.procs && Quiet(h, p) && h.procs[p].pc.Flow? && h.procs[p].pc.at < WAIT_AGENT
    && var q, v := h.procs[p], See(h, p);
       && (q.pc.at == CLAIM ==> v.claim.None?)
       && (q.pc.at == WAIT_CAP ==> v.capFree)
       && (q.pc.at == COUNT ==> v.room && !v.present)
       && (q.pc.at == IDENTIFY ==> v.present)
  }

  /** Up to the boot, a good step moves `up` one point on and has its effect. */
  lemma GoodStep(h: Host, p: Pid)
    requires GoodPossible(h, p)
    ensures Enabled(h, Step(p, GOOD))
    ensures var q := h.procs[p];
            var g := Do(h, Step(p, GOOD));
            && p in g.procs && g.procs[p].pc == Flow(q.pc.at + 1)
            && g.procs[p].verb == q.verb && g.procs[p].name == q.name && g.procs[p].wt == q.wt
            && g == Apply(h, p, q, GoodEffect(q.pc.at)).(procs := h.procs[p := g.procs[p]], gates := g.gates)
            && Quiet(g, p)
  {
  }

  // A run past the cap -----------------------------------------------------------------------

  /** A host on which `up` with name `n` in worktree `wt` can get as far as booting. */
  ghost predicate Room(base: Host, n: Name, wt: Worktree) {
    && !base.prompt && n !in base.vms && wt !in base.claims
    && HolderOf(base, CapLock).Free? && |RunningVms(base)| < MAX_CONCURRENT_VMS
  }

  /** `base`, once process `p` has come as far as `at` in bringing `n` up in `wt`. */
  ghost predicate Advanced(base: Host, g: Host, p: Pid, n: Name, wt: Worktree, at: nat) {
    && p in g.procs && Quiet(g, p)
    && g.procs[p].verb.Up? && g.procs[p].name == Some(n) && g.procs[p].wt == wt && g.procs[p].pc == Flow(at)
    && g.vms == (if at <= CLONE then base.vms
                 else base.vms[n := Vm(if at <= BOOT then Stopped else Starting, DISK)])
    && g.claims == (if at <= CLAIM then base.claims else base.claims[wt := Names(n)])
    && (at <= IDENTIFY ==> g.identities == base.identities)
    && g.locks == (if at <= WAIT_CAP then base.locks else base.locks[CapLock := Held(p)])
    && g.prompt == base.prompt && g.leaked == base.leaked && g.made == base.made
    && g.procs == base.procs[p := g.procs[p]]
  }

  lemma AdvanceIsPossible(base: Host, g: Host, p: Pid, n: Name, wt: Worktree, at: nat)
    requires Room(base, n, wt) && Advanced(base, g, p, n, wt, at) && at < WAIT_AGENT
    ensures GoodPossible(g, p)
  {
    assert RunningVms(g) == RunningVms(base) || at != COUNT;
  }

  lemma AdvanceClaim(base: Host, g: Host, p: Pid, n: Name, wt: Worktree, at: nat)
    requires Advanced(base, g, p, n, wt, at) && at <= WAIT_CAP && GoodPossible(g, p)
    ensures Enabled(g, Step(p, GOOD)) && Advanced(base, Do(g, Step(p, GOOD)), p, n, wt, at + 1)
  {
    hide Local, Possible, Enabled, Do, GoodPossible;
    GoodStep(g, p);
  }

  lemma AdvanceVm(base: Host, g: Host, p: Pid, n: Name, wt: Worktree, at: nat)
    requires Advanced(base, g, p, n, wt, at) && (at == CLONE || at == BOOT) && GoodPossible(g, p) && n !in base.vms
    requires !base.prompt
    ensures Enabled(g, Step(p, GOOD)) && Advanced(base, Do(g, Step(p, GOOD)), p, n, wt, at + 1)
  {
    hide Local, Possible, Enabled, Do, GoodPossible;
    GoodStep(g, p);
  }

  lemma AdvanceRest(base: Host, g: Host, p: Pid, n: Name, wt: Worktree, at: nat)
    requires Advanced(base, g, p, n, wt, at) && WAIT_CAP < at < WAIT_AGENT && at != CLONE && at != BOOT
    requires GoodPossible(g, p)
    ensures Enabled(g, Step(p, GOOD)) && Advanced(base, Do(g, Step(p, GOOD)), p, n, wt, at + 1)
  {
    hide Local, Possible, Enabled, Do, GoodPossible;
    GoodStep(g, p);
  }

  lemma AdvanceOne(base: Host, g: Host, p: Pid, n: Name, wt: Worktree, at: nat)
    requires Room(base, n, wt) && Advanced(base, g, p, n, wt, at) && at < WAIT_AGENT
    ensures Enabled(g, Step(p, GOOD)) && Advanced(base, Do(g, Step(p, GOOD)), p, n, wt, at + 1)
  {
    AdvanceIsPossible(base, g, p, n, wt, at);
    hide Local, Possible, Enabled, Do, GoodPossible, Advanced;
    if at <= WAIT_CAP {
      AdvanceClaim(base, g, p, n, wt, at);
    } else if at == CLONE || at == BOOT {
      AdvanceVm(base, g, p, n, wt, at);
    } else {
      AdvanceRest(base, g, p, n, wt, at);
    }
  }

  lemma {:induction false} AdvanceTo(h: Host, base: Host, g: Host, p: Pid, n: Name, wt: Worktree, at: nat, goal: nat)
      returns (b: Host)
    requires Room(base, n, wt) && Advanced(base, g, p, n, wt, at) && at <= goal <= WAIT_AGENT && Reaches(h, g)
    ensures Reaches(h, b) && Advanced(base, b, p, n, wt, goal)
    decreases goal - at
  {
    hide Local, Possible, Reaches, Do, Enabled, Advanced, Room;
    if at == goal {
      b := g;
    } else {
      AdvanceOne(base, g, p, n, wt, at);
      ReachNext(h, g, Step(p, GOOD));
      b := AdvanceTo(h, base, Do(g, Step(p, GOOD)), p, n, wt, at + 1, goal);
    }
  }

  lemma ReachedInv(h: Host, g: Host)
    requires Init(h) && Reaches(h, g)
    ensures Inv(g)
  {
    var run :| ValidRun(h, run) && After(h, run) == g;
    AlwaysInv(h, run);
  }

  /** Everything but one process's point and flags, the gates, the locks and the history of leaks is as before. */
  ghost predicate Alike(g: Host, g': Host, p: Pid) {
    && g'.vms == g.vms && g'.claims == g.claims && g'.identities == g.identities
    && g'.made == g.made && g'.prompt == g.prompt
    && p in g.procs && p in g'.procs && p in g'.gates && g'.procs == g.procs[p := g'.procs[p]]
    && g'.procs[p].name == g.procs[p].name && g'.procs[p].wt == g.procs[p].wt && g'.procs[p].verb == g.procs[p].verb
  }

  /** A call under the cap lock fails and has done nothing. */
  lemma FailsInCap(g: Host, p: Pid)
    requires p in g.procs && p in g.gates && (g.procs[p].pc == Flow(IDENTIFY) || g.procs[p].pc == Flow(WAIT_AGENT))
    ensures Enabled(g, Step(p, BAD))
    ensures var g' := Do(g, Step(p, BAD));
            Alike(g, g', p) && g'.locks == g.locks && g'.procs[p] == g.procs[p].(raised := Failure, pc := InnerHandler)
  {
  }

  function Cleaning(q: Proc): Past {
    q.past.(removals := q.past.removals + 1)
  }

  /** `up` cleans up. */
  lemma CleanupBegins(g: Host, p: Pid)
    requires p in g.procs && p in g.gates && g.procs[p].pc.InnerHandler?
    requires g.procs[p].claimed && g.procs[p].cloneAttempted && !g.procs[p].cleaned && !g.procs[p].done
    ensures Enabled(g, Step(p, GOOD))
    ensures var g', q := Do(g, Step(p, GOOD)), g.procs[p];
            && Alike(g, g', p) && g'.locks == g.locks && g'.procs[p].raised == q.raised
            && g'.procs[p] == q.(cleaned := true, past := Cleaning(q), pc := Removal(LIST_EXISTING, Inner))
  {
  }

  function Failed(q: Proc): Past
    requires q.pc.Removal?
  {
    q.past.(problem := true, failedAt := Some(q.pc.stage))
  }

  /** A `tart list` or an unlink fails in the removal. */
  lemma RemovalFails(g: Host, p: Pid)
    requires p in g.procs && p in g.gates && g.procs[p].pc.Removal? && g.procs[p].pc.from.Inner?
    requires g.procs[p].pc.stage != REAP_RUN
    ensures Enabled(g, Step(p, BAD))
    ensures var g', q := Do(g, Step(p, BAD)), g.procs[p];
            && Alike(g, g', p) && g'.locks == g.locks
            && g'.procs[p] == q.(past := Failed(q), pc := InnerLeaveCap)
  {
  }

  /** The cap lock goes. */
  lemma CapLockGoes(g: Host, p: Pid)
    requires p in g.procs && p in g.gates && g.procs[p].pc.InnerLeaveCap?
    ensures Enabled(g, Step(p, GOOD))
    ensures var g' := Do(g, Step(p, GOOD));
            Alike(g, g', p) && g'.locks == g.locks - {CapLock} && g'.procs[p] == g.procs[p].(pc := OuterFinally)
  {
  }

  /** The outer `finally` finds that the cleaning was done. */
  lemma NothingMoreToClean(g: Host, p: Pid)
    requires p in g.procs && p in g.gates && g.procs[p].pc.OuterFinally? && g.procs[p].cleaned
    ensures Enabled(g, Step(p, GOOD))
    ensures var g' := Do(g, Step(p, GOOD));
            Alike(g, g', p) && g'.locks == g.locks && g'.procs[p] == g.procs[p].(pc := LeaveWorktree)
  {
  }

  lemma FlagsPastClone(q: Proc)
    requires FlagsOk(q) && q.verb.Up? && q.pc.Flow? && CLONE < q.pc.at
    ensures q.claimed && q.cloneAttempted && !q.cleaned && !q.done
  {
  }

  /** A call under the cap lock fails after the clone was tried: `up` begins to remove the VM. */
  lemma FailAndClean(h: Host, b: Host, p: Pid) returns (g: Host)
    requires Init(h) && Reaches(h, b) && p in b.procs && b.procs[p].verb.Up?
    requires b.procs[p].pc == Flow(IDENTIFY) || b.procs[p].pc == Flow(WAIT_AGENT)
    ensures Reaches(h, g) && Alike(b, g, p) && g.locks == b.locks && g.procs[p].cleaned
    ensures g.procs[p].pc == Removal(LIST_EXISTING, Inner) && g.procs[p].past == Cleaning(b.procs[p])
  {
    hide Inv, Init, Reaches, Do, Enabled, FlagsOk;
    ReachedInv(h, b);
    ProcOfInv(b, p);
    FlagsPastClone(b.procs[p]);
    FailsInCap(b, p);
    ReachNext(h, b, Step(p, BAD));
    var b1 := Do(b, Step(p, BAD));
    CleanupBegins(b1, p);
    ReachNext(h, b1, Step(p, GOOD));
    g := Do(b1, Step(p, GOOD));
  }

  /** The removal fails at its present stage, and `up` lets the cap lock go. */
  lemma FailAndLeaveCap(h: Host, b: Host, p: Pid) returns (g: Host)
    requires Reaches(h, b) && p in b.procs && p in b.gates && b.procs[p].pc.Removal? && b.procs[p].pc.from.Inner?
    requires b.procs[p].pc.stage != REAP_RUN
    ensures Reaches(h, g) && Alike(b, g, p) && g.locks == b.locks - {CapLock}
    ensures g.procs[p] == b.procs[p].(past := Failed(b.procs[p]), pc := OuterFinally)
  {
    hide Reaches, Do, Enabled;
    RemovalFails(b, p);
    ReachNext(h, b, Step(p, BAD));
    var b1 := Do(b, Step(p, BAD));
    CapLockGoes(b1, p);
    ReachNext(h, b1, Step(p, GOOD));
    g := Do(b1, Step(p, GOOD));
  }

  /** A boot that fails, and a `tart list` that fails in the removal: the cap lock goes, the VM is still starting. */
  lemma Leak(h: Host, base: Host, b: Host, p: Pid, n: Name, wt: Worktree) returns (g: Host)
    requires Init(h) && Reaches(h, b) && Advanced(base, b, p, n, wt, WAIT_AGENT)
    ensures Reaches(h, g) && Alike(b, g, p) && g.locks == b.locks - {CapLock}
  {
    hide Init, Reaches;
    var b1 := FailAndClean(h, b, p);
    g := FailAndLeaveCap(h, b1, p);
  }

  lemma TakesWorktree(g: Host, p: Pid, verb: Verb, name: Option<Name>, wt: Worktree)
    requires p in g.procs && p in g.gates && g.procs[p] == Launch(verb, wt, name)
    requires HolderOf(g, WorktreeLock(wt)).Free?
    ensures Enabled(g, Step(p, GOOD))
    ensures Do(g, Step(p, GOOD)) ==
            g.(locks := g.locks[WorktreeLock(wt) := Held(p)],
               procs := g.procs[p := g.procs[p].(pc := if verb.Up? then Flow(START) else ReadClaim)])
  {
  }

  /** A new `up` gets its worktree's lock. */
  lemma StartUp(h: Host, g: Host, p: Pid, uuid: nat, wt: Worktree) returns (s: Host)
    requires Reaches(h, g) && p !in g.procs && Fresh(g, Own(uuid)) && HolderOf(g, WorktreeLock(wt)).Free?
    ensures Reaches(h, s) && Advanced(s, s, p, Own(uuid), wt, START)
    ensures s.vms == g.vms && s.claims == g.claims && s.identities == g.identities && s.prompt == g.prompt
    ensures s.locks == g.locks[WorktreeLock(wt) := Held(p)] && s.made == g.made[Own(uuid) := wt]
    ensures s.procs.Keys == g.procs.Keys + {p}
  {
    hide Reaches, Local, Possible, See, Apply, Fresh;
    var spawn := Spawn(p, Up, wt, uuid, 1);
    var g1 := Do(g, spawn);
    ReachNext(h, g, spawn);
    hide Do, Enabled;
    TakesWorktree(g1, p, Up, Some(Own(uuid)), wt);
    ReachNext(h, g1, Step(p, GOOD));
    s := Do(g1, Step(p, GOOD));
  }

  /** Bring an `up` from nothing to a booted, not yet listed VM. */
  lemma UpToBoot(h: Host, g: Host, p: Pid, uuid: nat, wt: Worktree) returns (base: Host, b: Host)
    requires Reaches(h, g) && p !in g.procs && Fresh(g, Own(uuid)) && HolderOf(g, WorktreeLock(wt)).Free?
    requires Room(g, Own(uuid), wt)
    ensures Reaches(h, b) && Advanced(base, b, p, Own(uuid), wt, WAIT_AGENT)
    ensures b.vms == g.vms[Own(uuid) := Vm(Starting, DISK)] && b.claims == g.claims[wt := Names(Own(uuid))]
    ensures b.prompt == g.prompt && b.made == g.made[Own(uuid) := wt] && b.procs.Keys == g.procs.Keys + {p}
    ensures b.locks == g.locks[WorktreeLock(wt) := Held(p)][CapLock := Held(p)]
  {
    hide Init, Reaches;
    base := StartUp(h, g, p, uuid, wt);
    assert RunningVms(base) == RunningVms(g);
    b := AdvanceTo(h, base, base, p, Own(uuid), wt, START, WAIT_AGENT);
  }

  /** A Mac on which one VM, not the tool's, is running. */
  function OneRunning(): Host {
    Host(false, map[Other(0) := Vm(Running, DISK)], map[], map[], map[], {}, map[], map[], map[], {})
  }

  lemma OneRunningIsInit()
    ensures Init(OneRunning()) && RunningVms(OneRunning()) == {Other(0)}
  {
    var h := OneRunning();
    assert RunningVms(h) == {Other(0)};
  }

  /** Two starting VMs are listed. */
  lemma BothListed(h: Host, b: Host, n1: Name, n2: Name) returns (g: Host)
    requires Reaches(h, b) && n1 != n2 && n1 in b.vms && n2 in b.vms
    requires b.vms[n1].state.Starting? && b.vms[n2].state.Starting?
    ensures Reaches(h, g) && RunningVms(g) == RunningVms(b) + {n1, n2}
  {
    hide Reaches;
    ReachNext(h, b, Listed(n1));
    var g1 := Do(b, Listed(n1));
    ReachNext(h, g1, Listed(n2));
    g := Do(g1, Listed(n2));
    assert RunningVms(g) == RunningVms(b) + {n1, n2};
  }

  /** The first `up` on that Mac fails as in `Leak`. */
  lemma FirstUpLeaks() returns (g: Host)
    ensures Init(OneRunning()) && Reaches(OneRunning(), g) && RunningVms(g) == {Other(0)}
    ensures Own(1) in g.vms && g.vms[Own(1)].state.Starting? && 2 !in g.procs && Fresh(g, Own(2))
    ensures HolderOf(g, WorktreeLock(2)).Free? && Room(g, Own(2), 2)
  {
    hide Reaches, Init;
    var h := OneRunning();
    OneRunningIsInit();
    ReachStart(h);
    var base, b := UpToBoot(h, h, 1, 1, 1);
    assert b.procs[1].name == Some(Own(1)) && b.procs.Keys == {1};
    hide Advanced;
    g := Leak(h, base, b, 1, Own(1), 1);
    assert g.locks == map[WorktreeLock(1) := Held(1)];
    assert RunningVms(g) == {Other(0)};
  }

  /** A second `up` then boots as well, and three VMs run. */
  lemma CapCanBeExceeded() returns (h: Host, g: Host)
    ensures Init(h) && !h.prompt && Reaches(h, g) && |RunningVms(g)| > MAX_CONCURRENT_VMS
  {
    hide Reaches, Init, Fresh, Room, Advanced, HolderOf;
    h := OneRunning();
    var leaked := FirstUpLeaks();
    var base, b := UpToBoot(h, leaked, 2, 2, 2);
    assert RunningVms(b) == {Other(0)};
    g := BothListed(h, b, Own(1), Own(2));
    assert RunningVms(g) == {Other(0), Own(1), Own(2)};
  }

  /** Over every run, on a host that lists a spawned VM at once or not, the cap holds. */
  ghost predicate CapHolds(prompt: bool) {
    forall h, run | Init(h) && h.prompt == prompt && ValidRun(h, run) ::
      |RunningVms(After(h, run))| <= MAX_CONCURRENT_VMS
  }

  /** The cap holds over every run exactly when a spawned VM is listed as running at once. */
  lemma CapHoldsExactlyWhenListedAtOnce(prompt: bool)
    ensures CapHolds(prompt) <==> prompt
  {
    hide Init, ValidRun, After, RunningVms;
    if prompt {
      forall h, run | Init(h) && h.prompt == prompt && ValidRun(h, run)
        ensures |RunningVms(After(h, run))| <= MAX_CONCURRENT_VMS
      {
        CapNeverExceeded(h, run);
      }
    } else {
      var h, g := CapCanBeExceeded();
      var run :| ValidRun(h, run) && After(h, run) == g;
      assert !CapHolds(prompt);
    }
  }

  // What a failed file operation leaves behind ----------------------------------------------

  const LINKED := Action(Bad, true, DISK)

  /** The link succeeds, removing the temporary file raises, and the outer `finally` has nothing to clean. */
  lemma LinkRaises(g: Host, p: Pid, n: Name)
    requires p in g.procs && p in g.gates && g.procs[p].verb.Up? && g.procs[p].pc == Flow(CLAIM) && !g.procs[p].claimed
    requires g.procs[p].name == Some(n) && g.procs[p].wt !in g.claims && n !in g.vms && !g.procs[p].past.problem
    ensures Enabled(g, Step(p, LINKED)) && Enabled(Do(g, Step(p, LINKED)), Step(p, GOOD))
    ensures var g' := Do(Do(g, Step(p, LINKED)), Step(p, GOOD));
            && p in g'.procs && g'.procs[p].verb.Up? && g'.procs[p].pc.LeaveWorktree? && g'.procs[p].name == Some(n)
            && !g'.procs[p].past.problem && n !in g'.vms
            && g'.procs[p].wt in g'.claims && g'.claims[g'.procs[p].wt] == Names(n)
  {
  }

  /** An `up` alone on that Mac, as far as the point `goal`. */
  lemma FirstUpTo(goal: nat) returns (base: Host, b: Host)
    requires goal <= WAIT_AGENT
    ensures Init(OneRunning()) && Reaches(OneRunning(), b) && Advanced(base, b, 1, Own(1), 1, goal)
    ensures base.identities == map[]
    ensures base.procs.Keys == {1} && base.locks == map[WorktreeLock(1) := Held(1)] && base.made == map[Own(1) := 1]
    ensures base.claims == map[] && Own(1) !in base.vms
  {
    hide Reaches, Init;
    var h := OneRunning();
    OneRunningIsInit();
    ReachStart(h);
    base := StartUp(h, h, 1, 1, 1);
    assert RunningVms(base) == RunningVms(h);
    b := AdvanceTo(h, base, base, 1, Own(1), 1, START, goal);
  }

  /** After such a run `up` has made no VM and no removal failed, and the claim stays until `destroy`. */
  lemma ClaimCanBeLeft() returns (h: Host, g: Host, p: Pid)
    ensures Init(h) && Reaches(h, g) && p in g.procs && g.procs[p].verb.Up? && g.procs[p].pc.LeaveWorktree?
    ensures var s := SliceOf(g, g.procs[p]);
            !g.procs[p].past.problem && s.vm.None? && ClaimIs(s, g.procs[p].name)
  {
    h, p := OneRunning(), 1;
    var base, b := FirstUpTo(CLAIM);
    ReachedInv(h, b);
    assert FlagsOk(b.procs[p]);
    hide Reaches, Init, Do, Enabled, Inv;
    LinkRaises(b, p, Own(1));
    ReachNext(h, b, Step(p, LINKED));
    ReachNext(h, Do(b, Step(p, LINKED)), Step(p, GOOD));
    g := Do(Do(b, Step(p, LINKED)), Step(p, GOOD));
  }

  lemma {:induction false} ReachAlone(h: Host, g: Host, p: Pid, k: nat, n: Host)
    requires Reaches(h, g) && Alone(g, p, k, n)
    ensures Reaches(h, n)
    decreases k
  {
    hide Reaches, Do, Enabled;
    if k > 0 {
      ReachNext(h, g, Step(p, GOOD));
      ReachAlone(h, Do(g, Step(p, GOOD)), p, k - 1, n);
    }
  }

  /**
   After a run in which the VM and the claim went and the unlink of the identity file failed, only that file is
   left.
   */
  lemma IdentityCanBeLeft() returns (h: Host, g: Host, p: Pid)
    ensures Init(h) && Reaches(h, g) && p in g.procs && g.procs[p].verb.Up? && g.procs[p].pc.LeaveWorktree?
    ensures g.procs[p].past.failedAt == Some(CLEAR_IDENTITY)
    ensures var s := SliceOf(g, g.procs[p]); s.vm.None? && s.claim.None? && s.identity.Some?
  {
    h, p := OneRunning(), 1;
    var b := RecordedUp();
    hide Init, Reaches, Do, Enabled, Inv, FlagsOk, Knows, SliceOf;
    var b1 := FailAndClean(h, b, p);
    ReachedInv(h, b1);
    var k, b2 := RemovalGoes(b1, p);
    ReachAlone(h, b1, p, k, b2);
    ProcOfInv(b2, p);
    RemovingIsCleaned(b2.procs[p]);
    var b3 := FailAndLeaveCap(h, b2, p);
    NothingMoreToClean(b3, p);
    ReachNext(h, b3, Step(p, GOOD));
    g := Do(b3, Step(p, GOOD));
    ReachedInv(h, g);
    ProcOfInv(g, p);
    OnlyIdentityLeft(g, p);
  }

  /** An `up` alone on that Mac, waiting for the agent of a VM whose identity is recorded. */
  lemma RecordedUp() returns (b: Host)
    ensures Init(OneRunning()) && Reaches(OneRunning(), b) && 1 in b.procs && b.procs[1].verb.Up?
    ensures b.procs[1].wt in b.identities
    ensures b.procs[1].pc == Flow(WAIT_AGENT)
  {
    var base;
    base, b := FirstUpTo(WAIT_AGENT);
    hide Init, Reaches, Inv;
    ReachedInv(OneRunning(), b);
    ProcOfInv(b, 1);
  }

  lemma RemovingIsCleaned(q: Proc)
    requires FlagsOk(q) && q.verb.Up? && q.pc.Removal?
    ensures q.cleaned
  {
  }

  lemma OnlyIdentityLeft(g: Host, p: Pid)
    requires p in g.procs && g.procs[p].verb.Up? && g.procs[p].pc.LeaveWorktree?
    requires g.procs[p].past.failedAt == Some(CLEAR_IDENTITY)
    requires FlagsOk(g.procs[p]) && Knows(g.procs[p], SliceOf(g, g.procs[p])) && g.procs[p].wt in g.identities
    ensures var s := SliceOf(g, g.procs[p]); s.vm.None? && s.claim.None? && s.identity.Some?
  {
  }

  /** The worktree's lock goes. */
  lemma WorktreeGoes(g: Host, p: Pid)
    requires p in g.procs && p in g.gates && g.procs[p].pc.LeaveWorktree?
    ensures Enabled(g, Step(p, GOOD))
    ensures var g' := Do(g, Step(p, GOOD));
            && Alike(g, g', p) && g'.locks == g.locks - {WorktreeLock(g.procs[p].wt)}
            && g'.procs[p] == g.procs[p].(pc := LeaveGate)
  {
  }

  /** A new `destroy` gets its worktree's lock. */
  lemma StartDestroy(h: Host, g: Host, p: Pid, wt: Worktree) returns (s: Host)
    requires Reaches(h, g) && p !in g.procs && HolderOf(g, WorktreeLock(wt)).Free?
    ensures Reaches(h, s) && SameFiles(g, s) && p in s.procs && p in s.gates
    ensures s.procs == g.procs[p := Launch(Destroy, wt, None).(pc := ReadClaim)] && s.gates[p].delivered == []
  {
    hide Reaches, Local, Possible, See, Apply;
    var spawn := Spawn(p, Destroy, wt, 0, 1);
    ReachNext(h, g, spawn);
    var g1 := Do(g, spawn);
    hide Do, Enabled;
    TakesWorktree(g1, p, Destroy, None, wt);
    ReachNext(h, g1, Step(p, GOOD));
    s := Do(g1, Step(p, GOOD));
  }

  /** The removal fails at its first list, and `up` lets the cap lock and the worktree go: it leaves what there is. */
  lemma FailAndLeave(h: Host, b: Host, p: Pid) returns (g: Host)
    requires Init(h) && Reaches(h, b) && p in b.procs && b.procs[p].verb.Up?
    requires b.procs[p].pc == Flow(IDENTIFY) || b.procs[p].pc == Flow(WAIT_AGENT)
    ensures Reaches(h, g) && SameFiles(b, g) && p in g.procs && g.procs.Keys == b.procs.Keys
    ensures g.locks == b.locks - {CapLock} - {WorktreeLock(b.procs[p].wt)}
    ensures g.procs[p].verb.Up? && g.procs[p].name == b.procs[p].name && g.procs[p].wt == b.procs[p].wt
    ensures g.procs[p].past.problem && g.procs[p].past.identified == b.procs[p].past.identified
  {
    hide Init, Reaches, Do, Enabled;
    var b1 := FailAndClean(h, b, p);
    var b2 := FailAndLeaveCap(h, b1, p);
    NothingMoreToClean(b2, p);
    ReachNext(h, b2, Step(p, GOOD));
    var b3 := Do(b2, Step(p, GOOD));
    WorktreeGoes(b3, p);
    ReachNext(h, b3, Step(p, GOOD));
    g := Do(b3, Step(p, GOOD));
  }

  /** An `up`, alone on that Mac, that failed at `goal` and could not remove its VM, and left a claim. */
  ghost predicate LeftClaim(g: Host) {
    && g.procs.Keys == {1} && HolderOf(g, WorktreeLock(1)).Free?
    && g.procs[1].verb.Up? && g.procs[1].name == Some(Own(1)) && g.procs[1].wt == 1 && g.procs[1].past.problem
    && Own(1) in g.vms && g.claims == map[1 := Names(Own(1))]
  }

  lemma LeavesClaim(goal: nat) returns (g: Host)
    requires goal == IDENTIFY || goal == WAIT_AGENT
    ensures Init(OneRunning()) && Reaches(OneRunning(), g) && LeftClaim(g)
    ensures goal == IDENTIFY ==> g.identities == map[] && !g.procs[1].past.identified
    ensures goal == WAIT_AGENT ==> 1 in g.identities && g.identities[1] == g.vms[Own(1)].disk
    ensures goal == WAIT_AGENT ==> g.vms[Own(1)].state.Starting?
  {
    var h := OneRunning();
    var base, b := FirstUpTo(goal);
    assert goal == WAIT_AGENT ==> Recorded(SliceOf(b, b.procs[1])) by { ReachedInv(h, b); ProcOfInv(b, 1); }
    assert goal == IDENTIFY ==> !b.procs[1].past.identified by { ReachedInv(h, b); ProcOfInv(b, 1); }
    hide Init, Reaches;
    g := FailAndLeave(h, b, 1);
  }

  lemma UnrecordedIsBeyond(g: Host, wt: Worktree, name: Name)
    requires ClaimAt(g, wt) == Some(Names(name)) && name in g.vms && wt !in g.identities
    ensures !Actionable(g, wt)
  {
  }

  /**
   After a run in which an `up` could neither write the identity nor remove its VM, the claim it leaves for
   `destroy` is one no `destroy` can act on: here every call of one succeeds, and it refuses and changes nothing.
   */
  lemma DestroyCanBeHelpless() returns (h: Host, g: Host, p: Pid, k: nat, n: Host)
    ensures Init(h) && h.claims == map[] && Own(1) !in h.made && Own(1) !in h.vms
    ensures Reaches(h, g) && 1 in g.procs && g.procs[1].verb.Up? && g.procs[1].name == Some(Own(1))
    ensures g.procs[1].past.problem && !g.procs[1].past.identified
    ensures p in g.procs && g.procs[p].verb.Destroy? && g.procs[p].pc.ReadClaim? && g.procs[p].wt == g.procs[1].wt
    ensures Own(1) in g.vms && ClaimAt(g, g.procs[p].wt) == Some(Names(Own(1))) && g.procs[p].wt !in g.identities
    ensures Alone(g, p, k, n) && p in n.procs && n.procs[p].pc == Ended(1) && SameFiles(g, n)
  {
    h, p := OneRunning(), 2;
    var u := LeavesClaim(IDENTIFY);
    hide Init, Reaches, Do, Enabled, Inv, Alone;
    g := StartDestroy(h, u, 2, 1);
    ReachedInv(h, g);
    UnrecordedIsBeyond(g, 1, Own(1));
    hide Actionable;
    k, n := ComesToItsEnd(g, 2);
  }

  /** At `LIST_BEFORE`, with the VM there, the next stage is `STOP`; and `STOP` stops it. */
  lemma StopsVm(q: Proc, v: View)
    requires q.pc.Removal? && v.present
    ensures q.pc.stage == LIST_BEFORE ==> Local(q, v, GOOD) == (q.(pc := Removal(STOP, q.pc.from)), NoEffect)
    ensures q.pc.stage == STOP ==> Local(q, v, GOOD).1.Halt?
  {
  }

  /** A `destroy` that has verified its VM comes to the point where it stops it. */
  lemma ComesToStop(g: Host, p: Pid) returns (n: Host)
    requires Inv(g) && p in g.procs && g.procs[p].pc == Removal(LIST_BEFORE, Destroying)
    requires SliceOf(g, g.procs[p]).vm.Some?
    ensures Alone(g, p, 1, n) && Inv(n) && SameFiles(g, n) && p in n.procs
    ensures n.procs[p] == g.procs[p].(pc := Removal(STOP, Destroying))
  {
    assert Possible(g.procs[p], See(g, p), GOOD) by { ProcOfInv(g, p); }
    hide Inv, Local, Possible, See, Do, Enabled, FlagsOk, Knows, SignalsOk, SliceOf;
    ProcOfInv(g, p);
    StopsVm(g.procs[p], See(g, p));
    QuietStep(g, p);
    n := Do(g, Step(p, GOOD));
  }

  lemma StopChanges(g: Host, p: Pid, name: Name)
    requires p in g.procs && p in g.gates && g.procs[p].pc == Removal(STOP, Destroying) && g.procs[p].name == Some(name)
    requires name in g.vms && !g.vms[name].state.Stopped?
    ensures Enabled(g, Step(p, GOOD))
    ensures name in Do(g, Step(p, GOOD)).vms && Do(g, Step(p, GOOD)).vms[name] != g.vms[name]
  {
    StopsVm(g.procs[p], See(g, p));
  }

  /** A run whose next step is one of `destroy` that changes a VM, as `DestroyTouchesOnlyItsOwn` speaks of. */
  lemma DestroyStopsItsVm() returns (h: Host, run: seq<Event>, p: Pid)
    ensures Init(h) && ValidRun(h, run) && p in After(h, run).procs && After(h, run).procs[p].verb.Destroy?
    ensures Enabled(After(h, run), Step(p, GOOD))
    ensures var g, g' := After(h, run), Do(After(h, run), Step(p, GOOD));
            Own(1) in g.vms && Own(1) in g'.vms && g'.vms[Own(1)] != g.vms[Own(1)]
  {
    h, p := OneRunning(), 2;
    var g := AtStop();
    run :| ValidRun(h, run) && After(h, run) == g;
    hide Init, ValidRun, After, Do, Enabled;
    StopChanges(g, p, Own(1));
  }

  lemma AtStop() returns (g: Host)
    ensures Init(OneRunning()) && Reaches(OneRunning(), g) && 2 in g.procs && 2 in g.gates && g.procs[2].verb.Destroy?
    ensures g.procs[2].pc == Removal(STOP, Destroying) && g.procs[2].name == Some(Own(1))
    ensures Own(1) in g.vms && !g.vms[Own(1)].state.Stopped?
  {
    var h := OneRunning();
    var u := LeavesClaim(WAIT_AGENT);
    var s := StartDestroy(h, u, 2, 1);
    hide Init, Reaches, Do, Enabled, Inv, Alone;
    ReachedInv(h, s);
    ReadsClaim(s, 2);
    var r := Do(s, Step(2, GOOD));
    LooksUp(r, 2);
    var l := Do(r, Step(2, GOOD));
    LooksUp(l, 2);
    var v := Do(l, Step(2, GOOD));
    g := ComesToStop(v, 2);
    ReachAlone(h, s, 2, 1, r);
    ReachAlone(h, r, 2, 1, l);
    ReachAlone(h, l, 2, 1, v);
    ReachAlone(h, v, 2, 1, g);
    assert 2 in g.gates by { ProcOfInv(g, 2); }
  }
}
