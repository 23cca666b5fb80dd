/**
 The course of one `up` whose calls succeed and that nothing else on the host disturbs, from every reachable
 state: to its end with the VM up if nothing is in its way, and, once something was, to its end with nothing
 left.
 */
module LifecycleSuccess {
  import opened Wrappers
  import opened SignalGate
  import opened Lifecycle
  import opened LifecycleLocal
  import opened LifecycleProofs
  import opened LifecycleProgress
  import opened LifecycleRecovery

  // One step ---------------------------------------------------------------------------------------

  /** What a step of `up` needs: no claim yet, the cap lock free, room, and in the end a running guest. */
  predicate Unhindered(q: Proc, v: View) {
    && q.pc.Flow? && v.signal.None?
    && (q.pc.at == CLAIM ==> v.claim.None?)
    && (q.pc.at == WAIT_CAP ==> v.capFree)
    && (q.pc.at == COUNT ==> v.room)
    && (q.pc.at == WAIT_AGENT ==> v.running)
  }

  lemma UpMoves(q: Proc, s: Slice, v: View)
    requires FlagsOk(q) && q.verb.Up? && Knows(q, s) && Agrees(v, s) && Unhindered(q, v)
    ensures Possible(q, v, GOOD)
    ensures var (q', e) := Local(q, v, GOOD);
            && q'.pc == (if q.pc.at < PROVISIONED then Flow(q.pc.at + 1) else OuterFinally)
            && q'.done == (q.pc.at == PROVISIONED) && q'.raised.Nothing?
            && q'.verb == q.verb && q'.name == q.name && q'.wt == q.wt
            && (q.pc.at <= COUNT ==> e.NoEffect? || e.PutClaim? || e == Take(CapLock))
            && (q.pc.at < CLAIM ==> e.NoEffect?)
            && (q.pc.at < WAIT_CAP ==> !e.Take?)
            && (q.pc.at == BOOT ==> e.Boot?) && (q.pc.at > BOOT ==> e.NoEffect? || e.Drop?)
  {
  }

  /** What the host must be like for `up` to get on from its present point. */
  ghost predicate WayClear(g: Host, q: Proc) {
    && q.pc.Flow?
    && (q.pc.at <= CLAIM ==> q.wt !in g.claims)
    && (q.pc.at <= WAIT_CAP ==> HolderOf(g, CapLock).Free?)
    && (q.pc.at <= COUNT ==> |RunningVms(g)| < MAX_CONCURRENT_VMS)
    && (q.pc.at == WAIT_AGENT ==> q.name.Some? && q.name.value in g.vms && !g.vms[q.name.value].state.Stopped?)
  }

  /** A process no signal has reached. */
  ghost predicate Unsignalled(g: Host, p: Pid) {
    p in g.gates && g.gates[p].delivered == []
  }

  lemma SeesNoSignal(g: Host, p: Pid)
    requires Inv(g) && p in g.procs && Unsignalled(g, p)
    ensures See(g, p).signal.None?
  {
    hide FlagsOk, Knows;
    assert SignalsOk(g.procs[p], g.gates[p]);
  }

  /** What an effect that starts and stops nothing leaves alone. */
  lemma Spares(g: Host, p: Pid, q: Proc, e: Effect)
    ensures var n := Apply(g, p, q, e);
            && (e.NoEffect? || e.PutClaim? || e.Take? ==> n.vms == g.vms)
            && (e.NoEffect? ==> n.claims == g.claims)
            && (!e.Take? && !e.Drop? ==> n.locks == g.locks)
  {
  }

  lemma BootStarts(g: Host, p: Pid, q: Proc)
    requires q.name.Some? && q.name.value in g.vms
    ensures q.name.value in Apply(g, p, q, Boot).vms && !Apply(g, p, q, Boot).vms[q.name.value].state.Stopped?
  {
  }

  /** With the way clear, and the guest running where it is waited for, `up` takes its next step. */
  lemma UpStepGoes(g: Host, p: Pid)
    requires Inv(g) && p in g.procs && g.procs[p].verb.Up? && WayClear(g, g.procs[p]) && Unsignalled(g, p)
    requires g.procs[p].pc.at == WAIT_AGENT ==> g.vms[g.procs[p].name.value].state.Running?
    ensures Enabled(g, Step(p, GOOD))
    ensures var n, q := Do(g, Step(p, GOOD)), g.procs[p];
            && Alone(g, p, 1, n) && Inv(n) && p in n.procs && n.procs[p].verb.Up? && Unsignalled(n, p)
            && n.procs[p].wt == q.wt && n.procs[p].name == q.name && n.procs[p].raised.Nothing?
            && n.procs[p].done == (q.pc.at == PROVISIONED)
            && n.procs[p].pc == (if q.pc.at < PROVISIONED then Flow(q.pc.at + 1) else OuterFinally)
            && (q.pc.at < PROVISIONED ==> WayClear(n, n.procs[p]))
  {
    hide Inv, FlagsOk, Knows, SignalsOk, Agrees, See, Local, Possible;
    hide Do, Enabled, SliceOf, Unhindered, Alone, SameFiles;
    ReadyToGo(g, p);
    UpMoves(g.procs[p], SliceOf(g, g.procs[p]), See(g, p));
    GoodStepShows(g, p);
    OneStep(g, p);
    if g.procs[p].pc.at < PROVISIONED {
      StaysClear(g, p);
    }
  }

  lemma ReadyToGo(g: Host, p: Pid)
    requires Inv(g) && p in g.procs && g.procs[p].verb.Up? && WayClear(g, g.procs[p]) && Unsignalled(g, p)
    requires g.procs[p].pc.at == WAIT_AGENT ==> g.vms[g.procs[p].name.value].state.Running?
    ensures var q, s := g.procs[p], SliceOf(g, g.procs[p]);
            && p in g.gates && FlagsOk(q) && Knows(q, s) && Agrees(See(g, p), s) && Unhindered(q, See(g, p))
            && (q.pc.at == BOOT ==> q.name.Some? && q.name.value in g.vms)
  {
    hide Inv, FlagsOk, SignalsOk;
    ProcOfInv(g, p);
    SeesNoSignal(g, p);
  }

  /** The step leaves the way clear for the next. */
  lemma StaysClear(g: Host, p: Pid)
    requires p in g.procs && p in g.gates && Enabled(g, Step(p, GOOD)) && WayClear(g, g.procs[p])
    requires g.procs[p].pc.at == BOOT ==> g.procs[p].name.Some? && g.procs[p].name.value in g.vms
    requires var q := g.procs[p];
             var (q', e) := Local(q, See(g, p), GOOD);
             && q.pc.at < PROVISIONED && q'.pc == Flow(q.pc.at + 1) && q'.name == q.name && q'.wt == q.wt
             && (q.pc.at <= COUNT ==> e.NoEffect? || e.PutClaim? || e == Take(CapLock))
             && (q.pc.at < CLAIM ==> e.NoEffect?) && (q.pc.at < WAIT_CAP ==> !e.Take?) && (q.pc.at == BOOT ==> e.Boot?)
    ensures var n := Do(g, Step(p, GOOD)); p in n.procs && WayClear(n, n.procs[p])
  {
    hide Local, Possible, See, Apply;
    var q := g.procs[p];
    var (q', e) := Local(q, See(g, p), GOOD);
    var n := Do(g, Step(p, GOOD));
    Spares(g, p, q, e);
    if q.pc.at == BOOT {
      BootStarts(g, p, q);
    }
    if q.pc.at < COUNT {
      assert RunningVms(n) == RunningVms(g);
    }
  }

  // To the end ---------------------------------------------------------------------------------------

  /** From point to point, as long as the wait for the guest does not come between, or the guest runs. */
  lemma {:induction false} UpGoesTo(g: Host, p: Pid, goal: nat) returns (k: nat, n: Host)
    requires Inv(g) && p in g.procs && g.procs[p].verb.Up? && WayClear(g, g.procs[p]) && Unsignalled(g, p)
    requires g.procs[p].pc.at <= goal <= PROVISIONED
    requires goal <= WAIT_AGENT || g.procs[p].pc.at >= WAIT_AGENT
    requires g.procs[p].pc.at == WAIT_AGENT < goal ==> g.vms[g.procs[p].name.value].state.Running?
    ensures Alone(g, p, k, n) && Inv(n) && p in n.procs && n.procs[p].verb.Up? && Unsignalled(n, p)
    ensures n.procs[p].pc == Flow(goal) && WayClear(n, n.procs[p])
    ensures n.procs[p].wt == g.procs[p].wt && n.procs[p].name == g.procs[p].name
    decreases goal - g.procs[p].pc.at
  {
    hide Inv, Do, Enabled, Alone, Unsignalled;
    if g.procs[p].pc.at == goal {
      k, n := 0, g;
      assert Alone(g, p, 0, g) by { NoStep(g, p); }
    } else {
      UpStepGoes(g, p);
      var m := Do(g, Step(p, GOOD));
      k, n := UpGoesTo(m, p, goal);
      Appended(g, p, 1, m, k, n);
      k := k + 1;
    }
  }

  lemma NoStep(g: Host, p: Pid)
    ensures Alone(g, p, 0, g)
  {
  }

  lemma DoneMoves(q: Proc, v: View)
    requires q.pc.OuterFinally? && q.done
    ensures Possible(q, v, GOOD) && Local(q, v, GOOD) == (q.(pc := LeaveWorktree), NoEffect)
  {
  }

  /** What a finished `up` leaves: its VM, its claim and the identity of the disk, and status 0. */
  ghost predicate IsUp(n: Host, p: Pid, name: Name, wt: Worktree) {
    && p in n.procs && n.procs[p].done && n.procs[p].pc == Ended(0)
    && Recorded(Claimed(n, wt, name)) && Claimed(n, wt, name).claim == Some(Names(name))
  }

  lemma WhatDoneMeans(g: Host, p: Pid, name: Name)
    requires Inv(g) && p in g.procs && g.procs[p].verb.Up? && g.procs[p].pc.LeaveWorktree? && g.procs[p].done
    requires g.procs[p].name == Some(name)
    ensures var s := Claimed(g, g.procs[p].wt, name); Recorded(s) && s.claim == Some(Names(name))
  {
    hide Inv, FlagsOk, SignalsOk;
    ProcOfInv(g, p);
    ClaimedIsSlice(g, g.procs[p], name);
  }

  /** From the last checkpoint `up` ends with 0 and leaves its VM up. */
  lemma Completes(g: Host, p: Pid, name: Name) returns (n: Host)
    requires Inv(g) && p in g.procs && g.procs[p].verb.Up? && g.procs[p].pc == Flow(PROVISIONED) && Unsignalled(g, p)
    requires g.procs[p].name == Some(name)
    ensures Alone(g, p, 4, n) && IsUp(n, p, name, g.procs[p].wt)
  {
    hide Inv, FlagsOk, Knows, SignalsOk, Agrees, See, Local, Possible, Do, Enabled, SliceOf, Alone, Claimed, Recorded;
    UpStepGoes(g, p);
    var a := Do(g, Step(p, GOOD));
    DoneMoves(a.procs[p], See(a, p));
    QuietStep(a, p);
    var b := Do(a, Step(p, GOOD));
    n := Leaves(b, p);
    Appended(g, p, 1, a, 1, b);
    Appended(g, p, 2, b, 2, n);
    NoSignalsAlone(g, p, 4, n);
    StatusOf(n, p);
    WhatDoneMeans(b, p, name);
    SameClaimed(b, n, g.procs[p].wt, name);
  }

  lemma SameClaimed(g: Host, n: Host, wt: Worktree, name: Name)
    requires SameFiles(g, n)
    ensures Claimed(n, wt, name) == Claimed(g, wt, name)
  {
  }

  /** The guest gets listed, if it was still starting. */
  ghost function Listing(g: Host, name: Name): Host {
    if name in g.vms && g.vms[name].state.Starting? then Do(g, Listed(name)) else g
  }

  lemma ListingKeeps(g: Host, p: Pid, name: Name)
    requires Inv(g) && p in g.procs && p in g.gates && name in g.vms && !g.vms[name].state.Stopped?
    ensures var n := Listing(g, name);
            && Inv(n) && n.procs == g.procs && n.gates == g.gates && n.claims == g.claims
            && name in n.vms && n.vms[name].state.Running?
  {
    hide Inv;
    if g.vms[name].state.Starting? {
      EventKeeps(g, Listed(name));
    }
  }

  /** From the wait for the guest on, with the guest running, or from any later point. */
  lemma UpFinishes(g: Host, p: Pid, name: Name) returns (k: nat, n: Host)
    requires Inv(g) && p in g.procs && g.procs[p].verb.Up? && g.procs[p].pc.Flow? && Unsignalled(g, p)
    requires g.procs[p].name == Some(name) && WAIT_AGENT <= g.procs[p].pc.at <= PROVISIONED
    requires g.procs[p].pc.at == WAIT_AGENT ==> name in g.vms && g.vms[name].state.Running?
    ensures Alone(g, p, k, n) && IsUp(n, p, name, g.procs[p].wt)
  {
    hide Inv, Alone, IsUp, Unsignalled;
    var m;
    k, m := UpGoesTo(g, p, PROVISIONED);
    n := Completes(m, p, name);
    Appended(g, p, k, m, 4, n);
    k := k + 4;
  }

  /**
   In every reachable state, let an `up` have the worktree and no signal. If there is no claim yet, the cap lock
   is free and the Mac has room, as far as it still needs them, then left alone and with calls that succeed it
   gets as far as waiting for its guest; and once that is listed it ends with 0, with its VM there, its claim
   naming it and the identity of its disk recorded.
   */
  lemma UpSucceeds(h: Host, run: seq<Event>, p: Pid, name: Name) returns (j: nat, b: Host, k: nat, n: Host)
    requires Init(h) && ValidRun(h, run) && p in After(h, run).procs && After(h, run).procs[p].verb.Up?
    requires After(h, run).procs[p].name == Some(name) && After(h, run).procs[p].pc.Flow?
    requires After(h, run).procs[p].pc.at <= WAIT_AGENT
    requires WayClear(After(h, run), After(h, run).procs[p]) && Unsignalled(After(h, run), p)
    ensures Alone(After(h, run), p, j, b) && Alone(Listing(b, name), p, k, n)
    ensures IsUp(n, p, name, After(h, run).procs[p].wt)
  {
    hide Init, ValidRun, After, Inv, Alone, IsUp, Do, Enabled;
    AlwaysInv(h, run);
    j, b := UpGoesTo(After(h, run), p, WAIT_AGENT);
    ListingKeeps(b, p, name);
    k, n := UpFinishes(Listing(b, name), p, name);
  }

  // Cleaning up --------------------------------------------------------------------------------------

  /** `up` is in a handler, or in the removal a handler began. */
  predicate Handling(q: Proc) {
    || q.pc.InnerHandler? || q.pc.InnerLeaveCap?
    || q.pc.OuterFinally? || q.pc.OuterWaitCap? || q.pc.OuterLeaveCap?
    || q.pc.Removal?
  }

  /** Nothing stands in the way of its next step: the cap lock is free where it is wanted, no list contradicts it. */
  predicate Unopposed(q: Proc, s: Slice, capFree: bool) {
    && Handling(q) && q.verb.Up? && !q.past.problem
    && (q.pc.Removal? ==> Undisputed(q, s))
    && (q.pc.OuterFinally? || q.pc.OuterWaitCap? ==> capFree)
  }

  lemma HandlerMoves(q: Proc, s: Slice, v: View, prompt: bool)
    requires FlagsOk(q) && Agrees(v, s) && Unopposed(q, s, v.capFree)
    ensures Possible(q, v, GOOD)
    ensures var (q', e) := Local(q, v, GOOD);
            && Rank(q') < Rank(q) && (q'.pc.LeaveWorktree? || Handling(q')) && !q'.past.problem
            && q'.verb == q.verb && q'.name == q.name && q'.wt == q.wt && q'.raised == q.raised && q'.done == q.done
            && (q'.pc.Removal? ==> Undisputed(q', Touch(s, q, e, prompt)))
            && (q'.pc.OuterFinally? ==> e == Drop(CapLock)) && (q'.pc.OuterWaitCap? ==> e.NoEffect? && v.capFree)
  {
  }

  lemma CapAfterStep(g: Host, p: Pid)
    requires p in g.procs && p in g.gates && Enabled(g, Step(p, GOOD))
    ensures var e := Local(g.procs[p], See(g, p), GOOD).1;
            HolderOf(Do(g, Step(p, GOOD)), CapLock) == HolderAfter(HolderOf(g, CapLock), p, e, CapLock)
  {
    hide Local, Possible, See, Apply;
    ApplyHolders(g, p, g.procs[p], Local(g.procs[p], See(g, p), GOOD).1);
  }

  lemma SeesCap(g: Host, p: Pid)
    requires p in g.procs && p in g.gates
    ensures See(g, p).capFree == HolderOf(g, CapLock).Free?
  {
  }

  ghost predicate UnopposedAt(g: Host, p: Pid) {
    p in g.procs && Unopposed(g.procs[p], SliceOf(g, g.procs[p]), HolderOf(g, CapLock).Free?)
  }

  lemma HandlerStepGoes(g: Host, p: Pid)
    requires Inv(g) && UnopposedAt(g, p)
    ensures Enabled(g, Step(p, GOOD))
    ensures var n, q := Do(g, Step(p, GOOD)), g.procs[p];
            && Alone(g, p, 1, n) && Inv(n) && p in n.procs && Rank(n.procs[p]) < Rank(q) && !n.procs[p].past.problem
            && n.procs[p].verb == q.verb && n.procs[p].name == q.name && n.procs[p].wt == q.wt
            && n.procs[p].raised == q.raised && n.procs[p].done == q.done
            && (n.procs[p].pc.LeaveWorktree? || UnopposedAt(n, p))
  {
    hide Inv, FlagsOk, Knows, SignalsOk, Agrees, See, Local, Possible, Do, Enabled;
    hide SliceOf, Alone, SameFiles, Rank, Undisputed, HolderOf, Touch;
    ProcOfInv(g, p);
    SeesCap(g, p);
    HandlerMoves(g.procs[p], SliceOf(g, g.procs[p]), See(g, p), g.prompt);
    GoodStepShows(g, p);
    CapAfterStep(g, p);
    OneStep(g, p);
  }

  lemma {:induction false} HandlersGo(g: Host, p: Pid) returns (k: nat, n: Host)
    requires Inv(g) && UnopposedAt(g, p)
    ensures Alone(g, p, k, n) && Inv(n) && p in n.procs && n.procs[p].pc.LeaveWorktree? && !n.procs[p].past.problem
    ensures n.procs[p].verb == g.procs[p].verb && n.procs[p].name == g.procs[p].name
    ensures n.procs[p].wt == g.procs[p].wt && n.procs[p].raised == g.procs[p].raised
    ensures n.procs[p].done == g.procs[p].done
    decreases Rank(g.procs[p])
  {
    hide Inv, Do, Enabled, Alone, UnopposedAt, Rank;
    HandlerStepGoes(g, p);
    n, k := Do(g, Step(p, GOOD)), 1;
    if !n.procs[p].pc.LeaveWorktree? {
      var m := n;
      k, n := HandlersGo(m, p);
      Appended(g, p, 1, m, k, n);
      k := k + 1;
    }
  }

  lemma WhatCleanMeans(g: Host, p: Pid, name: Name)
    requires Inv(g) && p in g.procs && g.procs[p].verb.Up? && g.procs[p].pc.LeaveWorktree?
    requires g.procs[p].name == Some(name)
    requires !g.procs[p].done && !g.procs[p].past.problem
    ensures g.procs[p].claimed ==> Gone(Claimed(g, g.procs[p].wt, name))
    ensures !g.procs[p].claimed ==> name !in g.vms
    ensures !g.procs[p].raised.Nothing?
  {
    hide Inv, SignalsOk;
    ProcOfInv(g, p);
    ClaimedIsSlice(g, g.procs[p], name);
  }

  /**
   In every reachable state, let an `up` be in a handler or in the removal that one began, with no call of that
   having failed. Left alone, with calls that succeed and the cap lock free where it wants it, it comes to its
   end: its VM is gone, and if it claimed, so are claim and identity; its status is 1, or that of its first signal.
   */
  lemma UpCleansUp(h: Host, run: seq<Event>, p: Pid, name: Name) returns (k: nat, n: Host)
    requires Init(h) && ValidRun(h, run) && p in After(h, run).procs && After(h, run).procs[p].name == Some(name)
    requires UnopposedAt(After(h, run), p) && !After(h, run).procs[p].done
    ensures var g := After(h, run);
            && Alone(g, p, k, n) && p in n.procs && p in g.gates
            && n.procs[p].pc == Ended(if g.gates[p].delivered != [] then 128 + g.gates[p].delivered[0] else 1)
            && name !in n.vms && (n.procs[p].claimed ==> Gone(Claimed(n, g.procs[p].wt, name)))
  {
    hide Init, ValidRun, After, Inv;
    AlwaysInv(h, run);
    k, n := CleansUp(After(h, run), p, name);
  }

  lemma CleansUp(g: Host, p: Pid, name: Name) returns (k: nat, n: Host)
    requires Inv(g) && UnopposedAt(g, p) && g.procs[p].name == Some(name) && !g.procs[p].done
    ensures Alone(g, p, k, n) && p in n.procs && p in g.gates
    ensures n.procs[p].pc == Ended(if g.gates[p].delivered != [] then 128 + g.gates[p].delivered[0] else 1)
    ensures name !in n.vms && (n.procs[p].claimed ==> Gone(Claimed(n, g.procs[p].wt, name)))
  {
    hide Inv, Do, Enabled, Alone, FlagsOk, Knows, SignalsOk, Agrees, SliceOf, See;
    var m;
    k, m := HandlersGo(g, p);
    n := Leaves(m, p);
    Appended(g, p, k, m, 2, n);
    k := k + 2;
    ProcOfInv(g, p);
    NoSignalsAlone(g, p, k, n);
    StatusOf(n, p);
    WhatCleanMeans(m, p, name);
    SameClaimed(m, n, g.procs[p].wt, name);
    NotCancelled(n, p);
  }

  /** A process that ended with a cancel had a signal. */
  lemma NotCancelled(g: Host, p: Pid)
    requires Inv(g) && p in g.procs
    ensures p in g.gates && (g.procs[p].raised.Cancelled? ==> g.gates[p].delivered != [])
  {
    hide FlagsOk, Knows;
    assert SignalsOk(g.procs[p], g.gates[p]);
  }
}
