/**
 Safety of `Lifecycle` over every run: what all interleavings of `up`, `destroy`, signals, abandoned
 waiters and guests keep, and what it means when a run of `up` or `destroy` ends.
 */
module LifecycleProofs {
  import opened Wrappers
  import opened SignalGate
  import opened Lifecycle
  import opened LifecycleLocal

  ghost function SliceOf(h: Host, q: Proc): Slice {
    Slice(
      if q.name.Some? && q.name.value in h.vms then Some(h.vms[q.name.value]) else None,
      if q.wt in h.claims then Some(h.claims[q.wt]) else None,
      if q.wt in h.identities then Some(h.identities[q.wt]) else None)
  }

  // The invariant ------------------------------------------------------------------------

  ghost predicate ProcsOk(h: Host) {
    forall p | p in h.procs :: p in h.gates && FlagsOk(h.procs[p]) && SignalsOk(h.procs[p], h.gates[p])
  }

  ghost predicate KnowledgeOk(h: Host) {
    forall p | p in h.procs :: Knows(h.procs[p], SliceOf(h, h.procs[p]))
  }

  /** The program point is inside the `with` of lock `l`. */
  predicate Inside(q: Proc, l: Lock) {
    match l
    case CapLock => InCap(q)
    case WorktreeLock(wt) => wt == q.wt && InWorktree(q)
  }

  /** A lock is held by exactly the process whose program point is inside its `with`. */
  ghost predicate LocksOk(h: Host) {
    && (forall p, l | p in h.procs :: Inside(h.procs[p], l) <==> HolderOf(h, l) == Held(p))
    && (forall l | HolderOf(h, l).Held? :: HolderOf(h, l).pid in h.procs)
  }

  /** Names are never shared: between two `up`s, or between worktrees. */
  ghost predicate NamesOk(h: Host) {
    && (forall p | p in h.procs && h.procs[p].verb.Up? ::
          h.procs[p].name.Some? && h.procs[p].name.value in h.made && h.made[h.procs[p].name.value] == h.procs[p].wt)
    && (forall p1, p2 | p1 in h.procs && p2 in h.procs && p1 != p2 && h.procs[p1].verb.Up? && h.procs[p2].verb.Up? ::
          h.procs[p1].name != h.procs[p2].name)
    && (forall p | p in h.procs && h.procs[p].name.Some? && h.procs[p].name.value in h.made ::
          h.made[h.procs[p].name.value] == h.procs[p].wt)
  }

  /** The VMs started or running, apart from those leaked while they were still starting. */
  ghost function Exposed(h: Host): set<Name> {
    set n | n in h.vms && !h.vms[n].state.Stopped? && n !in h.leaked
  }

  /** The VM is still starting under the cap lock of the process that started it. */
  ghost predicate Attended(h: Host, n: Name) {
    var holder := HolderOf(h, CapLock);
    holder.Held? && holder.pid in h.procs && h.procs[holder.pid].name == Some(n)
  }

  ghost predicate CapOk(h: Host) {
    && |Exposed(h)| <= MAX_CONCURRENT_VMS
    && (forall p | p in h.procs && SlotReserved(h.procs[p]) :: |Exposed(h)| < MAX_CONCURRENT_VMS)
    && (forall n | n in h.vms && h.vms[n].state.Starting? && n !in h.leaked :: Attended(h, n))
    && (h.prompt ==> h.leaked == {} && forall n | n in h.vms :: !h.vms[n].state.Starting?)
  }

  /** The failed removal that left `n` starting. */
  ghost predicate LeftBehind(h: Host, n: Name, p: Pid) {
    p in h.procs && h.procs[p].verb.Up? && h.procs[p].name == Some(n) && h.procs[p].past.problem
  }

  /** A VM is leaked only by an `up` whose removal failed. */
  ghost predicate LeaksOk(h: Host) {
    forall n | n in h.leaked :: exists p :: LeftBehind(h, n, p)
  }

  /** A lock held in passing is held by a waiter that is still there to close it. */
  ghost predicate WaitersOk(h: Host) {
    forall l | HolderOf(h, l).Passing? :: (HolderOf(h, l).pid, l) in h.abandoned
  }

  ghost predicate Inv(h: Host) {
    && WaitersOk(h) && LeaksOk(h) && ProcsOk(h) && KnowledgeOk(h) && LocksOk(h)
    && NamesOk(h) && CapOk(h) && ClaimsAreOwn(h) && VmsAreClaimed(h)
  }

  // A step of a process -------------------------------------------------------------------

  /** `h'` is `h` after process `p` moved to `q'` with effect `e`. */
  ghost predicate Moves(h: Host, p: Pid, q': Proc, e: Effect, h': Host) {
    && p in h.procs && p in h.gates
    && EffectOk(h.procs[p], See(h, p), q', e)
    && h' == Apply(h, p, h.procs[p], e).(procs := h.procs[p := q'], gates := h'.gates)
  }

  function HolderAfter(before: Holder, p: Pid, e: Effect, l: Lock): Holder {
    if e == Take(l) then Held(p) else if e == Drop(l) then Free else before
  }

  lemma ApplyHolders(h: Host, p: Pid, q: Proc, e: Effect)
    ensures forall l :: HolderOf(Apply(h, p, q, e), l) == HolderAfter(HolderOf(h, l), p, e, l)
  {
  }

  lemma InsideAfter(q: Proc, v: View, q': Proc, e: Effect)
    requires EffectOk(q, v, q', e)
    ensures forall l :: Inside(q', l) == InAfter(Inside(q, l), e, l)
    ensures forall l :: e == Drop(l) ==> Inside(q, l)
  {
    hide InCap, InWorktree, SlotReserved;
  }

  lemma LocksKeep(h: Host, p: Pid, q': Proc, e: Effect, h': Host)
    requires LocksOk(h) && p in h.procs && h'.procs == h.procs[p := q']
    requires forall l :: HolderOf(h', l) == HolderAfter(HolderOf(h, l), p, e, l)
    requires forall l :: Inside(q', l) == InAfter(Inside(h.procs[p], l), e, l)
    requires forall l :: e == Drop(l) ==> Inside(h.procs[p], l)
    requires e.Take? ==> HolderOf(h, e.lock).Free?
    ensures LocksOk(h')
  {
    hide Inside, HolderOf;
  }

  lemma NamesKeep(h: Host, p: Pid, q': Proc, e: Effect, h': Host)
    requires NamesOk(h) && ClaimsAreOwn(h) && Moves(h, p, q', e, h')
    ensures NamesOk(h')
  {
    assert h'.made == h.made;
  }

  /** What a process must know to put, drop or rely on its claim. */
  ghost predicate ClaimStepOk(h: Host, q: Proc, e: Effect) {
    var s := SliceOf(h, q);
    && (e.PutClaim? ==> s.claim.None? && q.name.Some? && q.name.value in h.made && h.made[q.name.value] == q.wt)
    && (e.DropClaim? ==> ClaimIs(s, q.name) && s.vm.None?)
    && (e.Create? ==> q.name.Some? && ClaimIs(s, q.name) && q.name.value in h.made && h.made[q.name.value] == q.wt)
  }

  lemma ClaimStep(h: Host, q: Proc, v: View, q': Proc, e: Effect)
    requires Knows(q, SliceOf(h, q)) && Agrees(v, SliceOf(h, q)) && FlagsOk(q) && EffectOk(q, v, q', e)
    requires q.verb.Up? ==> q.name.Some? && q.name.value in h.made && h.made[q.name.value] == q.wt
    ensures ClaimStepOk(h, q, e)
  {
    hide InCap, InWorktree, SlotReserved, SliceOf;
  }

  lemma SeeAgrees(h: Host, p: Pid)
    requires p in h.procs && p in h.gates
    ensures Agrees(See(h, p), SliceOf(h, h.procs[p]))
  {
  }

  lemma ClaimsKeep(h: Host, p: Pid, q: Proc, e: Effect)
    requires ClaimsAreOwn(h) && VmsAreClaimed(h) && ClaimStepOk(h, q, e)
    ensures ClaimsAreOwn(Apply(h, p, q, e)) && VmsAreClaimed(Apply(h, p, q, e))
  {
  }

  // Knowledge ----------------------------------------------------------------------------

  lemma SliceAfter(h: Host, p: Pid, q: Proc, e: Effect)
    ensures SliceOf(Apply(h, p, q, e), q) == Touch(SliceOf(h, q), q, e, h.prompt)
  {
  }

  /** Another party stopped, started or listed the VM, or at most removed it. */
  ghost predicate Weakened(s: Slice, s': Slice) {
    && s'.claim == s.claim && s'.identity == s.identity
    && (s'.vm.Some? ==> s.vm.Some? && s'.vm.value.disk == s.vm.value.disk)
    && (s'.vm.Some? && s'.vm.value.state.Starting? ==> s.vm.value.state.Starting?)
    && (s'.vm.Some? && s.vm.value.state.Stopped? ==> s'.vm.value.state.Stopped?)
  }

  lemma DestroyKnowsWeakened(q: Proc, s: Slice, s': Slice)
    requires Knows(q, s) && Weakened(s, s')
    requires q.verb.Destroy? || (s.vm.Some? ==> s'.vm.Some?)
    ensures Knows(q, s')
  {
  }

  lemma OutsideKnows(q: Proc, s: Slice, s': Slice)
    requires Knows(q, s) && !InWorktree(q)
    requires s'.vm.Some? ==> s.vm.Some? || (q.verb.Destroy? && q.name.Some?)
    requires q.verb.Up? && ClaimIs(s', q.name) ==> ClaimIs(s, q.name)
    ensures Knows(q, s')
  {
  }

  /** Two processes are never inside the same worktree's lock. */
  lemma WorktreesExclude(h: Host, p: Pid, p2: Pid)
    requires LocksOk(h) && p in h.procs && p2 in h.procs && p != p2
    ensures !(h.procs[p].wt == h.procs[p2].wt && InWorktree(h.procs[p]) && InWorktree(h.procs[p2]))
  {
    var l := WorktreeLock(h.procs[p].wt);
    assert Inside(h.procs[p], l) <==> HolderOf(h, l) == Held(p);
    assert Inside(h.procs[p2], l) <==> HolderOf(h, l) == Held(p2);
  }

  /** Two processes share a name only as a worktree's `up` and `destroy`, or as two `destroy`s of corrupt claims. */
  ghost predicate NamesApart(q: Proc, q2: Proc) {
    q.name.Some? && q.name == q2.name ==>
      (q.wt == q2.wt && !(q.verb.Up? && q2.verb.Up?)) || (q.verb.Destroy? && q2.verb.Destroy?)
  }

  lemma NamesAreApart(h: Host, p: Pid, p2: Pid)
    requires NamesOk(h) && p in h.procs && p2 in h.procs && p != p2
    ensures NamesApart(h.procs[p], h.procs[p2])
  {
  }

  /** A process works on its own worktree's files only. */
  lemma FilesOfOther(h: Host, p: Pid, q: Proc, e: Effect, q2: Proc)
    requires q.wt != q2.wt || e.NoEffect? || e.Abandon? || e.Take? || e.Drop?
    ensures var s, s' := SliceOf(h, q2), SliceOf(Apply(h, p, q, e), q2);
            s'.claim == s.claim && s'.identity == s.identity
  {
  }

  /** A process changes another's VM only from the same worktree, or as `destroy` against `destroy`. */
  lemma VmOfOther(h: Host, p: Pid, q: Proc, e: Effect, q2: Proc)
    requires NamesApart(q, q2)
    requires e.Create? || e.Boot? ==> q.verb.Up?
    ensures var s, s' := SliceOf(h, q2), SliceOf(Apply(h, p, q, e), q2);
            && (s'.vm.Some? ==> s.vm.Some? || (q2.verb.Destroy? && q2.name.Some?))
            && (q.wt != q2.wt ==> s'.vm.Some? ==> s.vm.Some? && s'.vm.value.disk == s.vm.value.disk)
            && (q.wt != q2.wt ==> s'.vm.Some? && s'.vm.value.state.Starting? ==> s.vm.value.state.Starting?)
            && (q.wt != q2.wt ==> s'.vm.Some? && s.vm.value.state.Stopped? ==> s'.vm.value.state.Stopped?)
            && (q.wt != q2.wt && q2.verb.Up? ==> s'.vm == s.vm)
            && (e.NoEffect? || e.Abandon? || e.Take? || e.Drop? ==> s'.vm == s.vm)
  {
  }

  /** No other process writes a claim that names an `up`'s VM. */
  lemma ClaimOfOther(h: Host, p: Pid, q: Proc, e: Effect, q2: Proc)
    requires NamesApart(q, q2) && q2.verb.Up? && q2.name.Some? && (e.PutClaim? ==> q.verb.Up?)
    ensures ClaimIs(SliceOf(Apply(h, p, q, e), q2), q2.name) ==> ClaimIs(SliceOf(h, q2), q2.name)
  {
  }

  /** What a process knows survives a step of any other process. */
  lemma OthersKnow(h: Host, p: Pid, v: View, q': Proc, e: Effect, p2: Pid)
    requires LocksOk(h) && NamesOk(h) && p in h.procs && p2 in h.procs && p2 != p
    requires EffectOk(h.procs[p], v, q', e)
    requires Knows(h.procs[p2], SliceOf(h, h.procs[p2]))
    ensures Knows(h.procs[p2], SliceOf(Apply(h, p, h.procs[p], e), h.procs[p2]))
  {
    assert h.procs[p2].verb.Up? ==> h.procs[p2].name.Some?;
    hide Knows, InCap, InWorktree, SlotReserved, LocksOk, NamesOk, SliceOf, Apply;
    var q, q2 := h.procs[p], h.procs[p2];
    var s, s' := SliceOf(h, q2), SliceOf(Apply(h, p, q, e), q2);
    WorktreesExclude(h, p, p2);
    NamesAreApart(h, p, p2);
    VmOfOther(h, p, q, e, q2);
    if InWorktree(q2) {
      FilesOfOther(h, p, q, e, q2);
      DestroyKnowsWeakened(q2, s, s');
    } else {
      if q2.verb.Up? {
        ClaimOfOther(h, p, q, e, q2);
      }
      OutsideKnows(q2, s, s');
    }
  }

  // The cap ------------------------------------------------------------------------------

  lemma SubsetCounts(a: set<Name>, b: set<Name>)
    requires a <= b
    ensures |a| <= |b|
  {
    if a != {} {
      var x :| x in a;
      SubsetCounts(a - {x}, b - {x});
    }
  }

  /** Counting the running VMs under the cap lock counts every exposed one. */
  lemma CountingIsEnough(h: Host, p: Pid)
    requires CapOk(h) && LocksOk(h) && p in h.procs && InCap(h.procs[p])
    requires SliceOf(h, h.procs[p]).vm.None?
    ensures Exposed(h) <= RunningVms(h) && |Exposed(h)| <= |RunningVms(h)|
  {
    hide InCap, SlotReserved;
    assert Inside(h.procs[p], CapLock);
    SubsetCounts(Exposed(h), RunningVms(h));
  }

  /** Only a boot can expose a VM that was not exposed before. */
  lemma ExposedAfter(h: Host, p: Pid, q: Proc, e: Effect)
    requires e.Create? ==> SliceOf(h, q).vm.None?
    ensures !e.Boot? ==> Exposed(Apply(h, p, q, e)) <= Exposed(h)
    ensures e.Boot? && q.name.Some? ==> Exposed(Apply(h, p, q, e)) <= Exposed(h) + {q.name.value}
    ensures |Exposed(Apply(h, p, q, e))| <= |Exposed(h)| + (if e.Boot? then 1 else 0)
  {
    var before, after := Exposed(h), Exposed(Apply(h, p, q, e));
    if e.Boot? && q.name.Some? {
      SubsetCounts(after, before + {q.name.value});
    } else {
      SubsetCounts(after, before);
    }
  }

  lemma AttendedAfter(h: Host, p: Pid, q: Proc, q': Proc, e: Effect, h': Host, n: Name)
    requires CapOk(h) && LocksOk(h) && p in h.procs && q == h.procs[p]
    requires h'.vms == Apply(h, p, q, e).vms && h'.leaked == Apply(h, p, q, e).leaked
    requires h'.locks == Apply(h, p, q, e).locks && h'.procs == h.procs[p := q']
    requires q'.name == q.name || !Inside(q, CapLock)
    requires e == Drop(CapLock) || e.Boot? ==> Inside(q, CapLock)
    requires e == Take(CapLock) ==> HolderOf(h, CapLock).Free?
    requires n in h'.vms && h'.vms[n].state.Starting? && n !in h'.leaked
    ensures Attended(h', n)
  {
    hide InCap, SlotReserved, Inside;
    ApplyHolders(h, p, q, e);
    assert HolderOf(h', CapLock) == HolderAfter(HolderOf(h, CapLock), p, e, CapLock);
    assert Inside(q, CapLock) <==> HolderOf(h, CapLock) == Held(p);
    if n in h.vms && h.vms[n].state.Starting? {
      assert Attended(h, n);
    } else {
      assert e.Boot? && q.name == Some(n);
    }
  }

  /** Every step of a process keeps the cap. */
  lemma CapKeep(h: Host, p: Pid, q': Proc, e: Effect, h': Host)
    requires CapOk(h) && LocksOk(h) && Moves(h, p, q', e, h') && FlagsOk(h.procs[p])
    requires Knows(h.procs[p], SliceOf(h, h.procs[p]))
    ensures CapOk(h')
  {
    var q := h.procs[p];
    ReservedAfter(h, p, q', e);
    assert Exposed(h') == Exposed(Apply(h, p, q, e));
    forall n | n in h'.vms && h'.vms[n].state.Starting? && n !in h'.leaked
      ensures Attended(h', n)
    {
      AttendedAfter(h, p, q, q', e, h', n);
    }
  }

  lemma ReservedAfter(h: Host, p: Pid, q': Proc, e: Effect)
    requires CapOk(h) && LocksOk(h) && p in h.procs && p in h.gates && FlagsOk(h.procs[p])
    requires EffectOk(h.procs[p], See(h, p), q', e)
    requires Knows(h.procs[p], SliceOf(h, h.procs[p]))
    ensures |Exposed(Apply(h, p, h.procs[p], e))| <= MAX_CONCURRENT_VMS
    ensures SlotReserved(q') ==> |Exposed(Apply(h, p, h.procs[p], e))| < MAX_CONCURRENT_VMS
    ensures forall p2 | p2 in h.procs && p2 != p && SlotReserved(h.procs[p2]) ::
              |Exposed(Apply(h, p, h.procs[p], e))| < MAX_CONCURRENT_VMS
  {
    var q := h.procs[p];
    ExposedAfter(h, p, q, e);
    if SlotReserved(q') && !SlotReserved(q) {
      CountingIsEnough(h, p);
    }
    forall p2 | p2 in h.procs && p2 != p && SlotReserved(h.procs[p2])
      ensures !e.Boot?
    {
      assert Inside(h.procs[p2], CapLock);
      assert Inside(q, CapLock) <==> HolderOf(h, CapLock) == Held(p);
    }
  }

  // Every event keeps the invariant --------------------------------------------------------

  lemma ProcsKeep(h: Host, p: Pid, a: Action)
    requires ProcsOk(h) && Enabled(h, Step(p, a))
    ensures ProcsOk(Do(h, Step(p, a)))
  {
    hide FlagsOk, SignalsOk, Local, Polls, Apply, Possible;
    var q, v := h.procs[p], See(h, p);
    FlagsKeep(q, v, a);
    SignalsKeep(q, h.gates[p], v, a);
  }

  lemma KnowledgeKeeps(h: Host, p: Pid, a: Action)
    requires Inv(h) && Enabled(h, Step(p, a))
    ensures KnowledgeOk(Do(h, Step(p, a)))
  {
    hide FlagsOk, SignalsOk, Local, Polls, Apply, Possible, Knows, LocksOk, NamesOk, CapOk, ClaimsAreOwn, VmsAreClaimed;
    var q, v := h.procs[p], See(h, p);
    var (q', e) := Local(q, v, a);
    var h' := Do(h, Step(p, a));
    var applied := Apply(h, p, q, e);
    StepEffectOk(q, v, a);
    SeeAgrees(h, p);
    SliceAfter(h, p, q, e);
    KnowsKeep(q, SliceOf(h, q), v, a, h.prompt, SliceOf(h', q'));
    forall p2 | p2 in h'.procs && p2 != p
      ensures Knows(h'.procs[p2], SliceOf(h', h'.procs[p2]))
    {
      OthersKnow(h, p, v, q', e, p2);
      assert SliceOf(h', h.procs[p2]) == SliceOf(applied, h.procs[p2]);
    }
  }

  lemma LocksKeepMoves(h: Host, p: Pid, q': Proc, e: Effect, h': Host)
    requires LocksOk(h) && Moves(h, p, q', e, h')
    ensures LocksOk(h')
  {
    hide LocksOk, InCap, InWorktree, SlotReserved;
    var q := h.procs[p];
    ApplyHolders(h, p, q, e);
    assert forall l :: HolderOf(h', l) == HolderOf(Apply(h, p, q, e), l);
    InsideAfter(q, See(h, p), q', e);
    LocksKeep(h, p, q', e, h');
  }

  lemma ClaimsKeepMoves(h: Host, p: Pid, q': Proc, e: Effect, h': Host)
    requires ClaimsAreOwn(h) && VmsAreClaimed(h) && NamesOk(h) && Moves(h, p, q', e, h')
    requires Knows(h.procs[p], SliceOf(h, h.procs[p])) && FlagsOk(h.procs[p])
    ensures ClaimsAreOwn(h') && VmsAreClaimed(h')
  {
    hide Knows, FlagsOk, EffectOk;
    var q := h.procs[p];
    SeeAgrees(h, p);
    ClaimStep(h, q, See(h, p), q', e);
    ClaimsKeep(h, p, q, e);
  }

  /** `up` lets the cap lock go with its VM still starting only if the removal failed. */
  lemma LeavesStartingVm(q: Proc, s: Slice, v: View, q': Proc, e: Effect)
    requires FlagsOk(q) && Knows(q, s) && EffectOk(q, v, q', e)
    requires e == Drop(CapLock) && s.vm.Some? && s.vm.value.state.Starting?
    ensures q.verb.Up? && q.past.problem
  {
    hide InCap, InWorktree, SlotReserved;
  }

  lemma LeakedAfter(h: Host, p: Pid, q: Proc, e: Effect)
    ensures var s, after := SliceOf(h, q), Apply(h, p, q, e).leaked;
            || after == h.leaked
            || (&& e == Drop(CapLock) && q.name.Some? && after == h.leaked + {q.name.value}
                && s.vm.Some? && s.vm.value.state.Starting?)
  {
  }

  lemma LeaksKeep(h: Host, p: Pid, q': Proc, e: Effect, h': Host)
    requires LeaksOk(h) && Moves(h, p, q', e, h') && FlagsOk(h.procs[p])
    requires Knows(h.procs[p], SliceOf(h, h.procs[p]))
    ensures LeaksOk(h')
  {
    hide InCap, InWorktree, SlotReserved, FlagsOk, Knows, InAfter, See, Apply, SliceOf;
    var q := h.procs[p];
    LeakedAfter(h, p, q, e);
    assert forall n, p2 | LeftBehind(h, n, p2) :: LeftBehind(h', n, p2);
    if h'.leaked != h.leaked {
      LeavesStartingVm(q, SliceOf(h, q), See(h, p), q', e);
      assert LeftBehind(h', q.name.value, p);
    }
  }

  lemma WaitersKeep(h: Host, p: Pid, q': Proc, e: Effect, h': Host)
    requires WaitersOk(h) && Moves(h, p, q', e, h')
    ensures WaitersOk(h')
  {
    hide EffectOk, See;
    ApplyHolders(h, p, h.procs[p], e);
    assert forall l :: HolderOf(h', l) == HolderOf(Apply(h, p, h.procs[p], e), l);
  }

  lemma StepKeeps(h: Host, p: Pid, a: Action)
    requires Inv(h) && Enabled(h, Step(p, a))
    ensures Inv(Do(h, Step(p, a)))
  {
    hide FlagsOk, SignalsOk, Local, Polls, Apply, Possible, Knows, EffectOk;
    hide LocksOk, NamesOk, CapOk, LeaksOk, WaitersOk, ClaimsAreOwn, VmsAreClaimed;
    var q, v := h.procs[p], See(h, p);
    var (q', e) := Local(q, v, a);
    var h' := Do(h, Step(p, a));
    ProcsKeep(h, p, a);
    KnowledgeKeeps(h, p, a);
    StepEffectOk(q, v, a);
    assert Moves(h, p, q', e, h');
    LocksKeepMoves(h, p, q', e, h');
    NamesKeep(h, p, q', e, h');
    ClaimsKeepMoves(h, p, q', e, h');
    CapKeep(h, p, q', e, h');
    LeaksKeep(h, p, q', e, h');
    WaitersKeep(h, p, q', e, h');
  }

  /** Nothing a process relies on changed: only VM states, and locks no process held or holds. */
  ghost predicate Undisturbed(h: Host, h': Host) {
    && h'.(gates := h.gates, vms := h.vms, locks := h.locks, abandoned := h.abandoned) == h
    && (forall l, p :: HolderOf(h', l) == Held(p) <==> HolderOf(h, l) == Held(p))
    && h'.vms.Keys == h.vms.Keys
    && forall n | n in h.vms ::
         && h'.vms[n].disk == h.vms[n].disk
         && (h'.vms[n].state.Starting? ==> h.vms[n].state.Starting?)
         && (!h'.vms[n].state.Stopped? ==> !h.vms[n].state.Stopped?)
  }

  lemma UndisturbedCap(h: Host, h': Host)
    requires CapOk(h) && Undisturbed(h, h')
    ensures CapOk(h')
  {
    hide SlotReserved;
    SubsetCounts(Exposed(h'), Exposed(h));
    forall n | n in h'.vms && h'.vms[n].state.Starting? && n !in h'.leaked
      ensures Attended(h', n)
    {
      assert Attended(h, n);
      assert HolderOf(h', CapLock) == Held(HolderOf(h, CapLock).pid);
    }
  }

  lemma UndisturbedKeeps(h: Host, h': Host)
    requires Inv(h) && ProcsOk(h') && WaitersOk(h') && Undisturbed(h, h')
    ensures Inv(h')
  {
    hide FlagsOk, SignalsOk, Knows, Inside, CapOk;
    assert KnowledgeOk(h') by {
      forall p | p in h.procs
        ensures Knows(h'.procs[p], SliceOf(h', h'.procs[p]))
      {
        DestroyKnowsWeakened(h.procs[p], SliceOf(h, h.procs[p]), SliceOf(h', h.procs[p]));
      }
    }
    assert LocksOk(h') by {
      assert forall l | HolderOf(h', l).Held? :: HolderOf(h', l) == Held(HolderOf(h', l).pid);
    }
    UndisturbedCap(h, h');
    assert LeaksOk(h') by {
      assert forall n, p | LeftBehind(h, n, p) :: LeftBehind(h', n, p);
    }
  }

  lemma EnvironmentKeeps(h: Host, ev: Event)
    requires Inv(h) && Enabled(h, ev) && !ev.Spawn? && !ev.Step?
    ensures Inv(Do(h, ev))
  {
    hide Inv, WaitersOk, Undisturbed, ProcsOk;
    ProcsOfInv(h);
    SignalsAfter(h, ev);
    WaitersAfter(h, ev);
    LittleChanges(h, ev);
    UndisturbedKeeps(h, Do(h, ev));
  }

  lemma SignalsAfter(h: Host, ev: Event)
    requires ProcsOk(h) && Enabled(h, ev) && !ev.Spawn? && !ev.Step?
    ensures ProcsOk(Do(h, ev))
  {
    hide FlagsOk;
    if ev.Signal? {
      DeliverKeeps(h.gates[ev.pid], h.procs[ev.pid].raised, ev.signo);
    }
  }

  lemma LittleChanges(h: Host, ev: Event)
    requires Enabled(h, ev) && !ev.Spawn? && !ev.Step?
    ensures Undisturbed(h, Do(h, ev))
  {
  }

  lemma WaitersAfter(h: Host, ev: Event)
    requires WaitersOk(h) && Enabled(h, ev) && !ev.Spawn? && !ev.Step?
    ensures WaitersOk(Do(h, ev))
  {
    var h' := Do(h, ev);
    if ev.WaiterTakes? || ev.WaiterCloses? {
      assert forall l | l != ev.lock :: HolderOf(h', l) == HolderOf(h, l);
    } else {
      assert forall l :: HolderOf(h', l) == HolderOf(h, l);
    }
  }

  lemma ProcsOfInv(h: Host)
    requires Inv(h)
    ensures ProcsOk(h) && WaitersOk(h)
  {
  }

  lemma LaunchOk(h: Host, verb: Verb, wt: Worktree, name: Option<Name>, capacity: nat)
    requires 0 < capacity
    requires if verb.Up? then name.Some? && name.value.Own? && name.value !in h.vms else name.None?
    requires verb.Up? ==> forall w | w in h.claims :: h.claims[w] != Names(name.value)
    ensures var q := Launch(verb, wt, name);
            FlagsOk(q) && SignalsOk(q, Entered(capacity)) && Knows(q, SliceOf(h, q))
  {
  }

  /** A new process's name is its own, and no claim or VM bears it. */
  lemma SpawnKeepsNames(h: Host, ev: Event)
    requires NamesOk(h) && ClaimsAreOwn(h) && VmsAreClaimed(h) && ev.Spawn? && Enabled(h, ev)
    ensures NamesOk(Do(h, ev)) && ClaimsAreOwn(Do(h, ev)) && VmsAreClaimed(Do(h, ev))
  {
  }

  lemma SpawnKeepsProcs(h: Host, ev: Event)
    requires ProcsOk(h) && KnowledgeOk(h) && ev.Spawn? && Enabled(h, ev)
    ensures ProcsOk(Do(h, ev)) && KnowledgeOk(Do(h, ev))
  {
    hide FlagsOk, SignalsOk, Knows, Inside, SlotReserved;
    var h' := Do(h, ev);
    LaunchOk(h, ev.verb, ev.wt, h'.procs[ev.pid].name, ev.capacity);
    assert forall q2 :: SliceOf(h', q2) == SliceOf(h, q2);
  }

  lemma SpawnKeepsLocks(h: Host, ev: Event)
    requires LocksOk(h) && ev.Spawn? && Enabled(h, ev)
    ensures LocksOk(Do(h, ev))
  {
    var h' := Do(h, ev);
    assert forall l :: !Inside(h'.procs[ev.pid], l);
    hide Inside;
    assert forall l :: HolderOf(h', l) == HolderOf(h, l);
  }

  lemma SpawnKeepsCap(h: Host, ev: Event)
    requires CapOk(h) && LeaksOk(h) && WaitersOk(h) && ev.Spawn? && Enabled(h, ev)
    ensures CapOk(Do(h, ev)) && LeaksOk(Do(h, ev)) && WaitersOk(Do(h, ev))
  {
    var h' := Do(h, ev);
    assert forall l :: HolderOf(h', l) == HolderOf(h, l);
    assert Exposed(h') == Exposed(h);
    assert forall n | Attended(h, n) :: Attended(h', n);
    assert forall n, p2 | LeftBehind(h, n, p2) :: LeftBehind(h', n, p2);
  }

  lemma EventKeeps(h: Host, ev: Event)
    requires Inv(h) && Enabled(h, ev)
    ensures Inv(Do(h, ev))
  {
    hide Do, Enabled, ProcsOk, KnowledgeOk, LocksOk, NamesOk, CapOk, LeaksOk, WaitersOk, ClaimsAreOwn, VmsAreClaimed;
    match ev
    case Spawn(_, _, _, _, _) =>
      SpawnKeepsNames(h, ev);
      SpawnKeepsProcs(h, ev);
      SpawnKeepsLocks(h, ev);
      SpawnKeepsCap(h, ev);
    case Step(p, a) => StepKeeps(h, p, a);
    case _ => EnvironmentKeeps(h, ev);
  }

  /** The invariant holds at every point of every run. */
  lemma {:induction false} AlwaysInv(h: Host, run: seq<Event>)
    requires Init(h) && ValidRun(h, run)
    ensures Inv(After(h, run))
    decreases |run|
  {
    if run == [] {
      SubsetCounts(Exposed(h), RunningVms(h));
    } else {
      var before := run[..|run| - 1];
      AlwaysInv(h, before);
      EventKeeps(After(h, before), run[|run| - 1]);
    }
  }

  /** A run grows by one enabled event. */
  lemma RunGrows(h: Host, run: seq<Event>, ev: Event)
    requires ValidRun(h, run) && Enabled(After(h, run), ev)
    ensures ValidRun(h, run + [ev]) && After(h, run + [ev]) == Do(After(h, run), ev)
  {
    hide Do, Enabled;
    var longer := run + [ev];
    assert longer[..|longer| - 1] == run;
  }
}
