/**
 What one process of `Lifecycle` keeps, step by step: the relation between its program point and
 its flags, and what it knows about the part of the host that only it may change.
 */
module LifecycleLocal {
  import opened Wrappers
  import opened SignalGate
  import opened Lifecycle

  // Flags ------------------------------------------------------------------------------

  ghost predicate UpOk(q: Proc) {
    && q.name.Some? && q.name.value.Own?
    && (q.claimed ==> q.past.linked) && (q.cloneAttempted ==> q.claimed) && (q.ran ==> q.cloneAttempted)
    && (q.past.identified ==> q.cloneAttempted) && (q.done ==> q.past.identified)
    && (q.cleaned ==> q.claimed && !q.done && !q.raised.Nothing?)
    && (q.done ==> q.raised.Nothing? && q.cloneAttempted)
    && (q.past.problem || q.past.dropped ==> q.cleaned)
    && (q.past.failedAt.Some? ==> q.past.problem)
    && (q.past.failedAt == Some(CLEAR_IDENTITY) <==> q.past.problem && q.past.dropped)
    && match q.pc
       case WaitWorktree => !q.past.linked && !q.done && q.raised.Nothing?
       case Flow(at) =>
         && at <= PROVISIONED && q.raised.Nothing? && !q.done
         && q.past.linked == q.claimed == (CLAIM < at)
         && q.cloneAttempted == (CLONE < at)
         && q.past.identified == (IDENTIFY < at)
         && q.ran == (BOOT < at)
       case InnerHandler => q.claimed && !q.cleaned && !q.done && !q.raised.Nothing?
       case InnerLeaveCap => q.cleaned
       case OuterFinally => q.done || !q.raised.Nothing?
       case OuterWaitCap => q.cleaned && q.cloneAttempted && !q.past.problem && !q.past.dropped
       case OuterLeaveCap => q.cleaned && q.cloneAttempted
       case Removal(stage, from) =>
         && stage <= CLEAR_IDENTITY && q.cleaned && !q.past.problem && q.past.dropped == (stage == CLEAR_IDENTITY)
         && !from.Destroying?
         && (stage < CLEAR_CLAIM || from.Outer? ==> q.cloneAttempted)
         && (from.Plain? ==> !q.cloneAttempted)
       case LeaveWorktree | LeaveGate | Ended(_) =>
         (q.done || q.cleaned || !q.claimed) && (q.done || !q.raised.Nothing?)
       case ReadClaim | LookUp | Verify => false
  }

  ghost predicate DestroyOk(q: Proc) {
    && !q.claimed && !q.cloneAttempted && !q.cleaned && !q.done && !q.ran && !q.past.linked
    && (q.name.Some? ==> q.name.value.Own?)
    && (q.past.problem ==> q.raised.Failure?)
    && match q.pc
       case WaitWorktree | ReadClaim => q.name.None? && q.raised.Nothing?
       case LookUp | Verify => q.name.Some? && q.raised.Nothing?
       case Removal(stage, from) =>
         && LIST_EXISTING < stage <= CLEAR_IDENTITY && from.Destroying?
         && (stage < CLEAR_CLAIM ==> q.name.Some?) && q.raised.Nothing?
       case LeaveWorktree | LeaveGate | Ended(_) => true
       case _ => false
  }

  /** The relation between the program point and the flags. */
  ghost predicate FlagsOk(q: Proc) {
    && q.past.removals == (if q.cleaned then 1 else 0)
    && (if q.verb.Up? then UpOk(q) else DestroyOk(q))
  }

  /** The gate has lost nothing, a cancel carries its first signal, and the exit status was read from it. */
  ghost predicate SignalsOk(q: Proc, g: GateState) {
    && GateOk(g) && RaisedOk(q.raised, g)
    && (q.pc.Ended? ==> g.pipe == [] && q.pc.status == ExitStatus(q.raised, First(g.pending)))
  }

  /** All a step raises is a failure or, after a poll, the head of `pending`. */
  ghost predicate Raises(q: Proc, v: View, a: Action, q': Proc) {
    || q'.raised == q.raised
    || q'.raised.Failure?
    || (Polls(q, a) && v.signal.Some? && q'.raised == Cancelled(v.signal.value))
  }

  lemma UpRaises(q: Proc, v: View, a: Action)
    requires FlagsOk(q) && q.pc.Flow? && PossibleInFlow(q, v, a)
    ensures Raises(q, v, a, UpStep(q, v, a).0)
    ensures !UpStep(q, v, a).0.pc.Ended?
  {
  }

  lemma StepRaises(q: Proc, v: View, a: Action)
    requires FlagsOk(q) && Possible(q, v, a)
    ensures Raises(q, v, a, Local(q, v, a).0)
    ensures Local(q, v, a).0.pc.Ended? ==> q.pc.LeaveGate?
  {
    match q.pc
    case Flow(_) => UpRaises(q, v, a);
    case Removal(_, _) =>
    case _ =>
  }

  /** Every step keeps the order of the signals, so a cancel carries the first one ever recorded. */
  lemma SignalsKeep(q: Proc, g: GateState, v: View, a: Action)
    requires FlagsOk(q) && SignalsOk(q, g) && v.signal == First(Drained(g).pending) && Possible(q, v, a)
    ensures SignalsOk(Local(q, v, a).0, if Polls(q, a) then Drained(g) else g)
  {
    DrainKeeps(g, q.raised);
    StepRaises(q, v, a);
  }

  lemma UpFlagsKeep(q: Proc, v: View, a: Action)
    requires q.verb.Up? && FlagsOk(q) && q.pc.Flow? && PossibleInFlow(q, v, a)
    ensures FlagsOk(UpStep(q, v, a).0)
  {
  }

  lemma FinishFlagsKeep(q: Proc, failed: bool)
    requires FlagsOk(q) && q.pc.Removal? && (failed || q.pc.stage == CLEAR_IDENTITY)
    ensures FlagsOk(Finish(q, q.pc.from, failed))
  {
  }

  lemma RemovalFlagsKeep(q: Proc, v: View, a: Action)
    requires FlagsOk(q) && q.pc.Removal?
    ensures FlagsOk(RemovalStep(q, v, a).0)
  {
    FinishFlagsKeep(q, true);
    if q.pc.stage == CLEAR_IDENTITY {
      FinishFlagsKeep(q, false);
    }
    hide Finish;
  }

  lemma DestroyFlagsKeep(q: Proc, v: View, a: Action)
    requires FlagsOk(q) && (q.pc.ReadClaim? || q.pc.LookUp? || q.pc.Verify?)
    ensures FlagsOk(DestroyStep(q, v, a).0)
  {
  }

  /** Every step of a process keeps the relation between its program point and its flags. */
  lemma FlagsKeep(q: Proc, v: View, a: Action)
    requires FlagsOk(q) && Possible(q, v, a)
    ensures FlagsOk(Local(q, v, a).0)
  {
    match q.pc
    case Flow(_) => UpFlagsKeep(q, v, a);
    case Removal(_, _) => RemovalFlagsKeep(q, v, a);
    case ReadClaim | LookUp | Verify => DestroyFlagsKeep(q, v, a);
    case WaitWorktree =>
    case InnerHandler =>
    case OuterFinally =>
    case _ =>
  }

  // Knowledge --------------------------------------------------------------------------

  /** The part of the host one process works on: its VM, its worktree's claim and identity files. */
  datatype Slice = Slice(vm: Option<Vm>, claim: Option<Claim>, identity: Option<Identity>)

  /** VM, claim and identity are all gone. */
  predicate Gone(s: Slice) {
    s.vm.None? && s.claim.None? && s.identity.None?
  }

  /** The VM exists and its disk is the one recorded. */
  predicate Recorded(s: Slice) {
    s.vm.Some? && s.identity == Some(s.vm.value.disk)
  }

  /** What `destroy` can act on: the VM is gone, or its disk is the one recorded. */
  predicate Recoverable(s: Slice) {
    s.vm.None? || Recorded(s)
  }

  predicate ClaimIs(s: Slice, n: Option<Name>) {
    s.claim == Some(if n.Some? then Names(n.value) else Empty)
  }

  /** What `_cleanup` leaves: nothing, or after a failure the claim, or that removed already, the identity file. */
  predicate Cleaned(q: Proc, s: Slice) {
    if !q.past.problem then Gone(s)
    else if q.past.dropped then s.vm.None? && s.claim.None? && s.identity == q.past.found
    else ClaimIs(s, q.name)
  }

  ghost predicate UpKnows(q: Proc, s: Slice) {
    && (!q.cloneAttempted ==> s.vm.None?)
    && (!q.past.linked ==> !ClaimIs(s, q.name))
    && (InWorktree(q) && q.past.identified ==> Recoverable(s))
    && match q.pc
       case Flow(at) =>
         && (CLAIM < at ==> ClaimIs(s, q.name))
         && (CLONE < at ==> s.vm.Some?)
         && (IDENTIFY < at ==> Recorded(s))
         && (WAIT_AGENT < at ==> !s.vm.value.state.Starting?)
       case InnerHandler | OuterWaitCap => ClaimIs(s, q.name)
       case InnerLeaveCap | OuterLeaveCap => Cleaned(q, s)
       case Removal(stage, _) =>
         && (stage <= CLEAR_CLAIM ==> ClaimIs(s, q.name))
         && (CLEAR_CLAIM <= stage ==> s.vm.None?)
         && (stage == CLEAR_IDENTITY ==> s.claim.None? && s.identity == q.past.found)
         && (REAP_RUN < stage && q.ran && s.vm.Some? ==> s.vm.value.state.Stopped?)
       case OuterFinally | LeaveWorktree =>
         && (q.done ==> ClaimIs(s, q.name) && Recorded(s))
         && (q.cleaned ==> Cleaned(q, s))
         && (q.past.linked && !q.done && !q.cleaned ==> ClaimIs(s, q.name))
       case _ => true
  }

  ghost predicate DestroyKnows(q: Proc, s: Slice) {
    match q.pc
    case LookUp | Verify => ClaimIs(s, q.name)
    case Removal(stage, _) =>
      && (stage <= CLEAR_CLAIM ==> ClaimIs(s, q.name))
      && (CLEAR_CLAIM <= stage ==> s.vm.None?)
      && (stage == CLEAR_IDENTITY ==> s.claim.None?)
      && (s.vm.Some? ==> Recorded(s))
    case LeaveWorktree => q.raised.Nothing? ==> s.claim.None? && (q.name.Some? ==> Gone(s))
    case _ => true
  }

  /** What the program point says about the slice. */
  ghost predicate Knows(q: Proc, s: Slice) {
    && (q.name.None? ==> s.vm.None?)
    && if q.verb.Up? then UpKnows(q, s) else DestroyKnows(q, s)
  }

  predicate Agrees(v: View, s: Slice) {
    && v.claim == s.claim
    && v.identity == s.identity
    && v.present == s.vm.Some?
    && v.disk == (if s.vm.Some? then Some(s.vm.value.disk) else None)
    && v.verified == Recorded(s)
    && (v.running ==> s.vm.Some? && s.vm.value.state.Running?)
  }

  /** An effect as the slice sees it. */
  function Touch(s: Slice, q: Proc, e: Effect, prompt: bool): Slice {
    match e
    case PutClaim => if q.name.Some? then s.(claim := Some(Names(q.name.value))) else s
    case DropClaim => s.(claim := None)
    case PutIdentity => if s.vm.Some? then s.(identity := Some(s.vm.value.disk)) else s
    case DropIdentity => s.(identity := None)
    case Create(disk) => if q.name.Some? then s.(vm := Some(Vm(Stopped, disk))) else s
    case Boot => if s.vm.Some? then s.(vm := Some(s.vm.value.(state := if prompt then Running else Starting))) else s
    case Halt => if s.vm.Some? then s.(vm := Some(s.vm.value.(state := Stopped))) else s
    case Remove => s.(vm := None)
    case _ => s
  }

  lemma UpKnowsKeep(q: Proc, s: Slice, v: View, a: Action, prompt: bool)
    requires FlagsOk(q) && q.verb.Up? && q.pc.Flow? && PossibleInFlow(q, v, a) && Knows(q, s) && Agrees(v, s)
    ensures Knows(UpStep(q, v, a).0, Touch(s, q, UpStep(q, v, a).1, prompt))
    ensures UpStep(q, v, a).0.name == q.name
  {
  }

  /** A stage of the removal fails. */
  lemma FailedRemovalKnows(q: Proc, s: Slice, v: View, a: Action, prompt: bool)
    requires FlagsOk(q) && q.pc.Removal? && Knows(q, s) && a.result.Bad? && q.pc.stage != REAP_RUN
    ensures Knows(RemovalStep(q, v, a).0, Touch(s, q, RemovalStep(q, v, a).1, prompt))
  {
  }

  /** A stage up to the reaping of `tart run` succeeds. */
  lemma StoppingKnows(q: Proc, s: Slice, v: View, a: Action, prompt: bool)
    requires FlagsOk(q) && q.pc.Removal? && Knows(q, s) && Agrees(v, s)
    requires q.pc.stage <= REAP_RUN && (q.pc.stage == REAP_RUN || !a.result.Bad?)
    ensures Knows(RemovalStep(q, v, a).0, Touch(s, q, RemovalStep(q, v, a).1, prompt))
  {
  }

  /** A later stage succeeds. */
  lemma ClearingKnows(q: Proc, s: Slice, v: View, a: Action, prompt: bool)
    requires FlagsOk(q) && q.pc.Removal? && Knows(q, s) && Agrees(v, s)
    requires REAP_RUN < q.pc.stage && !a.result.Bad?
    ensures Knows(RemovalStep(q, v, a).0, Touch(s, q, RemovalStep(q, v, a).1, prompt))
  {
  }

  lemma RemovalKnowsKeep(q: Proc, s: Slice, v: View, a: Action, prompt: bool)
    requires FlagsOk(q) && q.pc.Removal? && Knows(q, s) && Agrees(v, s)
    ensures Knows(RemovalStep(q, v, a).0, Touch(s, q, RemovalStep(q, v, a).1, prompt))
    ensures RemovalStep(q, v, a).0.name == q.name
  {
    if a.result.Bad? && q.pc.stage != REAP_RUN {
      FailedRemovalKnows(q, s, v, a, prompt);
    } else if q.pc.stage <= REAP_RUN {
      StoppingKnows(q, s, v, a, prompt);
    } else {
      ClearingKnows(q, s, v, a, prompt);
    }
    hide Knows, Touch;
  }

  lemma DestroyKnowsKeep(q: Proc, s: Slice, v: View, a: Action, s': Slice)
    requires FlagsOk(q) && (q.pc.ReadClaim? || q.pc.LookUp? || q.pc.Verify?) && Knows(q, s) && Agrees(v, s)
    requires DestroyStep(q, v, a).0.name == q.name ==> s' == s
    requires DestroyStep(q, v, a).0.name != q.name ==> s'.claim == s.claim && s'.identity == s.identity
    ensures Knows(DestroyStep(q, v, a).0, s')
  {
  }

  lemma HandlerKnowsKeep(q: Proc, s: Slice, v: View, a: Action, prompt: bool)
    requires FlagsOk(q) && Possible(q, v, a) && Knows(q, s) && Agrees(v, s)
    requires !q.pc.Flow? && !q.pc.Removal? && !q.pc.ReadClaim? && !q.pc.LookUp? && !q.pc.Verify?
    ensures Knows(Local(q, v, a).0, Touch(s, q, Local(q, v, a).1, prompt))
  {
  }

  /** Every step keeps what the process knows, `s'` being the slice of its new name where it takes one. */
  lemma KnowsKeep(q: Proc, s: Slice, v: View, a: Action, prompt: bool, s': Slice)
    requires FlagsOk(q) && Possible(q, v, a) && Knows(q, s) && Agrees(v, s)
    requires Local(q, v, a).0.name == q.name ==> s' == Touch(s, q, Local(q, v, a).1, prompt)
    requires Local(q, v, a).0.name != q.name ==> s'.claim == s.claim && s'.identity == s.identity
    ensures Knows(Local(q, v, a).0, s')
  {
    hide UpStep, RemovalStep;
    match q.pc
    case Flow(_) => UpKnowsKeep(q, s, v, a, prompt);
    case Removal(_, _) => RemovalKnowsKeep(q, s, v, a, prompt);
    case ReadClaim | LookUp | Verify => DestroyKnowsKeep(q, s, v, a, s');
    case _ => HandlerKnowsKeep(q, s, v, a, prompt);
  }

  // Effects ----------------------------------------------------------------------------

  /** The slot was counted as free under the cap lock, and nothing was started in it yet. */
  predicate SlotReserved(q: Proc) {
    q.verb.Up? && q.pc.Flow? && COUNT < q.pc.at <= BOOT
  }

  /** Whether a process that was in a lock's `with` or not is in it after an effect. */
  predicate InAfter(before: bool, e: Effect, l: Lock) {
    if e == Take(l) then true else if e == Drop(l) then false else before
  }

  /** An effect happens only at the program points that may have it, and only a lock effect moves a lock. */
  ghost predicate EffectOk(q: Proc, v: View, q': Proc, e: Effect) {
    && q'.verb == q.verb && q'.wt == q.wt && (q.verb.Up? ==> q'.name == q.name) && (q.past.problem ==> q'.past.problem)
    && (q'.name != q.name ==> q.pc.ReadClaim? && e.NoEffect? && q'.name.Some? && v.claim == Some(Names(q'.name.value)))
    && (SlotReserved(q') ==> SlotReserved(q) || (q.verb.Up? && q.pc == Flow(COUNT) && v.room))
    && InCap(q') == InAfter(InCap(q), e, CapLock)
    && InWorktree(q') == InAfter(InWorktree(q), e, WorktreeLock(q.wt))
    && (e.Take? ==> e == Take(CapLock) || e == Take(WorktreeLock(q.wt)))
    && (e == Take(CapLock) ==> v.capFree)
    && (e == Take(WorktreeLock(q.wt)) ==> v.wtFree)
    && (e.Drop? ==> e == Drop(CapLock) || e == Drop(WorktreeLock(q.wt)))
    && (e == Drop(CapLock) ==> InCap(q) && (q.pc == Flow(LEAVE_CAP) || q.pc.InnerLeaveCap? || q.pc.OuterLeaveCap?))
    && (e == Drop(WorktreeLock(q.wt)) ==> InWorktree(q))
    && (!e.NoEffect? && !e.Abandon? && !e.Take? ==> InWorktree(q))
    && (e.PutClaim? ==> q.verb.Up? && v.claim.None?)
    && (e.DropClaim? ==> q.pc.Removal? && q.pc.stage == CLEAR_CLAIM)
    && (e.Create? ==> q.verb.Up? && q.pc == Flow(CLONE))
    && (e.Boot? ==> q.verb.Up? && SlotReserved(q) && InCap(q) && !SlotReserved(q'))
  }

  lemma UpEffectOk(q: Proc, v: View, a: Action)
    requires FlagsOk(q) && q.pc.Flow? && PossibleInFlow(q, v, a)
    ensures EffectOk(q, v, UpStep(q, v, a).0, UpStep(q, v, a).1)
  {
  }

  lemma FinishedRemovalEffectOk(q: Proc, v: View, a: Action)
    requires FlagsOk(q) && q.pc.Removal?
    requires var stage := q.pc.stage;
             || (a.result.Bad? && stage != REAP_RUN)
             || stage == LIST_RUNNING || stage == LIST_DELETED || stage == CLEAR_IDENTITY
    ensures EffectOk(q, v, RemovalStep(q, v, a).0, RemovalStep(q, v, a).1)
  {
  }

  lemma RemovingEffectOk(q: Proc, v: View, a: Action)
    requires FlagsOk(q) && q.pc.Removal? && !a.result.Bad?
    requires var stage := q.pc.stage; stage < LIST_RUNNING || stage == LIST_STOPPED || stage == DELETE
    ensures EffectOk(q, v, RemovalStep(q, v, a).0, RemovalStep(q, v, a).1)
  {
  }

  lemma RemovalEffectOk(q: Proc, v: View, a: Action)
    requires FlagsOk(q) && q.pc.Removal?
    ensures EffectOk(q, v, RemovalStep(q, v, a).0, RemovalStep(q, v, a).1)
  {
    var stage := q.pc.stage;
    if !a.result.Bad? && (stage < LIST_RUNNING || stage == LIST_STOPPED || stage == DELETE) {
      RemovingEffectOk(q, v, a);
    } else if stage != REAP_RUN && (a.result.Bad? || stage != CLEAR_CLAIM) {
      FinishedRemovalEffectOk(q, v, a);
    }
  }

  lemma CleanupEffectOk(q: Proc, v: View, a: Action)
    requires FlagsOk(q) && Possible(q, v, a) && (q.pc.InnerHandler? || q.pc.OuterFinally?)
    ensures EffectOk(q, v, Local(q, v, a).0, Local(q, v, a).1)
  {
  }

  lemma DestroyEffectOk(q: Proc, v: View, a: Action)
    requires FlagsOk(q) && Possible(q, v, a) && (q.pc.ReadClaim? || q.pc.LookUp? || q.pc.Verify?)
    ensures EffectOk(q, v, Local(q, v, a).0, Local(q, v, a).1)
  {
  }

  lemma LockEffectOk(q: Proc, v: View, a: Action)
    requires FlagsOk(q) && Possible(q, v, a) && !q.pc.Flow? && !q.pc.Removal? && !q.pc.InnerHandler?
    requires !q.pc.OuterFinally?
    requires !q.pc.ReadClaim? && !q.pc.LookUp? && !q.pc.Verify?
    ensures EffectOk(q, v, Local(q, v, a).0, Local(q, v, a).1)
  {
  }

  lemma StepEffectOk(q: Proc, v: View, a: Action)
    requires FlagsOk(q) && Possible(q, v, a)
    ensures EffectOk(q, v, Local(q, v, a).0, Local(q, v, a).1)
  {
    match q.pc
    case Flow(_) => UpEffectOk(q, v, a);
    case Removal(_, _) => RemovalEffectOk(q, v, a);
    case InnerHandler | OuterFinally => CleanupEffectOk(q, v, a);
    case ReadClaim | LookUp | Verify => DestroyEffectOk(q, v, a);
    case _ => LockEffectOk(q, v, a);
  }
}
