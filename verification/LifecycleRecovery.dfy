/**
 What `destroy` can do with a claim that is left: the course of one `destroy` whose calls all succeed and
 that nothing else on the host disturbs, from every reachable state.
 */
module LifecycleRecovery {
  import opened Wrappers
  import opened SignalGate
  import opened Lifecycle
  import opened LifecycleLocal
  import opened LifecycleProofs

  const DISK := Identity(0, 0)
  const GOOD := Action(Good, true, DISK)

  /** `n` is `g` after process `p` alone has taken `k` steps, all of which succeeded and did their work. */
  ghost predicate Alone(g: Host, p: Pid, k: nat, n: Host)
    decreases k
  {
    if k == 0 then n == g
    else Enabled(g, Step(p, GOOD)) && Alone(Do(g, Step(p, GOOD)), p, k - 1, n)
  }

  // A removal that succeeds ----------------------------------------------------------------------

  /** A removal that no list has contradicted: what was stopped is not running, what was deleted is gone. */
  predicate Undisputed(q: Proc, s: Slice) {
    && q.pc.Removal?
    && (q.pc.stage == LIST_RUNNING ==> s.vm.Some? ==> !s.vm.value.state.Running?)
    && (q.pc.stage == LIST_DELETED ==> s.vm.None?)
  }

  /** The two differ at most in the program point and what the removal of the claim records. */
  predicate SameErrand(q: Proc, q': Proc) {
    && q'.verb == q.verb && q'.wt == q.wt && q'.name == q.name && q'.raised == q.raised
    && q'.past.problem == q.past.problem && q'.past.failedAt == q.past.failedAt
  }

  lemma RemovalMoves(q: Proc, s: Slice, v: View, prompt: bool)
    requires FlagsOk(q) && Undisputed(q, s) && Agrees(v, s) && q.pc.stage < CLEAR_IDENTITY
    ensures Possible(q, v, GOOD)
    ensures var (q', e) := Local(q, v, GOOD);
            && q'.pc.Removal? && q.pc.stage < q'.pc.stage <= CLEAR_IDENTITY && q'.pc.from == q.pc.from
            && SameErrand(q, q') && Undisputed(q', Touch(s, q, e, prompt)) && !e.PutIdentity? && !e.DropIdentity?
  {
  }

  /** The VMs, the claims and the identity files are the same. */
  ghost predicate SameFiles(g: Host, n: Host) {
    n.vms == g.vms && n.claims == g.claims && n.identities == g.identities
  }

  /** A step that succeeds changes the host as the process's own slice shows it. */
  lemma GoodStepShows(g: Host, p: Pid)
    requires Inv(g) && p in g.procs && p in g.gates && Possible(g.procs[p], See(g, p), GOOD)
    ensures Enabled(g, Step(p, GOOD)) && Inv(Do(g, Step(p, GOOD)))
    ensures var q, n := g.procs[p], Do(g, Step(p, GOOD));
            var (q', e) := Local(q, See(g, p), GOOD);
            && p in n.procs && p in n.gates && n.procs[p] == q'
            && (q'.name == q.name && q'.wt == q.wt ==> SliceOf(n, q') == Touch(SliceOf(g, q), q, e, g.prompt))
            && (!e.PutIdentity? && !e.DropIdentity? ==> n.identities == g.identities)
            && (e.NoEffect? || e.Drop? ==> SameFiles(g, n))
            && n.gates[p].delivered == g.gates[p].delivered
  {
    hide Inv, Local, Possible, See, Polls, Apply, Touch;
    EventKeeps(g, Step(p, GOOD));
    var q, n := g.procs[p], Do(g, Step(p, GOOD));
    var (q', e) := Local(q, See(g, p), GOOD);
    var applied := Apply(g, p, q, e);
    SliceAfter(g, p, q, e);
    assert n.vms == applied.vms && n.claims == applied.claims && n.identities == applied.identities;
    FilesAfter(g, p, q, e);
  }

  lemma FilesAfter(g: Host, p: Pid, q: Proc, e: Effect)
    ensures !e.PutIdentity? && !e.DropIdentity? ==> Apply(g, p, q, e).identities == g.identities
    ensures e.NoEffect? || e.Drop? ==> SameFiles(g, Apply(g, p, q, e))
  {
  }

  lemma ProcOfInv(g: Host, p: Pid)
    requires Inv(g) && p in g.procs
    ensures p in g.gates && FlagsOk(g.procs[p]) && Knows(g.procs[p], SliceOf(g, g.procs[p]))
    ensures SignalsOk(g.procs[p], g.gates[p])
    ensures Agrees(See(g, p), SliceOf(g, g.procs[p]))
  {
    hide FlagsOk, Knows, SignalsOk;
    assert p in g.gates;
    SeeAgrees(g, p);
  }

  lemma RemovalStepGoes(g: Host, p: Pid)
    requires Inv(g) && p in g.procs && Undisputed(g.procs[p], SliceOf(g, g.procs[p]))
    requires g.procs[p].pc.stage < CLEAR_IDENTITY
    ensures Enabled(g, Step(p, GOOD))
    ensures var n, q := Do(g, Step(p, GOOD)), g.procs[p];
            && Inv(n) && p in n.procs && SameErrand(q, n.procs[p]) && n.identities == g.identities
            && Undisputed(n.procs[p], SliceOf(n, n.procs[p]))
            && q.pc.stage < n.procs[p].pc.stage <= CLEAR_IDENTITY && n.procs[p].pc.from == q.pc.from
  {
    hide Inv, FlagsOk, Local, Possible, See, Agrees, Knows, SliceOf, Do, Enabled, Touch;
    ProcOfInv(g, p);
    RemovalMoves(g.procs[p], SliceOf(g, g.procs[p]), See(g, p), g.prompt);
    GoodStepShows(g, p);
  }

  /** From any stage a removal whose calls succeed gets as far as the identity file, and leaves that as it was. */
  lemma {:induction false} RemovalGoes(g: Host, p: Pid) returns (k: nat, n: Host)
    requires Inv(g) && p in g.procs && Undisputed(g.procs[p], SliceOf(g, g.procs[p]))
    requires g.procs[p].pc.stage <= CLEAR_IDENTITY
    ensures Alone(g, p, k, n) && Inv(n) && p in n.procs && SameErrand(g.procs[p], n.procs[p])
    ensures n.identities == g.identities
    ensures n.procs[p].pc == Removal(CLEAR_IDENTITY, g.procs[p].pc.from)
    decreases CLEAR_IDENTITY - g.procs[p].pc.stage
  {
    hide Inv, Enabled, Do, SliceOf;
    if g.procs[p].pc.stage == CLEAR_IDENTITY {
      k, n := 0, g;
    } else {
      RemovalStepGoes(g, p);
      k, n := RemovalGoes(Do(g, Step(p, GOOD)), p);
      k := k + 1;
    }
  }

  // A `destroy` that is left alone -----------------------------------------------------------------

  /** The slice of the VM a claim names. */
  ghost function Claimed(g: Host, wt: Worktree, name: Name): Slice {
    Slice(
      if name in g.vms then Some(g.vms[name]) else None,
      if wt in g.claims then Some(g.claims[wt]) else None,
      if wt in g.identities then Some(g.identities[wt]) else None)
  }

  /** What `destroy` does up to the removal, when its calls succeed. */
  lemma DestroyMoves(q: Proc, v: View)
    requires q.verb.Destroy? && (q.pc.ReadClaim? || q.pc.LookUp? || q.pc.Verify?)
    ensures Possible(q, v, GOOD) && Local(q, v, GOOD).1.NoEffect?
    ensures Local(q, v, GOOD).0 == DestroyStep(q, v, GOOD).0
    ensures FlagsOk(q) ==> q.raised.Nothing?
  {
  }

  lemma VerifyMoves(q: Proc, v: View, s: Slice)
    requires q.verb.Destroy? && q.pc.Verify? && Agrees(v, s)
    ensures DestroyStep(q, v, GOOD).0 == if Recorded(s) then q.(pc := Removal(LIST_BEFORE, Destroying))
                                         else q.(raised := Failure, pc := LeaveWorktree)
  {
  }

  lemma {:induction false} Appended(g: Host, p: Pid, k: nat, m: Host, j: nat, n: Host)
    requires Alone(g, p, k, m) && Alone(m, p, j, n)
    ensures Alone(g, p, k + j, n)
    decreases k
  {
    hide Do, Enabled;
    if k > 0 {
      Appended(Do(g, Step(p, GOOD)), p, k - 1, m, j, n);
    }
  }

  /** A step that succeeds and changes no file. */
  lemma QuietStep(g: Host, p: Pid)
    requires Inv(g) && p in g.procs && p in g.gates && Possible(g.procs[p], See(g, p), GOOD)
    requires var e := Local(g.procs[p], See(g, p), GOOD).1; e.NoEffect? || e.Drop?
    ensures Enabled(g, Step(p, GOOD))
    ensures var n := Do(g, Step(p, GOOD));
            && Alone(g, p, 1, n) && Inv(n) && SameFiles(g, n) && p in n.procs && p in n.gates
            && n.procs[p] == Local(g.procs[p], See(g, p), GOOD).0 && n.gates[p].delivered == g.gates[p].delivered
  {
    hide Inv, Local, Possible, See, Do, Enabled, SameFiles;
    GoodStepShows(g, p);
    OneStep(g, p);
  }

  lemma OneStep(g: Host, p: Pid)
    requires Enabled(g, Step(p, GOOD))
    ensures Alone(g, p, 1, Do(g, Step(p, GOOD)))
  {
    hide Do, Enabled;
    var n := Do(g, Step(p, GOOD));
    assert Alone(n, p, 0, n);
  }

  lemma SameSlice(g: Host, n: Host, q: Proc, q': Proc)
    requires SameFiles(g, n) && q'.name == q.name && q'.wt == q.wt
    ensures SliceOf(n, q') == SliceOf(g, q)
  {
  }

  lemma ClaimedIsSlice(g: Host, q: Proc, name: Name)
    requires q.name == Some(name)
    ensures SliceOf(g, q) == Claimed(g, q.wt, name)
  {
  }

  /** Up to the removal `destroy` changes nothing. */
  lemma DestroyStepGoes(g: Host, p: Pid)
    requires Inv(g) && p in g.procs && g.procs[p].verb.Destroy?
    requires g.procs[p].pc.ReadClaim? || g.procs[p].pc.LookUp? || g.procs[p].pc.Verify?
    ensures Enabled(g, Step(p, GOOD)) && p in g.gates && g.procs[p].raised.Nothing?
    ensures var n := Do(g, Step(p, GOOD));
            && Alone(g, p, 1, n) && Inv(n) && SameFiles(g, n) && p in n.procs
            && n.procs[p] == DestroyStep(g.procs[p], See(g, p), GOOD).0
  {
    hide Inv, FlagsOk, Possible, Knows, Local, See, Do, Enabled, SliceOf, Alone, Agrees, DestroyStep, SameFiles;
    ProcOfInv(g, p);
    DestroyMoves(g.procs[p], See(g, p));
    QuietStep(g, p);
  }

  lemma ReadMoves(q: Proc, v: View, claim: Option<Claim>)
    requires q.verb.Destroy? && q.pc.ReadClaim? && v.claim == claim
    ensures DestroyStep(q, v, GOOD).0 ==
              if claim.None? then q.(pc := LeaveWorktree)
              else if claim.value.Empty? then q.(pc := Removal(CLEAR_CLAIM, Destroying))
              else if claim.value.name.Other? then q.(raised := Failure, pc := LeaveWorktree)
              else q.(name := Some(claim.value.name), pc := LookUp)
  {
  }

  lemma LookUpMoves(q: Proc, v: View, s: Slice)
    requires q.verb.Destroy? && q.pc.LookUp? && Agrees(v, s)
    ensures DestroyStep(q, v, GOOD).0 == q.(pc := if s.vm.Some? then Verify else Removal(CLEAR_CLAIM, Destroying))
  {
  }

  ghost function ClaimAt(g: Host, wt: Worktree): Option<Claim> {
    if wt in g.claims then Some(g.claims[wt]) else None
  }

  /** Reading the claim decides where `destroy` goes. */
  lemma ReadsClaim(g: Host, p: Pid)
    requires Inv(g) && p in g.procs && g.procs[p].verb.Destroy? && g.procs[p].pc.ReadClaim?
    ensures Enabled(g, Step(p, GOOD)) && g.procs[p].raised.Nothing?
    ensures var n, q, claim := Do(g, Step(p, GOOD)), g.procs[p], ClaimAt(g, g.procs[p].wt);
            && Alone(g, p, 1, n) && Inv(n) && SameFiles(g, n) && p in n.procs
            && n.procs[p] == if claim.None? then q.(pc := LeaveWorktree)
                             else if claim.value.Empty? then q.(pc := Removal(CLEAR_CLAIM, Destroying))
                             else if claim.value.name.Other? then q.(raised := Failure, pc := LeaveWorktree)
                             else q.(name := Some(claim.value.name), pc := LookUp)
  {
    DestroyStepGoes(g, p);
    assert See(g, p).claim == ClaimAt(g, g.procs[p].wt);
    hide Inv, See, Do, Enabled, DestroyStep, SameFiles, Alone, ClaimAt;
    ReadMoves(g.procs[p], See(g, p), ClaimAt(g, g.procs[p].wt));
  }

  /** With the claim read, `destroy` looks the VM up; with the VM there, it goes on to the removal or refuses. */
  lemma LooksUp(g: Host, p: Pid)
    requires Inv(g) && p in g.procs && g.procs[p].verb.Destroy? && (g.procs[p].pc.LookUp? || g.procs[p].pc.Verify?)
    ensures Enabled(g, Step(p, GOOD))
    ensures var n, q, s := Do(g, Step(p, GOOD)), g.procs[p], SliceOf(g, g.procs[p]);
            && Alone(g, p, 1, n) && Inv(n) && SameFiles(g, n) && p in n.procs
            && n.procs[p] == if q.pc.LookUp?
                             then q.(pc := if s.vm.Some? then Verify else Removal(CLEAR_CLAIM, Destroying))
                             else if Recorded(s) then q.(pc := Removal(LIST_BEFORE, Destroying))
                             else q.(raised := Failure, pc := LeaveWorktree)
  {
    hide Inv, FlagsOk, Knows, SignalsOk, See, Do, Enabled, SliceOf, Alone, Agrees, DestroyStep, Recorded, SameFiles;
    ProcOfInv(g, p);
    DestroyStepGoes(g, p);
    if g.procs[p].pc.LookUp? {
      LookUpMoves(g.procs[p], See(g, p), SliceOf(g, g.procs[p]));
    } else {
      VerifyMoves(g.procs[p], See(g, p), SliceOf(g, g.procs[p]));
    }
  }

  lemma LastMoves(q: Proc, v: View)
    requires FlagsOk(q) && q.verb.Destroy? && q.pc == Removal(CLEAR_IDENTITY, Destroying)
    ensures Possible(q, v, GOOD) && Local(q, v, GOOD) == (q.(pc := LeaveWorktree), DropIdentity) && q.raised.Nothing?
  {
  }

  lemma NothingLeft(q: Proc, s: Slice)
    requires Knows(q, s) && q.verb.Destroy? && q.pc.LeaveWorktree? && q.raised.Nothing?
    ensures s.claim.None? && s.vm.None?
  {
  }

  /** Once the identity file is removed as well nothing is left. */
  lemma LastStep(g: Host, p: Pid)
    requires Inv(g) && p in g.procs && g.procs[p].verb.Destroy? && g.procs[p].pc == Removal(CLEAR_IDENTITY, Destroying)
    ensures Enabled(g, Step(p, GOOD))
    ensures var n, q := Do(g, Step(p, GOOD)), g.procs[p];
            && Alone(g, p, 1, n) && Inv(n) && p in n.procs && n.procs[p] == q.(pc := LeaveWorktree)
            && q.raised.Nothing? && Gone(SliceOf(n, n.procs[p]))
  {
    hide Inv, FlagsOk, Possible, Local, See, Do, Enabled, SliceOf, Knows, Alone, SameFiles;
    ProcOfInv(g, p);
    LastMoves(g.procs[p], See(g, p));
    GoodStepShows(g, p);
    OneStep(g, p);
    var n := Do(g, Step(p, GOOD));
    ProcOfInv(n, p);
    NothingLeft(n.procs[p], SliceOf(n, n.procs[p]));
  }

  /** The removal of a VM with the recorded disk, or of the files where there is none, gets to its end. */
  lemma Removes(g: Host, p: Pid) returns (k: nat, n: Host)
    requires Inv(g) && p in g.procs && g.procs[p].verb.Destroy?
    requires g.procs[p].pc == Removal(LIST_BEFORE, Destroying) || g.procs[p].pc == Removal(CLEAR_CLAIM, Destroying)
    ensures Alone(g, p, k, n) && Inv(n) && p in n.procs && n.procs[p].pc.LeaveWorktree?
    ensures SameErrand(g.procs[p], n.procs[p])
    ensures n.procs[p].raised.Nothing? && Gone(SliceOf(n, n.procs[p]))
  {
    hide Inv, Do, Enabled, SliceOf, Alone;
    var r;
    k, r := RemovalGoes(g, p);
    LastStep(r, p);
    n := Do(r, Step(p, GOOD));
    Appended(g, p, k, r, 1, n);
    k := k + 1;
  }

  /** `destroy` can act on what it finds: no claim, an empty one, or one whose VM is gone or has the recorded disk. */
  ghost predicate Actionable(g: Host, wt: Worktree) {
    var claim := ClaimAt(g, wt);
    claim.Some? && claim.value.Names? ==> claim.value.name.Own? && Recoverable(Claimed(g, wt, claim.value.name))
  }

  /** Claim and identity file are gone, and so is the VM the claim named. */
  ghost predicate Cleared(g: Host, n: Host, wt: Worktree) {
    && wt !in n.claims && wt !in n.identities
    && (wt in g.claims && g.claims[wt].Names? ==> g.claims[wt].name !in n.vms)
  }

  /** What `destroy` has done when it lets the worktree go. */
  ghost predicate Ends(g: Host, n: Host, p: Pid) {
    && p in g.procs && p in n.procs && n.procs[p].pc.LeaveWorktree?
    && n.procs[p].verb == g.procs[p].verb
    && n.procs[p].raised == (if Actionable(g, g.procs[p].wt) then Nothing else Failure)
    && if Actionable(g, g.procs[p].wt) && g.procs[p].wt in g.claims then Cleared(g, n, g.procs[p].wt)
       else SameFiles(g, n)
  }

  /** A claim of the tool's: the VM is looked up, then removed with its files, or left with an error. */
  lemma OwnClaim(g: Host, p: Pid, name: Name) returns (k: nat, n: Host)
    requires Inv(g) && p in g.procs && g.procs[p].verb.Destroy? && g.procs[p].pc.LookUp?
    requires g.procs[p].raised.Nothing? && g.procs[p].name == Some(name)
    ensures Alone(g, p, k, n) && Inv(n) && p in n.procs && n.procs[p].pc.LeaveWorktree?
    ensures n.procs[p].verb == g.procs[p].verb
    ensures var s, s' := Claimed(g, g.procs[p].wt, name), Claimed(n, g.procs[p].wt, name);
            && n.procs[p].raised == (if Recoverable(s) then Nothing else Failure)
            && if Recoverable(s) then Gone(s') else SameFiles(g, n)
  {
    hide Inv, Do, Enabled, Alone, SliceOf, Recorded, Gone, Claimed, SameFiles;
    ClaimedIsSlice(g, g.procs[p], name);
    LooksUp(g, p);
    n, k := Do(g, Step(p, GOOD)), 1;
    if n.procs[p].pc.Verify? {
      var m := n;
      SameSlice(g, m, g.procs[p], m.procs[p]);
      LooksUp(m, p);
      n, k := Do(m, Step(p, GOOD)), 2;
      Appended(g, p, 1, m, 1, n);
      FilesStay(g, m, n);
    }
    if n.procs[p].pc.Removal? {
      var m, more := n, 0;
      more, n := Removes(m, p);
      Appended(g, p, k, m, more, n);
      k := k + more;
    }
    ClaimedIsSlice(n, n.procs[p], name);
  }

  lemma FilesStay(g: Host, m: Host, n: Host)
    requires SameFiles(g, m) && SameFiles(m, n)
    ensures SameFiles(g, n)
  {
  }

  /** From the reading of the claim to the end of the worktree's lock, whatever the claim is. */
  lemma EndsFrom(g: Host, p: Pid) returns (k: nat, n: Host)
    requires Inv(g) && p in g.procs && g.procs[p].verb.Destroy? && g.procs[p].pc.ReadClaim?
    ensures Alone(g, p, k, n) && Inv(n) && Ends(g, n, p)
  {
    hide Inv, Do, Enabled, Alone, SliceOf, Gone;
    ReadsClaim(g, p);
    var m := Do(g, Step(p, GOOD));
    n, k := m, 1;
    if m.procs[p].pc.LookUp? {
      var more;
      more, n := OwnClaim(m, p, m.procs[p].name.value);
      Appended(g, p, 1, m, more, n);
      k := 1 + more;
      OwnEnds(g, m, n, p, m.procs[p].name.value);
    } else if m.procs[p].pc.Removal? {
      var more;
      more, n := Removes(m, p);
      Appended(g, p, 1, m, more, n);
      k := 1 + more;
      EmptyEnds(n, p);
    }
  }

  lemma OwnEnds(g: Host, m: Host, n: Host, p: Pid, name: Name)
    requires p in g.procs && p in m.procs && p in n.procs && SameFiles(g, m) && name.Own?
    requires ClaimAt(g, g.procs[p].wt) == Some(Names(name))
    ensures var wt := g.procs[p].wt;
            && Claimed(m, wt, name) == Claimed(g, wt, name)
            && (Gone(Claimed(n, wt, name)) ==> Cleared(g, n, wt))
            && (SameFiles(m, n) ==> SameFiles(g, n))
            && (Actionable(g, wt) <==> Recoverable(Claimed(g, wt, name)))
  {
  }

  lemma EmptyEnds(n: Host, p: Pid)
    requires p in n.procs && Gone(SliceOf(n, n.procs[p]))
    ensures n.procs[p].wt !in n.claims && n.procs[p].wt !in n.identities
  {
  }

  lemma LeaveMoves(q: Proc, v: View)
    requires q.pc.LeaveWorktree? || q.pc.LeaveGate?
    ensures Possible(q, v, GOOD)
    ensures var (q', e) := Local(q, v, GOOD);
            && (e.NoEffect? || e.Drop?) && q' == q.(pc := q'.pc)
            && (if q.pc.LeaveWorktree? then q'.pc.LeaveGate? else q'.pc.Ended?)
  {
  }

  /** Letting the worktree and the gate go changes no file. */
  lemma Leaves(g: Host, p: Pid) returns (n: Host)
    requires Inv(g) && p in g.procs && g.procs[p].pc.LeaveWorktree?
    ensures Alone(g, p, 2, n) && Inv(n) && SameFiles(g, n) && p in n.procs && n.procs[p].pc.Ended?
    ensures n.procs[p] == g.procs[p].(pc := n.procs[p].pc)
  {
    hide Inv, FlagsOk, Knows, SignalsOk, Agrees, SliceOf, Local, Possible, See, Do, Enabled, SameFiles, Alone;
    ProcOfInv(g, p);
    LeaveMoves(g.procs[p], See(g, p));
    QuietStep(g, p);
    var m := Do(g, Step(p, GOOD));
    LeaveMoves(m.procs[p], See(m, p));
    QuietStep(m, p);
    n := Do(m, Step(p, GOOD));
    Appended(g, p, 1, m, 1, n);
    FilesStay(g, m, n);
  }

  /** The status of an ended process whose signals and error are known. */
  lemma StatusOf(g: Host, p: Pid)
    requires Inv(g) && p in g.procs && g.procs[p].pc.Ended?
    ensures p in g.gates
    ensures var q, gate := g.procs[p], g.gates[p];
            q.pc.status == if gate.delivered != [] then 128 + gate.delivered[0] else if q.raised.Failure? then 1 else 0
  {
    hide Inv, FlagsOk, Knows, Agrees, SliceOf, See;
    ProcOfInv(g, p);
    StatusNamesFirstSignal(g.gates[p], g.procs[p].raised);
  }

  /** A process alone receives no signals. */
  lemma {:induction false} NoSignalsAlone(g: Host, p: Pid, k: nat, n: Host)
    requires Alone(g, p, k, n) && p in g.gates
    ensures p in n.gates && n.gates[p].delivered == g.gates[p].delivered
    decreases k
  {
    hide Do, Enabled;
    if k > 0 {
      StepSignals(g, p);
      NoSignalsAlone(Do(g, Step(p, GOOD)), p, k - 1, n);
    }
  }

  lemma StepSignals(g: Host, p: Pid)
    requires Enabled(g, Step(p, GOOD)) && p in g.gates
    ensures p in Do(g, Step(p, GOOD)).gates && Do(g, Step(p, GOOD)).gates[p].delivered == g.gates[p].delivered
  {
    hide Local, Possible, See, Apply;
  }

  /**
   In every reachable state a `destroy` that has the worktree, is left alone and whose calls succeed comes to
   its end. If there is a claim it can act on, claim, identity file and VM are gone then; otherwise no file and
   no VM has changed. Without signals it ends with status 0 if it could act on what it found, and else with 1;
   it can act exactly if there is no claim, or an empty one, or one of the tool's whose VM is gone or has the
   recorded disk.
   */
  lemma DestroyRecovers(h: Host, run: seq<Event>, p: Pid) returns (k: nat, n: Host)
    requires Init(h) && ValidRun(h, run) && p in After(h, run).procs
    requires After(h, run).procs[p].verb.Destroy? && After(h, run).procs[p].pc.ReadClaim?
    ensures var g := After(h, run);
            var wt := g.procs[p].wt;
            && Alone(g, p, k, n) && p in n.procs && p in g.gates
            && n.procs[p].pc == Ended(if g.gates[p].delivered != [] then 128 + g.gates[p].delivered[0]
                                      else if Actionable(g, wt) then 0 else 1)
            && (if Actionable(g, wt) && wt in g.claims then Cleared(g, n, wt) else SameFiles(g, n))
  {
    hide Init, ValidRun, After, Inv;
    AlwaysInv(h, run);
    k, n := ComesToItsEnd(After(h, run), p);
  }

  lemma ComesToItsEnd(g: Host, p: Pid) returns (k: nat, n: Host)
    requires Inv(g) && p in g.procs && g.procs[p].verb.Destroy? && g.procs[p].pc.ReadClaim?
    ensures var wt := g.procs[p].wt;
            && Alone(g, p, k, n) && p in n.procs && p in g.gates
            && n.procs[p].pc == Ended(if g.gates[p].delivered != [] then 128 + g.gates[p].delivered[0]
                                      else if Actionable(g, wt) then 0 else 1)
            && (if Actionable(g, wt) && wt in g.claims then Cleared(g, n, wt) else SameFiles(g, n))
  {
    hide Inv, Do, Enabled, Alone, Actionable, FlagsOk, Knows, SignalsOk, Agrees, SliceOf, See;
    var m;
    k, m := EndsFrom(g, p);
    n := Leaves(m, p);
    Appended(g, p, k, m, 2, n);
    k := k + 2;
    ProcOfInv(g, p);
    NoSignalsAlone(g, p, k, n);
    StatusOf(n, p);
  }
}
