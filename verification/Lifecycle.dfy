/**
 `up` and `destroy` of scripts/devvm_macos.py as a transition system over one Mac: any number of
 processes in any number of worktrees, the VM table, the claim and identity files, the lock files,
 and the lock waiters a cancelled wait leaves behind.

 A process step is a function of the process, what it can see of the host, and an `Action` that
 says how the call it makes turns out. `Local` gives the process's next state and the one effect
 the step has on the host; `Apply` carries the effect out. Every call may succeed, fail, or be
 cancelled; the link of the claim, the `tart` commands and a cancelled lock wait may have done their
 work all the same.
 */
module Lifecycle {
  import opened Wrappers
  import opened SignalGate

  const MAX_CONCURRENT_VMS := 2

  type Pid = nat
  type Worktree = nat

  /** `Own` is a name that starts with the tool's prefix; anything else is `Other`. */
  datatype Name = Own(uuid: nat) | Other(id: nat)

  // The host ---------------------------------------------------------------------------

  datatype Identity = Identity(ino: nat, dev: nat)

  /** `Starting`: `tart run` was spawned but `tart list` does not show the VM as running yet. */
  datatype VmState = Stopped | Starting | Running

  datatype Vm = Vm(state: VmState, disk: Identity)

  /** The contents of a claim file: unreadable text has no first word. */
  datatype Claim = Empty | Names(name: Name)

  /** A lock is held by a process, or for a moment by a waiter its process abandoned. */
  datatype Holder = Free | Held(pid: Pid) | Passing(pid: Pid)

  datatype Lock = WorktreeLock(wt: Worktree) | CapLock

  datatype Host = Host(
    prompt: bool,                        // whether a spawned VM is listed as running at once
    vms: map<Name, Vm>,
    claims: map<Worktree, Claim>,
    identities: map<Worktree, Identity>,
    locks: map<Lock, Holder>,            // a lock not in the map is free
    abandoned: set<(Pid, Lock)>,
    procs: map<Pid, Proc>,
    gates: map<Pid, GateState>,
    made: map<Name, Worktree>,           // history: every name an `up` was given, and its worktree
    leaked: set<Name>)                   // history: VMs still starting when their `up` let the cap lock go

  function HolderOf(h: Host, l: Lock): Holder {
    if l in h.locks then h.locks[l] else Free
  }

  // A process --------------------------------------------------------------------------

  datatype Verb = Up | Destroy

  // The points of `_up_steps`, in program order: its checkpoints and the work between them.
  const START := 0
  const CLAIM := 1
  const CLAIMED := 2
  const WAIT_CAP := 3
  const LOCKED := 4
  const COUNT := 5
  const COUNTED := 6
  const CLONE := 7
  const IDENTIFY := 8
  const CLONED := 9
  const BOOT := 10
  const WAIT_AGENT := 11
  const BOOTED := 12
  const LEAVE_CAP := 13
  const UNLOCKED := 14
  const ARCHIVE := 15
  const ARCHIVED := 16
  const PROVISION := 17
  const PROVISIONED := 18

  // The stages of a removal, in program order: `_teardown`, `_remove_vm`, `_clear_state`.
  const LIST_EXISTING := 0
  const LIST_BEFORE := 1
  const STOP := 2
  const LIST_RUNNING := 3
  const REAP_RUN := 4
  const LIST_STOPPED := 5
  const DELETE := 6
  const LIST_DELETED := 7
  const CLEAR_CLAIM := 8
  const CLEAR_IDENTITY := 9

  /**
   Where a removal runs: in `up`'s inner handler, in its outer `finally` with or without the cap lock, or in
   `destroy`.
   */
  datatype From = Inner | Outer | Plain | Destroying

  datatype Pc =
    | WaitWorktree
    | Flow(at: nat)
    | InnerHandler | InnerLeaveCap | OuterFinally | OuterWaitCap | OuterLeaveCap
    | ReadClaim | LookUp | Verify
    | Removal(stage: nat, from: From)
    | LeaveWorktree | LeaveGate | Ended(status: nat)

  datatype Proc = Proc(
    verb: Verb,
    wt: Worktree,
    name: Option<Name>,     // `up`'s fresh name; for `destroy`, the claim once read
    pc: Pc,
    raised: Raised,
    claimed: bool,          // the backend's four flags
    cloneAttempted: bool,
    cleaned: bool,
    done: bool,
    ran: bool,              // `_proc` is set: this process spawned `tart run`
    past: Past)

  /** What a process has done, for the record: nothing in the source reads it. */
  datatype Past = Past(
    linked: bool,            // it created the claim file
    identified: bool,        // it wrote the identity file
    dropped: bool,           // it removed the claim file,
    found: Option<Identity>, // the identity file being this at the time
    problem: bool,           // a removal or the clearing of the state failed,
    failedAt: Option<nat>,   // at this stage
    removals: nat)           // how often `_cleanup` got past its guard

  function Launch(verb: Verb, wt: Worktree, name: Option<Name>): Proc {
    Proc(verb, wt, name, WaitWorktree, Nothing,
         false, false, false, false, false, Past(false, false, false, None, false, None, 0))
  }

  /** Inside `with self._worktree_lock(...)`. */
  predicate InWorktree(q: Proc) {
    !q.pc.WaitWorktree? && !q.pc.LeaveGate? && !q.pc.Ended?
  }

  /** The body of the `try` under the cap lock in `_up_steps`. */
  predicate InCapBody(pc: Pc) {
    pc.Flow? && LOCKED <= pc.at <= BOOTED
  }

  /** Inside a `with self._cap_lock(...)`. */
  predicate InCap(q: Proc) {
    match q.pc
    case Flow(at) => LOCKED <= at <= LEAVE_CAP
    case InnerHandler | InnerLeaveCap | OuterLeaveCap => true
    case Removal(_, from) => from.Inner? || from.Outer?
    case _ => false
  }

  // What a process sees ------------------------------------------------------------------

  ghost function RunningVms(h: Host): set<Name> {
    set n | n in h.vms && h.vms[n].state.Running?
  }

  /** What the process's next call would observe; `tart list` is truthful. */
  datatype View = View(
    wtFree: bool,
    capFree: bool,
    claim: Option<Claim>,
    present: bool,        // the VM is listed
    running: bool,        // and shown as running
    room: bool,           // fewer running VMs than the cap
    verified: bool,       // the recorded disk identity is the VM's
    disk: Option<Identity>,
    identity: Option<Identity>,
    signal: Option<nat>)  // the first signal a poll of the gate would find

  ghost function See(h: Host, p: Pid): View
    requires p in h.procs && p in h.gates
  {
    var q := h.procs[p];
    var listed := q.name.Some? && q.name.value in h.vms;
    View(
      HolderOf(h, WorktreeLock(q.wt)).Free?,
      HolderOf(h, CapLock).Free?,
      if q.wt in h.claims then Some(h.claims[q.wt]) else None,
      listed,
      listed && h.vms[q.name.value].state.Running?,
      |RunningVms(h)| < MAX_CONCURRENT_VMS,
      listed && q.wt in h.identities && h.identities[q.wt] == h.vms[q.name.value].disk,
      if listed then Some(h.vms[q.name.value].disk) else None,
      if q.wt in h.identities then Some(h.identities[q.wt]) else None,
      First(Drained(h.gates[p]).pending))
  }

  // Steps of a process -------------------------------------------------------------------

  /** How the call at the current point turns out. */
  datatype Result = Good | Bad | Stop | Again

  /** `touched`: whether the call did its work on the host, which a failed or killed one may have. */
  datatype Action = Action(result: Result, touched: bool, disk: Identity)

  datatype Effect =
    | NoEffect
    | Take(lock: Lock)
    | Drop(lock: Lock)
    | Abandon(lock: Lock)
    | PutClaim | DropClaim | PutIdentity | DropIdentity
    | Create(disk: Identity) | Boot | Halt | Remove

  /** An exception leaves the current point for the handler around it. */
  function Raise(q: Proc, e: Raised): Proc {
    q.(raised := e,
       pc := if InCapBody(q.pc) then InnerHandler
             else if !InWorktree(q) then LeaveGate
             else if q.verb.Up? then OuterFinally
             else LeaveWorktree)
  }

  /** A poll of the gate found a signal: stop with the first one ever recorded. */
  function Cancel(q: Proc, v: View): Proc
    requires v.signal.Some?
  {
    Raise(q, Cancelled(v.signal.value))
  }

  /** `_cleanup`: its guard and its three ways to run. */
  function Cleanup(q: Proc, lockHeld: bool): Proc {
    if q.done || q.cleaned || !q.claimed then
      q.(pc := if lockHeld then InnerLeaveCap else LeaveWorktree)
    else
      q.(cleaned := true,
         past := q.past.(removals := q.past.removals + 1),
         pc := if !q.cloneAttempted then Removal(CLEAR_CLAIM, if lockHeld then Inner else Plain)
               else if lockHeld then Removal(LIST_EXISTING, Inner)
               else OuterWaitCap)
  }

  /** The removal, or the clearing of the state, is over; a failed one keeps the original error of `up`. */
  function Finish(q: Proc, from: From, failed: bool): Proc
    requires q.pc.Removal?
  {
    q.(past := if failed then q.past.(problem := true, failedAt := Some(q.pc.stage)) else q.past,
       raised := if failed && from.Destroying? then Failure else q.raised,
       pc := match from
             case Inner => InnerLeaveCap
             case Outer => OuterLeaveCap
             case Plain => LeaveWorktree
             case Destroying => LeaveWorktree)
  }

  /** A call made through `gate.run` returns only if no signal is pending, and is cut short only if one is. */
  predicate Gated(v: View, a: Action) {
    (a.result.Good? && v.signal.None?) || a.result.Bad? || (a.result.Stop? && v.signal.Some?)
  }

  /** Whether the action is possible here: locks are exclusive, a wait ends by a signal only if there is one. */
  predicate Possible(q: Proc, v: View, a: Action) {
    match q.pc
    case Ended(_) => false
    case WaitWorktree => (a.result.Good? && v.wtFree) || a.result.Bad? || (a.result.Stop? && v.signal.Some?)
    case OuterWaitCap => (a.result.Good? && v.capFree) || a.result.Bad?
    case Flow(at) => PossibleInFlow(q, v, a)
    case Removal(_, _) | ReadClaim | LookUp | Verify => a.result.Good? || a.result.Bad?
    case _ => a.result.Good?
  }

  predicate PossibleInFlow(q: Proc, v: View, a: Action)
    requires q.pc.Flow?
  {
    var at := q.pc.at;
    if at == WAIT_CAP then (a.result.Good? && v.capFree) || a.result.Bad? || (a.result.Stop? && v.signal.Some?)
    else if at == CLONE then Gated(v, a) && (a.result.Good? ==> a.touched)
    // The first exec that answers comes from a running guest.
    else if at == WAIT_AGENT then (a.result.Again? && v.signal.None?) || (Gated(v, a) && (a.result.Good? ==> v.running))
    else if at == COUNT || at == ARCHIVE || at == PROVISION then Gated(v, a)
    else if at == CLAIM || at == IDENTIFY || at == BOOT then a.result.Good? || a.result.Bad?
    else a.result.Good?
  }

  /** One step of a process: its next state, and what it does to the host. */
  function Local(q: Proc, v: View, a: Action): (Proc, Effect)
    requires Possible(q, v, a)
  {
    match q.pc
    case WaitWorktree =>
      (match a.result
       case Good => (q.(pc := if q.verb.Up? then Flow(START) else ReadClaim), Take(WorktreeLock(q.wt)))
       case Stop => (Cancel(q, v), if a.touched then Abandon(WorktreeLock(q.wt)) else NoEffect)
       case _ => (Raise(q, Failure), NoEffect))
    case Flow(_) => UpStep(q, v, a)
    case InnerHandler => (Cleanup(q, true), NoEffect)
    case InnerLeaveCap => (q.(pc := OuterFinally), Drop(CapLock))
    case OuterFinally => (Cleanup(q, false), NoEffect)
    case OuterWaitCap =>
      // Not interruptible. If the lock file cannot be opened, the state is kept for `destroy`.
      if a.result.Good? then (q.(pc := Removal(LIST_EXISTING, Outer)), Take(CapLock))
      else (q.(past := q.past.(problem := true), pc := LeaveWorktree), NoEffect)
    case OuterLeaveCap => (q.(pc := LeaveWorktree), Drop(CapLock))
    case ReadClaim | LookUp | Verify => DestroyStep(q, v, a)
    case Removal(_, _) => RemovalStep(q, v, a)
    case LeaveWorktree => (q.(pc := LeaveGate), Drop(WorktreeLock(q.wt)))
    case LeaveGate => (q.(pc := Ended(ExitStatus(q.raised, v.signal))), NoEffect)
  }

  /** `_up_steps`. */
  function UpStep(q: Proc, v: View, a: Action): (Proc, Effect)
    requires q.pc.Flow? && PossibleInFlow(q, v, a)
  {
    var at := q.pc.at;
    if at == CLAIM then
      if v.claim.Some? then (Raise(q, Failure), NoEffect)
      else if a.result.Good? then (q.(claimed := true, past := q.past.(linked := true), pc := Flow(CLAIMED)), PutClaim)
      // The link may succeed and the removal of the temporary file still raise.
      else (Raise(q.(past := q.past.(linked := a.touched)), Failure), if a.touched then PutClaim else NoEffect)
    else if at == WAIT_CAP then
      match a.result
      case Good => (q.(pc := Flow(LOCKED)), Take(CapLock))
      case Stop => (Cancel(q, v), if a.touched then Abandon(CapLock) else NoEffect)
      case _ => (Raise(q, Failure), NoEffect)
    else if at == COUNT then
      if a.result.Good? && !(v.room && !v.present) then (Raise(q, Failure), NoEffect)
      else (GatedStep(q, v, a), NoEffect)
    else if at == CLONE then
      (GatedStep(q.(cloneAttempted := true), v, a), if a.touched then Create(a.disk) else NoEffect)
    else if at == IDENTIFY then
      if a.result.Good? && v.disk.Some?
      then (q.(past := q.past.(identified := true), pc := Flow(CLONED)), PutIdentity)
      else (Raise(q, Failure), NoEffect)
    else if at == BOOT then
      if a.result.Good? then (q.(ran := true, pc := Flow(WAIT_AGENT)), Boot)
      // `tart run` may be spawned and the close of its log file still raise; `_proc` is not set then.
      else (Raise(q, Failure), if a.touched then Boot else NoEffect)
    else if at == WAIT_AGENT || at == ARCHIVE || at == PROVISION then
      (GatedStep(q, v, a), NoEffect)
    else if at == LEAVE_CAP then
      (q.(pc := Flow(UNLOCKED)), Drop(CapLock))
    // A checkpoint: stop here if any signal was recorded.
    else if v.signal.Some? then
      (Cancel(q, v), NoEffect)
    else
      (if at < PROVISIONED then q.(pc := Flow(at + 1)) else q.(done := true, pc := OuterFinally), NoEffect)
  }

  /** A call made through the gate, on to the next point if it succeeds. */
  function GatedStep(q: Proc, v: View, a: Action): Proc
    requires q.pc.Flow? && (a.result.Stop? ==> v.signal.Some?)
  {
    match a.result
    case Good => q.(pc := Flow(q.pc.at + 1))
    case Again => q
    case Bad => Raise(q, Failure)
    case Stop => Cancel(q, v)
  }

  /** `_teardown` and `_remove_vm`, then `_clear_state`; a failed `tart list` is a problem like any other. */
  function RemovalStep(q: Proc, v: View, a: Action): (Proc, Effect)
    requires q.pc.Removal?
  {
    var Removal(stage, from) := q.pc;
    if a.result.Bad? && stage != REAP_RUN then
      // `tart stop` and `tart delete` may have done their work all the same.
      (Finish(q, from, true),
       if a.touched && stage == STOP then Halt else if a.touched && stage == DELETE then Remove else NoEffect)
    else if stage == LIST_BEFORE then
      (q.(pc := Removal(if v.present then STOP else REAP_RUN, from)), NoEffect)
    else if stage == STOP then
      (q.(pc := Removal(LIST_RUNNING, from)), if a.touched then Halt else NoEffect)
    else if stage == LIST_RUNNING then
      (if v.running then Finish(q, from, true) else q.(pc := Removal(REAP_RUN, from)), NoEffect)
    else if stage == REAP_RUN then
      (q.(pc := Removal(LIST_STOPPED, from)), if q.ran then Halt else NoEffect)
    else if stage == LIST_STOPPED then
      (q.(pc := Removal(if v.present then DELETE else CLEAR_CLAIM, from)), NoEffect)
    else if stage == DELETE then
      (q.(pc := Removal(LIST_DELETED, from)), if a.touched then Remove else NoEffect)
    else if stage == LIST_DELETED then
      (if v.present then Finish(q, from, true) else q.(pc := Removal(CLEAR_CLAIM, from)), NoEffect)
    else if stage == CLEAR_CLAIM then
      (q.(past := q.past.(dropped := true, found := v.identity), pc := Removal(CLEAR_IDENTITY, from)), DropClaim)
    else if stage == CLEAR_IDENTITY then
      (Finish(q, from, false), DropIdentity)
    else
      (q.(pc := Removal(LIST_BEFORE, from)), NoEffect)
  }

  /** `_destroy_locked` up to the removal. */
  function DestroyStep(q: Proc, v: View, a: Action): (Proc, Effect)
    requires q.pc.ReadClaim? || q.pc.LookUp? || q.pc.Verify?
  {
    (if a.result.Bad? then Raise(q, Failure)
     else match q.pc
       case ReadClaim =>
         if v.claim.None? then q.(pc := LeaveWorktree)
         else if v.claim.value.Empty? then q.(pc := Removal(CLEAR_CLAIM, Destroying))
         else if v.claim.value.name.Other? then Raise(q, Failure)
         else q.(name := Some(v.claim.value.name), pc := LookUp)
       case LookUp => q.(pc := if v.present then Verify else Removal(CLEAR_CLAIM, Destroying))
       case Verify => if v.verified then q.(pc := Removal(LIST_BEFORE, Destroying)) else Raise(q, Failure),
     NoEffect)
  }

  /** Whether the step polls the gate: checkpoints, waits and calls that go through it, and leaving it. */
  predicate Polls(q: Proc, a: Action) {
    match q.pc
    case WaitWorktree => a.result.Stop?
    case Flow(at) =>
      if at == WAIT_CAP then a.result.Stop?
      else at != CLAIM && at != IDENTIFY && at != BOOT && at != LEAVE_CAP && !a.result.Bad?
    case LeaveGate => true
    case _ => false
  }

  // Effects on the host --------------------------------------------------------------------

  /** Change the state of the named VM, if it exists. */
  function SetState(vms: map<Name, Vm>, n: Option<Name>, s: VmState): map<Name, Vm> {
    if n.Some? && n.value in vms then vms[n.value := vms[n.value].(state := s)] else vms
  }

  function Apply(h: Host, p: Pid, q: Proc, e: Effect): Host {
    match e
    case NoEffect => h
    case Take(l) => h.(locks := h.locks[l := Held(p)])
    case Drop(l) =>
      var starting := q.name.Some? && q.name.value in h.vms && h.vms[q.name.value].state.Starting?;
      h.(locks := h.locks - {l},
         leaked := if l.CapLock? && starting then h.leaked + {q.name.value} else h.leaked)
    case Abandon(l) => h.(abandoned := h.abandoned + {(p, l)})
    case PutClaim => if q.name.Some? then h.(claims := h.claims[q.wt := Names(q.name.value)]) else h
    case DropClaim => h.(claims := h.claims - {q.wt})
    case PutIdentity =>
      if q.name.Some? && q.name.value in h.vms
      then h.(identities := h.identities[q.wt := h.vms[q.name.value].disk]) else h
    case DropIdentity => h.(identities := h.identities - {q.wt})
    case Create(disk) => if q.name.Some? then h.(vms := h.vms[q.name.value := Vm(Stopped, disk)]) else h
    case Boot => h.(vms := SetState(h.vms, q.name, if h.prompt then Running else Starting))
    case Halt => h.(vms := SetState(h.vms, q.name, Stopped))
    case Remove => if q.name.Some? then h.(vms := h.vms - {q.name.value}) else h
  }

  // The whole system -----------------------------------------------------------------------

  /** Anything that can happen next on the host. */
  datatype Event =
    | Spawn(pid: Pid, verb: Verb, wt: Worktree, uuid: nat, capacity: nat)
    | Step(pid: Pid, action: Action)
    | Signal(pid: Pid, signo: nat)
    | Listed(vm: Name)                      // a starting VM is now listed as running
    | Dies(vm: Name)                        // a guest shuts down, or its `tart run` exits
    | WaiterTakes(pid: Pid, lock: Lock)     // an abandoned waiter gets the lock it waited for,
    | WaiterCloses(pid: Pid, lock: Lock)    // and closes the file at once
    | WaiterEnds(pid: Pid, lock: Lock)      // or dies with its process

  /** A name no VM, claim or process has had. */
  ghost predicate Fresh(h: Host, n: Name) {
    && n !in h.made
    && n !in h.vms
    && (forall wt | wt in h.claims :: h.claims[wt] != Names(n))
    && (forall p | p in h.procs :: h.procs[p].name != Some(n))
  }

  ghost predicate Enabled(h: Host, ev: Event) {
    match ev
    case Spawn(p, verb, wt, uuid, capacity) =>
      p !in h.procs && 0 < capacity && (verb.Up? ==> Fresh(h, Own(uuid)))
    case Step(p, a) => p in h.procs && p in h.gates && Possible(h.procs[p], See(h, p), a)
    case Signal(p, _) => p in h.procs && p in h.gates && !h.procs[p].pc.Ended?
    case Listed(n) => n in h.vms && h.vms[n].state.Starting?
    case Dies(n) => n in h.vms
    case WaiterTakes(p, l) => (p, l) in h.abandoned && HolderOf(h, l).Free?
    case WaiterCloses(p, l) => (p, l) in h.abandoned && HolderOf(h, l) == Passing(p)
    case WaiterEnds(p, l) => (p, l) in h.abandoned && HolderOf(h, l) != Passing(p)
  }

  ghost function Do(h: Host, ev: Event): Host
    requires Enabled(h, ev)
  {
    match ev
    case Spawn(p, verb, wt, uuid, capacity) =>
      var name := if verb.Up? then Some(Own(uuid)) else None;
      h.(procs := h.procs[p := Launch(verb, wt, name)],
         gates := h.gates[p := Entered(capacity)],
         made := if verb.Up? then h.made[Own(uuid) := wt] else h.made)
    case Step(p, a) =>
      var q := h.procs[p];
      var (q', e) := Local(q, See(h, p), a);
      Apply(h, p, q, e).(procs := h.procs[p := q'],
                         gates := if Polls(q, a) then h.gates[p := Drained(h.gates[p])] else h.gates)
    case Signal(p, s) => h.(gates := h.gates[p := Deliver(h.gates[p], s)])
    case Listed(n) => h.(vms := SetState(h.vms, Some(n), Running))
    case Dies(n) => h.(vms := SetState(h.vms, Some(n), Stopped))
    case WaiterTakes(p, l) => h.(locks := h.locks[l := Passing(p)])
    case WaiterCloses(p, l) => h.(locks := h.locks - {l}, abandoned := h.abandoned - {(p, l)})
    case WaiterEnds(p, l) => h.(abandoned := h.abandoned - {(p, l)})
  }

  /** A host at rest: nothing running in the tool, at most the cap running on the Mac, every VM it made claimed. */
  ghost predicate Init(h: Host) {
    && h.procs == map[] && h.gates == map[] && h.locks == map[] && h.abandoned == {} && h.leaked == {}
    && (forall n | n in h.vms :: !h.vms[n].state.Starting?)
    && |RunningVms(h)| <= MAX_CONCURRENT_VMS
    && ClaimsAreOwn(h)
    && VmsAreClaimed(h)
  }

  /** No worktree's claim names a VM made for another worktree. */
  ghost predicate ClaimsAreOwn(h: Host) {
    forall wt | wt in h.claims && h.claims[wt].Names? && h.claims[wt].name in h.made ::
      h.made[h.claims[wt].name] == wt
  }

  /** A VM `up` made exists only while its worktree's claim names it. */
  ghost predicate VmsAreClaimed(h: Host) {
    forall n | n in h.made && n in h.vms :: h.made[n] in h.claims && h.claims[h.made[n]] == Names(n)
  }

  ghost predicate ValidRun(h: Host, run: seq<Event>)
    decreases |run|, 0
  {
    run == [] || (ValidRun(h, run[..|run| - 1]) && Enabled(After(h, run[..|run| - 1]), run[|run| - 1]))
  }

  /** The host after a run. */
  ghost function After(h: Host, run: seq<Event>): Host
    requires ValidRun(h, run)
    decreases |run|, 1
  {
    if run == [] then h else Do(After(h, run[..|run| - 1]), run[|run| - 1])
  }
}
