/**
 `SignalGate.flock` and `_flock` of scripts/devvm_macos.py as a system of two parties, caller and waiter, with
 a mutex, a state word, the file `f` and the two ends of a pipe between them. Each descriptor carries a count
 of its closes. Closing `f` releases its lock. A close of a closed descriptor, and a write into a pipe either
 end of which is closed, go into `faults`. Every interleaving is a run of `Next`.
 */
module LockHandoff {
  import opened Wrappers

  datatype Party = Caller | Waiter

  datatype Word = Waiting | Done | Abandoned

  datatype CallerAt =
    | Selecting                                            // in `wait_for([done_r])`
    | WantsMutex | InMutex | ClosesF | ClosesW | Unlocks   // the `except` arm
    | ClosesR | Raised
    | Woken | Joins | ClosesW2 | Decides | ClosesF2 | RaisedError
    | Returned                                             // `flock` returned; the body of the `with` runs
    | Left                                                 // `_flock` has closed `f`

  datatype WaiterAt =
    | Blocked                                              // in `fcntl.flock`
    | Awake | Locked | AbandonClosesF | AbandonClosesW | Writes | Releases | Finished

  datatype State = State(
    caller: CallerAt, waiter: WaiterAt, mutex: Option<Party>, word: Word,
    failed: bool,      // the waiter's `fcntl.flock` raised
    stored: bool,      // what it stored in `state["error"]`
    held: bool,        // `f` holds the lock
    taken: bool,       // some other open file holds it
    io: Io)

  /** The three descriptors: which are open, how often each was closed, what was written, and what went wrong. */
  datatype Io = Io(
    f: bool, w: bool, r: bool,
    fCloses: nat, wCloses: nat, rCloses: nat,
    bytes: nat, faults: nat)

  function Start(taken: bool): State {
    State(Selecting, Blocked, None, Waiting, false, false, false, taken, Io(true, true, true, 0, 0, 0, 0, 0))
  }

  function CloseF(io: Io): Io {
    io.(f := false, fCloses := io.fCloses + 1, faults := io.faults + if io.f then 0 else 1)
  }

  function CloseW(io: Io): Io {
    io.(w := false, wCloses := io.wCloses + 1, faults := io.faults + if io.w then 0 else 1)
  }

  function CloseR(io: Io): Io {
    io.(r := false, rCloses := io.rCloses + 1, faults := io.faults + if io.r then 0 else 1)
  }

  /** One byte into the pipe. */
  function Write(io: Io): Io {
    io.(bytes := io.bytes + 1, faults := io.faults + if io.w && io.r then 0 else 1)
  }

  datatype Move = CallerMoves | CallerInterrupted | WaiterMoves | WaiterFails | OtherTakes | OtherDrops

  predicate Enabled(s: State, m: Move) {
    match m
    case CallerInterrupted => s.caller.Selecting?
    case CallerMoves =>
      (match s.caller
       case Selecting => s.io.bytes > 0
       case WantsMutex => s.mutex.None?
       case Joins => s.waiter.Finished?
       case Raised | RaisedError | Left => false
       case _ => true)
    case WaiterFails => s.waiter.Blocked?
    case WaiterMoves =>
      (match s.waiter
       case Blocked => s.io.f && !s.taken
       case Awake => s.mutex.None?
       case Finished => false
       case _ => true)
    case OtherTakes => !s.taken && !s.held
    case OtherDrops => s.taken
  }

  function Next(s: State, m: Move): State
    requires Enabled(s, m)
  {
    match m
    case CallerInterrupted => s.(caller := WantsMutex)
    case CallerMoves => CallerStep(s)
    case WaiterFails => s.(waiter := Awake, failed := true)
    case WaiterMoves => WaiterStep(s)
    case OtherTakes => s.(taken := true)
    case OtherDrops => s.(taken := false)
  }

  function CallerStep(s: State): State {
    CallerActs(s).(caller := CallerNext(s))
  }

  /** Where the caller goes. */
  function CallerNext(s: State): CallerAt {
    match s.caller
    case Selecting => Woken
    case WantsMutex => InMutex
    case InMutex => if s.word.Done? then ClosesF else Unlocks
    case ClosesF => ClosesW
    case ClosesW => Unlocks
    case Unlocks => ClosesR
    case ClosesR => Raised
    case Woken => Joins
    case Joins => ClosesW2
    case ClosesW2 => Decides
    case Decides => if s.stored then ClosesF2 else Returned
    case ClosesF2 => RaisedError
    case Returned => Left
    case Raised | RaisedError | Left => s.caller
  }

  /** And what it does on the way. */
  function CallerActs(s: State): State {
    match s.caller
    case WantsMutex => s.(mutex := Some(Caller))
    case InMutex => if s.word.Done? then s else s.(word := Abandoned)
    case ClosesF | ClosesF2 | Returned => s.(held := false, io := CloseF(s.io))
    case ClosesW | ClosesW2 => s.(io := CloseW(s.io))
    case Unlocks => s.(mutex := None)
    case ClosesR | Woken => s.(io := CloseR(s.io))
    case _ => s
  }

  function WaiterStep(s: State): State {
    WaiterActs(s).(waiter := WaiterNext(s))
  }

  function WaiterNext(s: State): WaiterAt {
    match s.waiter
    case Blocked => Awake
    case Awake => Locked
    case Locked => if s.word.Abandoned? then AbandonClosesF else Writes
    case AbandonClosesF => AbandonClosesW
    case AbandonClosesW | Writes => Releases
    case Releases | Finished => Finished
  }

  function WaiterActs(s: State): State {
    match s.waiter
    case Blocked => s.(held := true)
    case Awake => s.(mutex := Some(Waiter))
    case Locked => if s.word.Abandoned? then s else s.(word := Done, stored := s.failed)
    case AbandonClosesF => s.(held := false, io := CloseF(s.io))
    case AbandonClosesW => s.(io := CloseW(s.io))
    case Writes => s.(io := Write(s.io))
    case Releases => s.(mutex := None)
    case Finished => s
  }

  // The invariant --------------------------------------------------------------------------

  /** The caller has given the wait up and left everything but the read end to the waiter. */
  predicate GaveUp(s: State) {
    s.word.Abandoned?
  }

  /** Nothing was closed twice or written after a close. */
  ghost predicate Clean(s: State) {
    && s.io.faults == 0
    && s.io.fCloses == (if s.io.f then 0 else 1)
    && s.io.wCloses == (if s.io.w then 0 else 1)
    && s.io.rCloses == (if s.io.r then 0 else 1)
  }

  ghost predicate LockOk(s: State) {
    && !(s.held && s.taken)
    && (s.held ==> s.io.f)
    && (s.waiter.Blocked? ==> !s.held && !s.failed)
    && (!s.waiter.Blocked? && s.io.f ==> s.held == !s.failed)
  }

  ghost predicate MutexOk(s: State) {
    && (s.mutex == Some(Caller) <==> s.caller.InMutex? || s.caller.ClosesF? || s.caller.ClosesW? || s.caller.Unlocks?)
    && (s.mutex == Some(Waiter) <==> s.waiter.Locked? || s.waiter.AbandonClosesF? || s.waiter.AbandonClosesW?
                                     || s.waiter.Writes? || s.waiter.Releases?)
  }

  ghost predicate WaiterOk(s: State) {
    match s.waiter
    case Blocked | Awake | Locked => !s.word.Done? && s.io.f && s.io.w && s.io.bytes == 0
    case AbandonClosesF => GaveUp(s) && s.io.f && s.io.w && s.io.bytes == 0
    case AbandonClosesW => GaveUp(s) && !s.io.f && s.io.w && s.io.bytes == 0
    case Writes => s.word.Done? && s.stored == s.failed && s.io.f && s.io.w && s.io.r && s.io.bytes == 0
    case Releases | Finished =>
      && !s.word.Waiting?
      && (s.word.Done? ==> s.io.bytes == 1 && s.stored == s.failed)
      && (GaveUp(s) ==> !s.io.f && !s.io.w && s.io.bytes == 0)
  }

  ghost predicate CallerOk(s: State) {
    match s.caller
    case Selecting | WantsMutex | InMutex => !GaveUp(s) && s.io.f && s.io.w && s.io.r
    case ClosesF => s.word.Done? && s.waiter.Finished? && s.io.f && s.io.w && s.io.r
    case ClosesW => s.word.Done? && s.waiter.Finished? && !s.io.f && s.io.w && s.io.r
    case Unlocks | ClosesR => s.io.r && (GaveUp(s) || (s.waiter.Finished? && !s.io.f && !s.io.w))
    case Raised => !s.io.r && (GaveUp(s) || (s.waiter.Finished? && !s.io.f && !s.io.w))
    case Woken => s.word.Done? && s.io.bytes == 1 && s.io.f && s.io.w && s.io.r
    case Joins => s.word.Done? && s.io.bytes == 1 && s.io.f && s.io.w && !s.io.r
    case ClosesW2 => s.word.Done? && s.waiter.Finished? && s.io.f && s.io.w && !s.io.r
    case Decides => s.word.Done? && s.waiter.Finished? && s.io.f && !s.io.w && !s.io.r
    case ClosesF2 => s.word.Done? && s.waiter.Finished? && s.io.f && !s.io.w && !s.io.r && s.failed
    case Returned => s.word.Done? && s.waiter.Finished? && s.io.f && !s.io.w && !s.io.r && !s.failed
    case RaisedError | Left => s.word.Done? && s.waiter.Finished? && !s.io.f && !s.io.w && !s.io.r
  }

  ghost predicate Inv(s: State) {
    Clean(s) && LockOk(s) && MutexOk(s) && WaiterOk(s) && CallerOk(s)
  }

  lemma CallerKeeps(s: State)
    requires Inv(s) && Enabled(s, CallerMoves)
    ensures Inv(CallerStep(s))
  {
    match s.caller
    case WantsMutex | InMutex | ClosesF | ClosesW | Unlocks =>
    case ClosesR | Raised =>
    case Selecting | Woken | Joins | ClosesW2 =>
    case Decides | ClosesF2 | RaisedError =>
    case Returned | Left =>
  }

  lemma WaiterKeeps(s: State)
    requires Inv(s) && Enabled(s, WaiterMoves)
    ensures Inv(WaiterStep(s))
  {
  }

  lemma NextKeeps(s: State, m: Move)
    requires Inv(s) && Enabled(s, m)
    ensures Inv(Next(s, m))
  {
    match m
    case CallerMoves => CallerKeeps(s);
    case WaiterMoves => WaiterKeeps(s);
    case _ =>
  }

  // Every interleaving ---------------------------------------------------------------------

  ghost predicate Run(s: State, moves: seq<Move>)
    decreases |moves|
  {
    moves == [] || (Enabled(s, moves[0]) && Run(Next(s, moves[0]), moves[1..]))
  }

  ghost function After(s: State, moves: seq<Move>): State
    requires Run(s, moves)
    decreases |moves|
  {
    if moves == [] then s else After(Next(s, moves[0]), moves[1..])
  }

  lemma {:induction false} RunKeeps(s: State, moves: seq<Move>)
    requires Inv(s) && Run(s, moves)
    ensures Inv(After(s, moves))
    decreases |moves|
  {
    if moves != [] {
      NextKeeps(s, moves[0]);
      RunKeeps(Next(s, moves[0]), moves[1..]);
    }
  }

  /** The caller is through: it raised, or `_flock` has left its `with`. */
  predicate CallerThrough(s: State) {
    s.caller.Raised? || s.caller.RaisedError? || s.caller.Left?
  }

  /**
   In every interleaving no descriptor is closed twice and nothing is written into a closed pipe; once
   both parties are through, each descriptor was closed exactly once and the lock is not held.
   */
  lemma EachClosedOnce(taken: bool, moves: seq<Move>)
    requires Run(Start(taken), moves)
    ensures var s := After(Start(taken), moves);
            && s.io.faults == 0 && s.io.fCloses <= 1 && s.io.wCloses <= 1 && s.io.rCloses <= 1
            && (CallerThrough(s) && s.waiter.Finished? ==> s.io.fCloses == s.io.wCloses == s.io.rCloses == 1 && !s.held)
  {
    RunKeeps(Start(taken), moves);
  }

  /**
   `flock` returns exactly with the lock, and no one else then has it; a raise leaves it only to an unfinished
   waiter.
   */
  lemma ReturnsWithTheLock(taken: bool, moves: seq<Move>)
    requires Run(Start(taken), moves)
    ensures var s := After(Start(taken), moves);
            && (s.caller.Returned? ==> s.held && s.io.f && !s.taken)
            && (CallerThrough(s) && s.held ==> s.caller.Raised? && GaveUp(s) && !s.waiter.Finished?)
  {
    RunKeeps(Start(taken), moves);
  }

  /** Neither party ever waits for the other in vain: only a lock taken elsewhere can hold the waiter up. */
  lemma NeverStuck(taken: bool, moves: seq<Move>)
    requires Run(Start(taken), moves)
    ensures var s := After(Start(taken), moves);
            || Enabled(s, CallerMoves) || Enabled(s, WaiterMoves)
            || (CallerThrough(s) && s.waiter.Finished?)
            || (s.waiter.Blocked? && s.taken)
  {
    RunKeeps(Start(taken), moves);
    var s := After(Start(taken), moves);
    if s.mutex.Some? {
      match s.mutex.value
      case Caller =>
      case Waiter =>
    }
  }

  // What ends the wait -----------------------------------------------------------------------

  /** The caller is on its way to raising the cancel, or has raised it. */
  predicate Cancelling(s: State) {
    match s.caller
    case WantsMutex | InMutex | ClosesF | ClosesW | Unlocks | ClosesR | Raised => true
    case _ => false
  }

  lemma NextCause(s: State, m: Move)
    requires Enabled(s, m)
    ensures Cancelling(Next(s, m)) <==> Cancelling(s) || m.CallerInterrupted?
    ensures Next(s, m).failed <==> s.failed || m.WaiterFails?
  {
    hide CallerStep, WaiterStep, CallerLeft, WaiterLeft;
    match m
    case CallerMoves => CallerCause(s);
    case WaiterMoves => WaiterCause(s);
    case _ =>
  }

  lemma CallerCause(s: State)
    requires Enabled(s, CallerMoves)
    ensures CallerStep(s).failed == s.failed && CallerStep(s).waiter == s.waiter
    ensures Cancelling(CallerStep(s)) == Cancelling(s) && CallerLeft(CallerStep(s).caller) < CallerLeft(s.caller)
  {
    hide CallerActs;
    CallerTouches(s);
  }

  lemma CallerTouches(s: State)
    ensures CallerActs(s).failed == s.failed && CallerActs(s).waiter == s.waiter
  {
  }

  lemma WaiterTouches(s: State)
    ensures WaiterActs(s).failed == s.failed && WaiterActs(s).caller == s.caller
  {
  }

  lemma WaiterCause(s: State)
    requires Enabled(s, WaiterMoves)
    ensures WaiterStep(s).failed == s.failed && WaiterStep(s).caller == s.caller
    ensures WaiterLeft(WaiterStep(s).waiter) < WaiterLeft(s.waiter)
  {
    hide WaiterActs;
    WaiterTouches(s);
  }

  lemma {:induction false} RunCause(s: State, moves: seq<Move>)
    requires Run(s, moves)
    ensures Cancelling(After(s, moves)) <==> Cancelling(s) || CallerInterrupted in moves
    ensures After(s, moves).failed <==> s.failed || WaiterFails in moves
    decreases |moves|
  {
    if moves != [] {
      NextCause(s, moves[0]);
      RunCause(Next(s, moves[0]), moves[1..]);
      assert moves == [moves[0]] + moves[1..];
    }
  }

  /**
   In every interleaving the caller raises the cancel exactly if a signal interrupted its wait, raises the
   waiter's error exactly if the lock failed and no signal did, and returns exactly if neither happened.
   */
  lemma WhatEndsTheWait(taken: bool, moves: seq<Move>)
    requires Run(Start(taken), moves)
    ensures var s := After(Start(taken), moves);
            var interrupted, failed := CallerInterrupted in moves, WaiterFails in moves;
            && (s.caller.Returned? ==> !interrupted && !failed)
            && (CallerThrough(s) ==> (s.caller.Raised? <==> interrupted))
            && (CallerThrough(s) ==> (s.caller.RaisedError? <==> !interrupted && failed))
            && (CallerThrough(s) ==> (s.caller.Left? <==> !interrupted && !failed))
  {
    RunKeeps(Start(taken), moves);
    RunCause(Start(taken), moves);
    RunKeepsError(Start(taken), moves);
  }

  /** The caller leaves by the way the waiter's outcome shows. */
  ghost predicate ErrorOk(s: State) {
    (s.caller.Left? ==> !s.failed) && (s.caller.RaisedError? ==> s.failed)
  }

  lemma {:induction false} RunKeepsError(s: State, moves: seq<Move>)
    requires Run(s, moves) && Inv(s) && ErrorOk(s)
    ensures ErrorOk(After(s, moves))
    decreases |moves|
  {
    if moves != [] {
      NextKeeps(s, moves[0]);
      RunKeepsError(Next(s, moves[0]), moves[1..]);
    }
  }

  /** The moves a caller, and a waiter, has left. */
  function CallerLeft(at: CallerAt): nat {
    match at
    case Selecting => 8
    case WantsMutex | Woken => 7
    case InMutex | Joins => 6
    case ClosesF | ClosesW2 => 5
    case ClosesW | Decides => 4
    case Unlocks => 3
    case ClosesR => 2
    case ClosesF2 | Returned => 1
    case Raised | RaisedError | Left => 0
  }

  function WaiterLeft(at: WaiterAt): nat {
    match at
    case Blocked => 6
    case Awake => 5
    case Locked => 4
    case AbandonClosesF => 3
    case AbandonClosesW | Writes => 2
    case Releases => 1
    case Finished => 0
  }

  function Work(s: State): nat {
    CallerLeft(s.caller) + WaiterLeft(s.waiter)
  }

  lemma NextWorks(s: State, m: Move)
    requires Enabled(s, m)
    ensures if m.OtherTakes? || m.OtherDrops? then Work(Next(s, m)) == Work(s) else Work(Next(s, m)) < Work(s)
  {
    hide CallerStep, WaiterStep;
    match m
    case CallerMoves => CallerCause(s);
    case WaiterMoves => WaiterCause(s);
    case _ =>
  }

  lemma AtFirst(taken: bool)
    ensures Work(Start(taken)) == 14
  {
  }

  /** How many of the moves are the caller's or the waiter's. */
  function Own(moves: seq<Move>): nat {
    if moves == [] then 0
    else (if moves[0].OtherTakes? || moves[0].OtherDrops? then 0 else 1) + Own(moves[1..])
  }

  /** In every interleaving the two parties make at most 14 moves; with `NeverStuck`, they get to their end. */
  lemma {:induction false} BoundedMoves(s: State, moves: seq<Move>)
    requires Run(s, moves)
    ensures Own(moves) + Work(After(s, moves)) <= Work(s)
    ensures s == Start(s.taken) ==> Own(moves) <= 14
    decreases |moves|
  {
    hide Next, Enabled, Work;
    if moves != [] {
      NextWorks(s, moves[0]);
      BoundedMoves(Next(s, moves[0]), moves[1..]);
    }
    if s == Start(s.taken) {
      AtFirst(s.taken);
    }
  }
}
