/**
 `SignalGate.run` of scripts/devvm_macos.py as a system of three parties: the child, the calling thread and
 a thread that notices the exit. `Next` has their moves, a signal being one that befalls the caller; every
 interleaving is a run of it. The invariant ties the caller's point to who may still be signalled: `reaps`
 changes only in the caller's `Reaping`, and a kill after that would count as `stray`. The threads that read
 the child's output appear only in that the caller cannot join them before the child has exited.
 */
module ChildRunner {

  /** `Dying`: SIGKILL was sent to the running child. */
  datatype Child = Alive | Dying | Zombie | Reaped

  datatype Observer = Absent | Observing | Noticed | Ended

  datatype CallerAt =
    | Starting(thread: nat)   // about to start this thread; the observer comes after the readers
    | Selecting               // in `wait_for([exited_r])`
    | Killing
    | Joining | Reaping | Closing
    | Returned | Raised

  /** `stray` counts signals sent to a pid no longer ours and writes into the closed notification pipe. */
  datatype State = State(
    readers: nat, caller: CallerAt, child: Child, observer: Observer,
    interrupted: bool, pipeOpen: bool, bytes: nat, kills: nat, reaps: nat, stray: nat)

  function Spawned(readers: nat): State {
    State(readers, Starting(0), Alive, Absent, false, true, 0, 0, 0, 0)
  }

  /** What the caller does, what happens to it, and what the others do on their own. */
  datatype Move = CallerMoves | CallerInterrupted | ObserverMoves | ChildExits

  predicate Exited(s: State) {
    s.child.Zombie? || s.child.Reaped?
  }

  predicate Enabled(s: State, m: Move) {
    match m
    case CallerInterrupted => s.caller.Starting? || s.caller.Selecting?
    case CallerMoves =>
      (match s.caller
       case Selecting => s.bytes > 0
       // Every thread that was started has ended: readers at EOF, the observer after its write.
       case Joining => Exited(s) && (s.observer.Absent? || s.observer.Ended?)
       // `waitpid` blocks until the child has exited.
       case Reaping => Exited(s)
       case Returned | Raised => false
       case _ => true)
    case ObserverMoves => (s.observer.Observing? && s.child.Zombie?) || s.observer.Noticed?
    case ChildExits => s.child.Alive? || s.child.Dying?
  }

  function Next(s: State, m: Move): State
    requires Enabled(s, m)
  {
    match m
    case CallerInterrupted => s.(interrupted := true, caller := Killing)
    case ChildExits => s.(child := Zombie)
    case ObserverMoves =>
      // Noticing the exit does not change the child; the byte is written in a second move.
      if s.observer.Observing? then s.(observer := Noticed)
      else s.(observer := Ended, bytes := s.bytes + 1, stray := s.stray + if s.pipeOpen then 0 else 1)
    case CallerMoves =>
      (match s.caller
       case Starting(k) =>
         if k < s.readers then s.(caller := Starting(k + 1))
         else s.(observer := Observing, caller := Selecting)
       case Selecting => s.(caller := Joining)
       case Killing =>
         s.(caller := Joining, kills := s.kills + 1,
            child := if s.child.Alive? then Dying else s.child,
            stray := s.stray + if s.child.Reaped? then 1 else 0)
       case Joining => s.(caller := Reaping)
       case Reaping => s.(caller := Closing, child := Reaped, reaps := s.reaps + 1)
       case Closing => s.(caller := if s.interrupted then Raised else Returned, pipeOpen := false)
       case _ => s)
  }

  ghost predicate Inv(s: State) {
    && s.stray == 0
    && s.kills <= 1
    && s.reaps == (if s.child.Reaped? then 1 else 0)
    && (s.observer.Noticed? || s.observer.Ended? ==> Exited(s))
    && (s.bytes > 0 <==> s.observer.Ended?)
    && (s.kills == 1 ==> s.interrupted && !s.child.Alive?)
    && (s.child.Dying? ==> s.kills == 1)
    && (match s.caller
        case Starting(_) => s.observer.Absent? && !s.interrupted && s.kills == 0 && !s.child.Reaped? && s.pipeOpen
        case Selecting => !s.observer.Absent? && !s.interrupted && s.kills == 0 && !s.child.Reaped? && s.pipeOpen
        case Killing => s.interrupted && s.kills == 0 && !s.child.Reaped? && s.pipeOpen
        case Joining =>
          && !s.child.Reaped? && s.pipeOpen && (s.interrupted <==> s.kills == 1)
          && (!s.interrupted ==> s.observer.Ended?)
        case Reaping => s.child.Zombie? && s.pipeOpen && (s.interrupted <==> s.kills == 1) && ThreadsEnded(s)
        case Closing => s.child.Reaped? && s.pipeOpen && (s.interrupted <==> s.kills == 1) && ThreadsEnded(s)
        case Returned => s.child.Reaped? && !s.interrupted && s.kills == 0 && !s.pipeOpen && s.observer.Ended?
        case Raised => s.child.Reaped? && s.interrupted && s.kills == 1 && !s.pipeOpen && ThreadsEnded(s))
  }

  /** All threads have ended; without an interruption the observer was among them. */
  predicate ThreadsEnded(s: State) {
    s.observer.Ended? || (s.observer.Absent? && s.interrupted)
  }

  lemma NextKeeps(s: State, m: Move)
    requires Inv(s) && Enabled(s, m)
    ensures Inv(Next(s, m))
  {
  }

  // Every interleaving ---------------------------------------------------------------------

  ghost predicate Run(s: State, moves: seq<Move>)
    decreases |moves|
  {
    moves == [] || (Enabled(s, moves[0]) && Run(Next(s, moves[0]), moves[1..]))
  }

  ghost function After(s: State, moves: seq<Move>): State
    requires Run(s, moves)
    decreases |moves|
  {
    if moves == [] then s else After(Next(s, moves[0]), moves[1..])
  }

  lemma {:induction false} RunKeeps(s: State, moves: seq<Move>)
    requires Inv(s) && Run(s, moves)
    ensures Inv(After(s, moves))
    decreases |moves|
  {
    if moves != [] {
      NextKeeps(s, moves[0]);
      RunKeeps(Next(s, moves[0]), moves[1..]);
    }
  }

  /**
   In every interleaving the child is reaped at most once, and exactly once when `run` returns or
   raises; no signal goes to a pid that is not our child and no byte into a closed pipe; a return
   comes without a kill, a raise after one.
   */
  lemma ReapedExactlyOnce(readers: nat, moves: seq<Move>)
    requires Run(Spawned(readers), moves)
    ensures var s := After(Spawned(readers), moves);
            && s.reaps <= 1 && s.kills <= 1 && s.stray == 0
            && (s.caller.Returned? ==> s.reaps == 1 && s.kills == 0 && !s.interrupted)
            && (s.caller.Raised? ==> s.reaps == 1 && s.kills == 1 && s.interrupted)
            && (s.caller.Returned? || s.caller.Raised? ==> !s.observer.Observing? && !s.observer.Noticed?)
  {
    RunKeeps(Spawned(readers), moves);
  }

  /** Observing never consumes the exit: the child stays a zombie, and ours, until the caller reaps it. */
  lemma OnlyTheCallerReaps(readers: nat, moves: seq<Move>, m: Move)
    requires Run(Spawned(readers), moves) && Enabled(After(Spawned(readers), moves), m)
    ensures var s := After(Spawned(readers), moves);
            var t := Next(s, m);
            && (t.reaps != s.reaps ==> m.CallerMoves? && s.caller.Reaping? && s.child.Zombie?)
            && (t.kills != s.kills ==> m.CallerMoves? && s.caller.Killing? && !s.child.Reaped?)
            && (m.ObserverMoves? ==> t.child == s.child)
  {
    RunKeeps(Spawned(readers), moves);
  }

  /**
   The caller never waits in vain: a step is possible, it is through, or it waits for a live child it may yet
   kill or has killed.
   */
  lemma NeverStuck(readers: nat, moves: seq<Move>)
    requires Run(Spawned(readers), moves)
    ensures var s := After(Spawned(readers), moves);
            || Enabled(s, CallerMoves) || Enabled(s, ObserverMoves)
            || s.caller.Returned? || s.caller.Raised?
            || (s.caller.Selecting? && s.child.Alive?)
            || (s.caller.Joining? && s.child.Dying?)
  {
    RunKeeps(Spawned(readers), moves);
  }

  // What ends the run ------------------------------------------------------------------------

  lemma {:induction false} RunCause(s: State, moves: seq<Move>)
    requires Run(s, moves)
    ensures After(s, moves).interrupted <==> s.interrupted || CallerInterrupted in moves
    decreases |moves|
  {
    if moves != [] {
      RunCause(Next(s, moves[0]), moves[1..]);
      assert moves == [moves[0]] + moves[1..];
    }
  }

  /**
   In every interleaving `run` raises exactly if a signal interrupted it, and returns exactly if none did;
   without one the child is never signalled.
   */
  lemma RaisesExactlyIfInterrupted(readers: nat, moves: seq<Move>)
    requires Run(Spawned(readers), moves)
    ensures var s := After(Spawned(readers), moves);
            && (CallerInterrupted !in moves ==> s.kills == 0)
            && (s.caller.Returned? || s.caller.Raised? ==> (s.caller.Raised? <==> CallerInterrupted in moves))
  {
    RunKeeps(Spawned(readers), moves);
    RunCause(Spawned(readers), moves);
  }

  /** The moves that are left. */
  function Work(s: State): nat {
    (match s.caller
     case Starting(k) => 6 + (if k < s.readers then s.readers - k else 0)
     case Selecting => 5
     case Killing => 4
     case Joining => 3
     case Reaping => 2
     case Closing => 1
     case Returned | Raised => 0)
    + (match s.observer case Absent => 3 case Observing => 2 case Noticed => 1 case Ended => 0)
    + (if s.child.Alive? || s.child.Dying? then 1 else 0)
  }

  lemma NextWorks(s: State, m: Move)
    requires Inv(s) && Enabled(s, m)
    ensures Work(Next(s, m)) < Work(s)
  {
  }

  lemma AtFirst(readers: nat)
    ensures Work(Spawned(readers)) == 10 + readers
  {
  }

  /** In every interleaving there are at most 10 moves and one for each reader; by `NeverStuck` they get to the end. */
  lemma {:induction false} BoundedMoves(s: State, moves: seq<Move>)
    requires Run(s, moves) && Inv(s)
    ensures |moves| + Work(After(s, moves)) <= Work(s)
    ensures s == Spawned(s.readers) ==> |moves| <= 10 + s.readers
    decreases |moves|
  {
    hide Next, Enabled, Work, Inv;
    if moves != [] {
      NextWorks(s, moves[0]);
      NextKeeps(s, moves[0]);
      BoundedMoves(Next(s, moves[0]), moves[1..]);
    }
    if s == Spawned(s.readers) {
      AtFirst(s.readers);
    }
  }
}
