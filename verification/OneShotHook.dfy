/**
 The one-shot hook slot of src/oneshot_hook.rs. A hook is named by the generation that armed it, since
 every arming takes a new one. A hook that arms or fires again while it runs does so after it was
 taken, so nested calls are simply the next operations of the history.
 */
module OneShotHook {
  import opened Wrappers

  datatype Op = Arm | Fire | DropGuard(generation: nat)

  /** The slot and counter, with what became of each hook that left the slot, in order. */
  datatype State = State(slot: Option<nat>, generation: nat, ran: seq<nat>, cleared: seq<nat>, replaced: seq<nat>)

  const EMPTY := State(None, 0, [], [], [])

  function Next(s: State, op: Op): State {
    match op
    case Arm =>
      var left := if s.slot.Some? then s.replaced + [s.slot.value] else s.replaced;
      s.(slot := Some(s.generation + 1), generation := s.generation + 1, replaced := left)
    case Fire =>
      if s.slot.Some? then s.(slot := None, ran := s.ran + [s.slot.value]) else s
    case DropGuard(g) =>
      if s.slot == Some(g) then s.(slot := None, cleared := s.cleared + [g]) else s
  }

  function After(ops: seq<Op>): State {
    if ops == [] then EMPTY else Next(After(ops[..|ops| - 1]), ops[|ops| - 1])
  }

  // Fates ------------------------------------------------------------------------------------

  datatype Fate = StillArmed | Fired | ClearedByItsGuard | Replaced

  /** How many hooks `ops` arms; the hook armed by `ops[i]` is the one numbered `Armings(ops[..i + 1])`. */
  function Armings(ops: seq<Op>): nat {
    if ops == [] then 0 else Armings(ops[..|ops| - 1]) + (if ops[|ops| - 1].Arm? then 1 else 0)
  }

  /** The first event after its arming that concerns hook `g` decides its fate. Drops of other guards do not. */
  function FateIn(later: seq<Op>, g: nat): Fate {
    if later == [] then StillArmed
    else match later[0]
      case Arm => Replaced
      case Fire => Fired
      case DropGuard(other) => if other == g then ClearedByItsGuard else FateIn(later[1..], g)
  }

  function Count(s: seq<nat>, g: nat): nat {
    multiset(s)[g]
  }

  predicate EndedAs(s: State, g: nat, fate: Fate) {
    && (s.slot == Some(g) <==> fate.StillArmed?)
    && Count(s.ran, g) == (if fate.Fired? then 1 else 0)
    && Count(s.cleared, g) == (if fate.ClearedByItsGuard? then 1 else 0)
    && Count(s.replaced, g) == (if fate.Replaced? then 1 else 0)
  }

  /** No hook of that number has been armed. */
  predicate Unarmed(s: State, g: nat) {
    s.slot != Some(g) && Count(s.ran, g) == 0 && Count(s.cleared, g) == 0 && Count(s.replaced, g) == 0
  }

  lemma {:induction false} GenerationCounts(ops: seq<Op>)
    ensures After(ops).generation == Armings(ops)
    ensures forall g | g > Armings(ops) || g == 0 :: Unarmed(After(ops), g)
  {
    if ops != [] {
      var front := ops[..|ops| - 1];
      GenerationCounts(front);
      forall g | g > Armings(ops) || g == 0
        ensures Unarmed(After(ops), g)
      {
        assert Unarmed(After(front), g);
        NextUnarmed(After(front), ops[|ops| - 1], g);
      }
    }
  }

  lemma NextUnarmed(s: State, op: Op, g: nat)
    requires Unarmed(s, g) && (op.Arm? ==> g != s.generation + 1)
    ensures Unarmed(Next(s, op), g)
  {
  }

  lemma ArmingEnds(s: State, g: nat)
    requires Unarmed(s, g) && g == s.generation + 1
    ensures EndedAs(Next(s, Arm), g, StillArmed)
  {
  }

  lemma ArmingCounts(ops: seq<Op>)
    ensures var s := After(ops + [Arm]); s == Next(After(ops), Arm) && s.generation == Armings(ops + [Arm])
  {
    assert (ops + [Arm])[..|ops|] == ops;
    GenerationCounts(ops + [Arm]);
  }

  lemma {:induction false} FateGrows(later: seq<Op>, op: Op, g: nat)
    ensures FateIn(later + [op], g) == if FateIn(later, g) != StillArmed then FateIn(later, g) else FateIn([op], g)
  {
    if later == [] {
      assert later + [op] == [op];
    } else {
      assert (later + [op])[1..] == later[1..] + [op];
      FateGrows(later[1..], op, g);
    }
  }

  lemma NextEnds(s: State, op: Op, g: nat, fate: Fate)
    requires EndedAs(s, g, fate) && 0 < g <= s.generation
    ensures EndedAs(Next(s, op), g, if fate != StillArmed then fate else FateIn([op], g))
  {
  }

  /**
   Over every history the hook armed at step `i` ends as exactly one of fired, cleared by its own
   guard, replaced or still armed, and the first later event that concerns it says which. It has then
   run once or never, and no other guard's drop is what cleared it.
   */
  lemma {:induction false} FateOfEachHook(ops: seq<Op>, i: nat)
    requires i < |ops| && ops[i].Arm?
    ensures EndedAs(After(ops), Armings(ops[..i + 1]), FateIn(ops[i + 1..], Armings(ops[..i + 1])))
    decreases |ops|
  {
    hide Unarmed, EndedAs, Next, FateIn;
    var front, last, g := ops[..|ops| - 1], ops[|ops| - 1], Armings(ops[..i + 1]);
    GenerationCounts(front);
    if i == |ops| - 1 {
      assert ops[..i + 1] == ops;
      assert FateIn(ops[i + 1..], g) == StillArmed by { NoLaterEvents(ops[i + 1..], g); }
      ArmingEnds(After(front), g);
    } else {
      FateOfEachHook(front, i);
      assert front[..i + 1] == ops[..i + 1];
      assert ops == front + [last];
      assert (front + [last])[i + 1..] == front[i + 1..] + [last];
      FateGrows(front[i + 1..], last, g);
      ArmingsGrow(front, i + 1);
      NextEnds(After(front), last, g, FateIn(front[i + 1..], g));
    }
  }

  lemma NoLaterEvents(later: seq<Op>, g: nat)
    requires |later| == 0
    ensures FateIn(later, g) == StillArmed
  {
  }

  lemma {:induction false} ArmingsGrow(ops: seq<Op>, n: nat)
    requires n <= |ops|
    ensures Armings(ops[..n]) <= Armings(ops)
    ensures n > 0 && ops[n - 1].Arm? ==> Armings(ops[..n]) > 0
    decreases |ops|
  {
    if n < |ops| {
      var front := ops[..|ops| - 1];
      ArmingsGrow(front, n);
      assert front[..n] == ops[..n];
    } else {
      assert ops[..n] == ops;
    }
  }

  /** Dropping a guard whose hook is no longer in the slot changes nothing, whatever is armed there now. */
  lemma LateDropIsHarmless(ops: seq<Op>, i: nat)
    requires i < |ops| && ops[i].Arm?
    requires FateIn(ops[i + 1..], Armings(ops[..i + 1])) != StillArmed
    ensures After(ops + [DropGuard(Armings(ops[..i + 1]))]) == After(ops)
  {
    var g := Armings(ops[..i + 1]);
    FateOfEachHook(ops, i);
    assert (ops + [DropGuard(g)])[..|ops|] == ops;
  }

  // The slot itself ------------------------------------------------------------------------------

  /** A hook, known only by what it answers. */
  type Hook<!A, !R> = A -> R

  class Slot<A(!new), R> {
    var slot: Option<(nat, Hook<A, R>)>
    var generation: nat
    ghost var history: seq<Op>

    ghost predicate Valid()
      reads this
    {
      var s := After(history);
      && s.generation == generation
      && s.slot == (if slot.Some? then Some(slot.value.0) else None)
    }

    constructor ()
      ensures Valid() && history == [] && slot.None?
    {
      slot, generation, history := None, 0, [];
    }

    /**
     `arm_with`; `guard` is the generation the returned guard holds. A debug build panics if a hook was still
     armed, but only after the new one took its place, so what is lost then is the guard.
     */
    method ArmWith(hook: Hook<A, R>, debug: bool) returns (guard: Option<nat>)
      requires Valid()
      modifies this
      ensures Valid() && history == old(history) + [Arm] && slot == Some((Armings(history), hook))
      ensures guard == if debug && old(slot).Some? then None else Some(Armings(history))
    {
      var previous := slot;
      generation := generation + 1;
      slot := Some((generation, hook));
      guard := if debug && previous.Some? then None else Some(generation);
      history := history + [Arm];
      ArmingCounts(old(history));
    }

    /** `fire_with`. The hook leaves the slot before it runs. */
    method FireWith(arg: A) returns (answer: Option<R>)
      requires Valid()
      modifies this
      ensures Valid() && history == old(history) + [Fire] && slot.None?
      ensures answer == if old(slot).Some? then Some(old(slot).value.1(arg)) else None
    {
      var taken := slot;
      slot := None;
      history := history + [Fire];
      assert history[..|history| - 1] == old(history);
      answer := if taken.Some? then Some(taken.value.1(arg)) else None;
    }

    /** The guard's drop. */
    method Drop(guard: nat)
      requires Valid()
      modifies this
      ensures Valid() && history == old(history) + [DropGuard(guard)]
      ensures slot == if old(slot).Some? && old(slot).value.0 == guard then None else old(slot)
    {
      if slot.Some? && slot.value.0 == guard {
        slot := None;
      }
      history := history + [DropGuard(guard)];
      assert history[..|history| - 1] == old(history);
    }
  }
}
