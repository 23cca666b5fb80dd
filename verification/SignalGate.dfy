/**
 The signal gate of scripts/devvm_macos.py. A signal adds its number to a pipe of bounded capacity, or is
 dropped; a poll appends the pipe to `pending` and reports the head of that list. `GateState` is the gate as
 a value, used by the process model in `Lifecycle`; `Gate` is the object the source updates in place, proved
 against those functions.
 */
module SignalGate {
  import opened Wrappers

  /** What is propagating through a verb: nothing, a cancel carrying its signal, or a failure. */
  datatype Raised = Nothing | Cancelled(signo: nat) | Failure

  /**
   `delivered` and `recorded` are history: every signal that arrived while the handlers were
   installed, and those of them the pipe had room for. A full pipe drops a signal silently.
   */
  datatype GateState = GateState(
    capacity: nat,
    pending: seq<nat>,
    pipe: seq<nat>,
    recorded: seq<nat>,
    delivered: seq<nat>)

  function Entered(capacity: nat): GateState {
    GateState(capacity, [], [], [], [])
  }

  function Deliver(g: GateState, signo: nat): GateState {
    if |g.pipe| < g.capacity
    then g.(pipe := g.pipe + [signo], recorded := g.recorded + [signo], delivered := g.delivered + [signo])
    else g.(delivered := g.delivered + [signo])
  }

  function Drained(g: GateState): GateState {
    g.(pending := g.pending + g.pipe, pipe := [])
  }

  /** `pending[0]`, if there is one. */
  function First(pending: seq<nat>): Option<nat> {
    if pending == [] then None else Some(pending[0])
  }

  /** The status `up` and `destroy` exit with, given the first pending signal after the last drain. */
  function ExitStatus(raised: Raised, first: Option<nat>): nat {
    match raised
    case Failure => if first.Some? then 128 + first.value else 1
    case Cancelled(signo) => 128 + signo
    case Nothing => if first.Some? then 128 + first.value else 0
  }

  /** Nothing recorded is lost or reordered, and the first signal delivered is always recorded. */
  ghost predicate GateOk(g: GateState) {
    && 0 < g.capacity
    && g.pending + g.pipe == g.recorded
    && (g.delivered == [] <==> g.recorded == [])
    && (g.delivered != [] ==> g.recorded[0] == g.delivered[0])
  }

  /** A cancel always carries the head of `pending`. */
  ghost predicate RaisedOk(raised: Raised, g: GateState) {
    raised.Cancelled? ==> First(g.pending) == Some(raised.signo)
  }

  lemma DeliverKeeps(g: GateState, raised: Raised, signo: nat)
    requires GateOk(g) && RaisedOk(raised, g)
    ensures GateOk(Deliver(g, signo)) && RaisedOk(raised, Deliver(g, signo))
  {
    if |g.pipe| < g.capacity {
      assert g.pending + (g.pipe + [signo]) == g.recorded + [signo];
    } else {
      assert g.recorded != [];
    }
  }

  lemma DrainKeeps(g: GateState, raised: Raised)
    requires GateOk(g) && RaisedOk(raised, g)
    ensures GateOk(Drained(g)) && RaisedOk(raised, Drained(g))
    ensures Drained(g).pending == g.recorded
  {
    assert Drained(g).pending + [] == g.recorded;
  }

  /** After the last drain the status is 128 plus the first signal delivered, if there was one. */
  lemma StatusNamesFirstSignal(g: GateState, raised: Raised)
    requires GateOk(g) && RaisedOk(raised, g) && g.pipe == []
    ensures g.delivered != [] ==> ExitStatus(raised, First(g.pending)) == 128 + g.delivered[0]
    ensures g.delivered == [] ==>
              !raised.Cancelled? && ExitStatus(raised, First(g.pending)) == if raised.Failure? then 1 else 0
  {
    assert g.pending == g.recorded;
  }

  /** The gate's own object: `pending` and the self-pipe, changed in place. */
  class Gate {
    var pending: seq<nat>
    var pipe: seq<nat>
    const capacity: nat
    ghost var recorded: seq<nat>
    ghost var delivered: seq<nat>

    ghost function State(): GateState
      reads this
    {
      GateState(capacity, pending, pipe, recorded, delivered)
    }

    constructor (capacity: nat)
      requires 0 < capacity
      ensures State() == Entered(capacity) && GateOk(State())
    {
      this.capacity := capacity;
      pending, pipe := [], [];
      recorded, delivered := [], [];
    }

    /** The handler's wake-up write, which a full pipe drops. */
    method Wake(signo: nat)
      requires GateOk(State())
      modifies this
      ensures State() == Deliver(old(State()), signo) && GateOk(State())
    {
      DeliverKeeps(State(), Nothing, signo);
      if |pipe| < capacity {
        pipe := pipe + [signo];
        recorded := recorded + [signo];
      }
      delivered := delivered + [signo];
    }

    /** `_drain`: read up to 64 bytes at a time until the pipe is empty. */
    method Drain()
      requires GateOk(State())
      modifies this`pending, this`pipe
      ensures State() == Drained(old(State())) && GateOk(State())
    {
      while pipe != []
        invariant pending + pipe == old(pending + pipe)
        decreases |pipe|
      {
        var n := if |pipe| < 64 then |pipe| else 64;
        var data := pipe[..n];
        assert pending + pipe == (pending + data) + pipe[n..];
        pending := pending + data;
        pipe := pipe[n..];
      }
      assert pending == old(pending + pipe);
    }

    /** `check`: raise, from ordinary code, the first signal ever recorded. */
    method Check() returns (raised: Raised)
      requires GateOk(State())
      modifies this`pending, this`pipe
      ensures State() == Drained(old(State())) && GateOk(State())
      ensures raised == if delivered == [] then Nothing else Cancelled(delivered[0])
    {
      Drain();
      raised := if pending == [] then Nothing else Cancelled(pending[0]);
      assert pending == recorded;
    }
  }
}
