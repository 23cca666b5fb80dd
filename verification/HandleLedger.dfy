/**
 Kernel handles as scripts/devvm_winjob.py uses them. A handle is numbered when it is opened and never
 reused, so "closed twice" cannot hide behind a recycled value. Which fallible call fails is an
 arbitrary function of the call's number.
 */
module HandleLedger {
  import opened Wrappers

  type Handle = nat

  datatype Object =
    | Std(id: nat)                                                    // a copy of one of this process's own
    | ReadEnd
    | WriteEnd(reader: Handle)
    | Process(stdin: Option<Object>, stdout: Option<Object>, stderr: Option<Object>)
    | Thread

  predicate Distinct(s: seq<Handle>) {
    forall i, j | 0 <= i < j < |s| :: s[i] != s[j]
  }

  ghost function Elems(s: seq<Handle>): set<Handle> {
    set h | h in s
  }

  class Ledger {
    const faults: nat -> bool
    var calls: nat
    var objects: seq<Object>
    var closed: seq<Handle>
    var attributeLists: nat
    var killed: set<Handle>
    var refused: set<Handle>        // the kernel would not terminate these

    constructor (faults: nat -> bool)
      ensures Valid() && Live() == {} && this.faults == faults && calls == 0 && attributeLists == 0
    {
      this.faults := faults;
      calls, objects, closed, attributeLists, killed, refused := 0, [], [], 0, {}, {};
    }

    /** No handle was closed twice, or without having been opened. */
    ghost predicate Valid()
      reads this
    {
      Distinct(closed) && forall i | 0 <= i < |closed| :: closed[i] < |objects|
    }

    ghost function Live(): set<Handle>
      reads this
    {
      set h | 0 <= h < |objects| && h !in closed
    }

    /** No call since the one numbered `from` failed. */
    ghost predicate Clean(from: nat)
      reads this
    {
      forall c | from <= c < calls :: !faults(c)
    }

    /** A call that may fail. */
    method Call() returns (ok: bool)
      modifies this`calls
      ensures calls == old(calls) + 1 && ok == !faults(old(calls))
    {
      ok := !faults(calls);
      calls := calls + 1;
    }

    method Open(what: Object) returns (h: Handle)
      requires Valid()
      modifies this`objects
      ensures Valid() && h == |old(objects)| && objects == old(objects) + [what]
      ensures Live() == old(Live()) + {h} && h !in old(Live())
    {
      h := |objects|;
      objects := objects + [what];
      assert h !in closed;
    }

    /** `_close`, which asserts that the handle is valid. */
    method Close(h: Handle)
      requires Valid() && h in Live()
      modifies this`closed
      ensures Valid() && closed == old(closed) + [h] && Live() == old(Live()) - {h}
    {
      closed := closed + [h];
    }

    /** `_close_all`. */
    method CloseAll(handles: seq<Handle>)
      requires Valid() && Distinct(handles) && Elems(handles) <= Live()
      modifies this`closed
      ensures Valid() && closed == old(closed) + handles && Live() == old(Live()) - Elems(handles)
    {
      assert closed + handles[..0] == closed;
      for i := 0 to |handles|
        invariant Valid() && closed == old(closed) + handles[..i]
        invariant Live() == old(Live()) - Elems(handles[..i])
      {
        assert handles[i] in Elems(handles) && handles[i] !in handles[..i];
        Close(handles[i]);
        assert handles[..i + 1] == handles[..i] + [handles[i]];
      }
      assert handles[..|handles|] == handles;
    }

    /** `_terminate_process`: fails only for a process that is still running. */
    method Kill(process: Handle)
      modifies this`calls, this`killed, this`refused
      ensures calls == old(calls) + 1
      ensures killed == (if faults(old(calls)) then old(killed) else old(killed) + {process})
      ensures refused == (if faults(old(calls)) then old(refused) + {process} else old(refused))
    {
      var ok := Call();
      if ok {
        killed := killed + {process};
      } else {
        refused := refused + {process};
      }
    }
  }

  /** Every handle ever opened is live or was closed exactly once, never both. */
  lemma LiveOrClosedOnce(k: Ledger, h: Handle)
    requires k.Valid() && h < |k.objects|
    ensures multiset(k.closed)[h] == if h in k.Live() then 0 else 1
  {
    if h in k.closed {
      var i :| 0 <= i < |k.closed| && k.closed[i] == h;
      CountedOnce(k.closed, i);
    }
  }

  lemma CountedOnce(s: seq<Handle>, i: nat)
    requires Distinct(s) && i < |s|
    ensures multiset(s)[s[i]] == 1
  {
    var front, back := s[..i], s[i + 1..];
    assert s == front + [s[i]] + back;
    assert s[i] !in front;
    assert forall j | 0 <= j < |back| :: back[j] == s[j + i + 1];
    assert s[i] !in back;
  }
}
