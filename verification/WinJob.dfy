/**
 `KillOnCloseJob.popen` of scripts/devvm_winjob.py. Any kernel call may fail at any point; on each way
 out the handles it opened are closed once, and on success only the process and the read ends of its
 pipes stay, owned by the returned process.
 */
module WinJob {
  import opened Wrappers
  import opened HandleLedger

  /** Where a standard handle of the child comes from. */
  datatype Stdio = Inherit(present: bool) | Pipe

  datatype Outcome =
    | Started(process: Handle, stdout: Option<Handle>, stderr: Option<Handle>)
    | Failed

  function Listed(h: Option<Handle>): seq<Handle> {
    if h.Some? then [h.value] else []
  }

  /** What the child gets for standard handle `id`, when the parent keeps `parent`. */
  function ChildsView(id: nat, stdio: Stdio, parent: Option<Handle>): Option<Object> {
    match stdio
    case Inherit(present) => if present then Some(Std(id)) else None
    case Pipe => if parent.Some? then Some(WriteEnd(parent.value)) else None
  }

  function ObjectOf(k: Ledger, h: Option<Handle>): Option<Object>
    requires h.Some? ==> h.value < |k.objects|
    reads k
  {
    if h.Some? then Some(k.objects[h.value]) else None
  }

  /**
   Since `from` and `live` were taken, exactly these handles were opened and not closed: `toClose`, for
   the parent to close, and `ends`, the read ends of pipes. No process is among the objects opened.
   */
  ghost predicate Owns(
      objects: seq<Object>, now: set<Handle>, from: nat, live: set<Handle>, toClose: seq<Handle>, ends: seq<Handle>)
  {
    && Distinct(toClose) && Distinct(ends) && Elems(toClose) !! Elems(ends)
    && (forall h | h in toClose :: from <= h < |objects|) && (forall h | h in ends :: from <= h < |objects|)
    && now == live + Elems(toClose) + Elems(ends)
    && (forall h | from <= h < |objects| :: !objects[h].Process?)
  }

  lemma Joined(a: seq<Handle>, b: seq<Handle>, mid: nat)
    requires Distinct(a) && Distinct(b) && (forall h | h in a :: h < mid) && (forall h | h in b :: mid <= h)
    ensures Distinct(a + b) && Elems(a + b) == Elems(a) + Elems(b)
  {
    var s := a + b;
    forall i, j | 0 <= i < j < |s| ensures s[i] != s[j] {
      assert i < |a| ==> s[i] in a;
      assert j >= |a| ==> s[j] in b;
    }
  }

  /** `_inheritable_copy`. */
  method InheritableCopy(k: Ledger, what: Object) returns (copy: Option<Handle>)
    requires k.Valid() && !what.Process?
    modifies k`calls, k`objects
    ensures k.Valid() && old(k.objects) <= k.objects && old(k.calls) <= k.calls
    ensures Owns(k.objects, k.Live(), old(|k.objects|), old(k.Live()), Listed(copy), [])
    ensures copy.Some? <==> k.Clean(old(k.calls))
    ensures copy.Some? ==> copy.value < |k.objects| && k.objects[copy.value] == what
  {
    var ok := k.Call();
    if !ok {
      return None;
    }
    var h := k.Open(what);
    copy := Some(h);
  }

  /** A pipe for the child: the parent keeps the read end, and must close both write ends. */
  method PipeEnd(k: Ledger) returns (ok: bool, child: Option<Handle>, parent: Option<Handle>, mine: seq<Handle>)
    requires k.Valid()
    modifies k`calls, k`objects
    ensures k.Valid() && old(k.objects) <= k.objects && old(k.calls) <= k.calls
    ensures Owns(k.objects, k.Live(), old(|k.objects|), old(k.Live()), mine, Listed(parent))
    ensures ok <==> k.Clean(old(k.calls))
    ensures child.Some? ==> child.value < |k.objects|
    ensures ok ==> parent.Some? && ObjectOf(k, child) == Some(WriteEnd(parent.value))
  {
    parent, mine, child := None, [], None;
    ok := k.Call();
    if !ok {
      return;
    }
    var read := k.Open(ReadEnd);
    var write := k.Open(WriteEnd(read));
    parent := Some(read);
    child := InheritableCopy(k, WriteEnd(read));
    mine := [write] + Listed(child);
    ok := child.Some?;
  }

  /**
   One turn of the loop over the standard handles, `_inherited_std` included. `mine` is what it appends
   to the list to close, `parent` the read end it records, also when it fails.
   */
  method ChildEnd(k: Ledger, id: nat, stdio: Stdio)
      returns (ok: bool, child: Option<Handle>, parent: Option<Handle>, mine: seq<Handle>)
    requires k.Valid()
    modifies k`calls, k`objects
    ensures k.Valid() && old(k.objects) <= k.objects && old(k.calls) <= k.calls
    ensures Owns(k.objects, k.Live(), old(|k.objects|), old(k.Live()), mine, Listed(parent))
    ensures ok <==> k.Clean(old(k.calls))
    ensures (child.Some? ==> child.value < |k.objects|) && (parent.Some? ==> stdio.Pipe?)
    ensures ok ==> ObjectOf(k, child) == ChildsView(id, stdio, parent) && (parent.Some? <==> stdio.Pipe?)
  {
    match stdio
    case Inherit(present) =>
      parent, mine, child := None, [], None;
      if !present {
        return true, None, None, [];
      }
      child := InheritableCopy(k, Std(id));
      mine := Listed(child);
      ok := child.Some?;
    case Pipe =>
      ok, child, parent, mine := PipeEnd(k);
  }

  // Handing the pipes over ---------------------------------------------------------------------------

  /** The way out once the process exists: terminate it, then close its handle and the streams, whatever that did. */
  method Abandon(k: Ledger, process: Handle, streams: seq<Handle>)
    requires k.Valid() && Distinct(streams) && process !in streams && Elems(streams) + {process} <= k.Live()
    modifies k`calls, k`closed, k`killed, k`refused
    ensures k.Valid() && old(k.calls) <= k.calls && k.Live() == old(k.Live()) - {process} - Elems(streams)
    ensures process in k.killed + k.refused
  {
    k.Kill(process);
    k.Close(process);
    k.CloseAll(streams);
  }

  lemma ElemsSplit(s: seq<Handle>, i: nat)
    requires i <= |s| && Distinct(s)
    ensures Elems(s) == Elems(s[..i]) + Elems(s[i..]) && Elems(s[..i]) !! Elems(s[i..])
    ensures Distinct(s[..i]) && Distinct(s[i..])
  {
    assert s == s[..i] + s[i..];
  }

  /**
   Turns the read ends into streams. If one cannot be, the process is terminated and its handle and the
   streams made so far are closed; `rest` is what is left for the caller to close.
   */
  method OpenStreams(k: Ledger, process: Handle, ends: seq<Handle>) returns (ok: bool, rest: seq<Handle>)
    requires k.Valid() && Distinct(ends) && process !in ends && Elems(ends) + {process} <= k.Live()
    modifies k`calls, k`closed, k`killed, k`refused
    ensures k.Valid() && old(k.calls) <= k.calls
    ensures ok <==> k.Clean(old(k.calls))
    ensures ok ==> rest == [] && k.closed == old(k.closed) && k.killed == old(k.killed) && k.refused == old(k.refused)
    ensures !ok ==> && Distinct(rest) && Elems(rest) <= Elems(ends)
                    && k.Live() == old(k.Live()) - Elems(ends) - {process} + Elems(rest)
                    && process in k.killed + k.refused
  {
    var i := 0;
    while i < |ends|
      invariant 0 <= i <= |ends| && old(k.calls) <= k.calls && k.Clean(old(k.calls))
      invariant k.closed == old(k.closed) && k.killed == old(k.killed) && k.refused == old(k.refused)
    {
      ElemsSplit(ends, i);
      var handed := k.Call();           // open_osfhandle
      if !handed {
        Abandon(k, process, ends[..i]);
        return false, ends[i..];
      }
      var wrapped := k.Call();          // open
      if !wrapped {
        ElemsSplit(ends, i + 1);
        assert ends[..i + 1] == ends[..i] + [ends[i]];
        k.Close(ends[i]);               // os.close on the descriptor that owns it
        Abandon(k, process, ends[..i]);
        return false, ends[i + 1..];
      }
      i := i + 1;
    }
    ok, rest := true, [];
  }

  // The whole ------------------------------------------------------------------------------------------

  /** Two turns, one after the other. */
  lemma BothOwned(
      first: seq<Object>, second: seq<Object>, live: set<Handle>, mid: set<Handle>, now: set<Handle>, from: nat,
      a: seq<Handle>, b: seq<Handle>, c: seq<Handle>, d: seq<Handle>)
    requires Owns(first, mid, from, live, a, b) && from <= |first| && first <= second
    requires Owns(second, now, |first|, mid, c, d)
    ensures Owns(second, now, from, live, a + c, b + d)
  {
    Joined(a, c, |first|);
    Joined(b, d, |first|);
    assert Elems(a) !! Elems(d) && Elems(b) !! Elems(c);
  }

  /** The three standard handles of the child. */
  method ChildEnds(k: Ledger, stdin: bool, stdout: Stdio, stderr: Stdio)
      returns (ok: bool, process: Object, outEnd: Option<Handle>, errEnd: Option<Handle>, toClose: seq<Handle>)
    requires k.Valid()
    modifies k`calls, k`objects
    ensures k.Valid() && old(k.objects) <= k.objects && old(k.calls) <= k.calls
    ensures ok <==> k.Clean(old(k.calls))
    ensures Owns(k.objects, k.Live(), old(|k.objects|), old(k.Live()), toClose, Listed(outEnd) + Listed(errEnd))
    ensures ok ==> && (outEnd.Some? <==> stdout.Pipe?) && (errEnd.Some? <==> stderr.Pipe?)
                   && process == Process(ChildsView(0, Inherit(stdin), None),
                                         ChildsView(1, stdout, outEnd),
                                         ChildsView(2, stderr, errEnd))
  {
    outEnd, errEnd, process := None, None, Thread;
    var child0, child1, child2, mine;
    ok, child0, outEnd, toClose := ChildEnd(k, 0, Inherit(stdin));
    assert Listed(outEnd) + Listed(errEnd) == [];
    if !ok {
      return;
    }
    ghost var first, live := k.objects, k.Live();
    ok, child1, outEnd, mine := ChildEnd(k, 1, stdout);
    BothOwned(first, k.objects, old(k.Live()), live, k.Live(), old(|k.objects|), toClose, [], mine, Listed(outEnd));
    toClose := toClose + mine;
    assert [] + Listed(outEnd) == Listed(outEnd) + Listed(errEnd);
    if !ok {
      return;
    }
    first, live := k.objects, k.Live();
    ok, child2, errEnd, mine := ChildEnd(k, 2, stderr);
    BothOwned(first, k.objects, old(k.Live()), live, k.Live(), old(|k.objects|),
              toClose, Listed(outEnd), mine, Listed(errEnd));
    toClose := toClose + mine;
    process := Process(ObjectOf(k, child0), ObjectOf(k, child1), ObjectOf(k, child2));
  }

  /** `_make_attribute_list`: sized, initialised, then the job and, if there are any, the handles to inherit. */
  method MakeAttributeList(k: Ledger, inherits: bool) returns (ok: bool)
    modifies k`calls, k`attributeLists
    ensures old(k.calls) <= k.calls && (ok <==> k.Clean(old(k.calls)))
    ensures k.attributeLists == old(k.attributeLists) + if ok then 1 else 0
  {
    ok := k.Call();
    if !ok {
      return;
    }
    ok := k.Call();
    if !ok {
      return;
    }
    k.attributeLists := k.attributeLists + 1;
    for i := 0 to if inherits then 2 else 1
      invariant old(k.calls) <= k.calls && k.Clean(old(k.calls)) && k.attributeLists == old(k.attributeLists) + 1
    {
      ok := k.Call();
      if !ok {
        k.attributeLists := k.attributeLists - 1;
        return;
      }
    }
    ok := true;
  }

  /** `CreateProcessW`, under the attribute list. */
  method Create(k: Ledger, process: Object, rendered: bool) returns (h: Option<Handle>)
    requires k.Valid() && process.Process?
    modifies k`calls, k`objects, k`closed, k`attributeLists
    ensures k.Valid() && old(k.objects) <= k.objects && old(k.calls) <= k.calls
    ensures h.Some? <==> rendered && k.Clean(old(k.calls))
    ensures h.Some? ==> && h.value == |old(k.objects)| && |k.objects| == h.value + 2 && k.objects[h.value] == process
                        && k.objects[h.value + 1] == Thread
                        && k.Live() == old(k.Live()) + {h.value} && h.value !in old(k.Live())
    ensures h.None? ==> k.objects == old(k.objects) && k.Live() == old(k.Live())
    ensures k.attributeLists == old(k.attributeLists) + if !rendered && k.Clean(old(k.calls)) then 1 else 0
  {
    h := None;
    var listed := MakeAttributeList(k, process.stdin.Some? || process.stdout.Some? || process.stderr.Some?);
    if !listed {
      return;
    }
    if !rendered {
      return;               // outside the `try` that deletes the list
    }
    var created := k.Call();
    if created {
      var made := k.Open(process);
      var thread := k.Open(Thread);
      k.Close(thread);
      h := Some(made);
    }
    k.attributeLists := k.attributeLists - 1;
  }

  /** From the attribute list to the streams. On failure `rest` is what is left of `ends`. */
  method Launch(k: Ledger, process: Object, ends: seq<Handle>, rendered: bool)
      returns (h: Option<Handle>, rest: seq<Handle>)
    requires k.Valid() && process.Process? && Distinct(ends) && Elems(ends) <= k.Live()
    modifies k
    ensures k.Valid() && old(k.objects) <= k.objects && old(k.calls) <= k.calls
    ensures h.Some? <==> rendered && k.Clean(old(k.calls))
    ensures h.Some? ==> && |old(k.objects)| <= h.value < |k.objects|
                        && k.objects[h.value] == process && h.value !in ends
                        && k.Live() == old(k.Live()) + {h.value} && k.killed == old(k.killed)
    ensures h.None? ==> && Distinct(rest) && Elems(rest) <= Elems(ends)
                        && k.Live() == old(k.Live()) - Elems(ends) + Elems(rest)
    ensures h.None? ==> forall p | |old(k.objects)| <= p < |k.objects| && k.objects[p].Process? ::
                          p in k.killed + k.refused
    ensures k.attributeLists == old(k.attributeLists) + if !rendered && k.Clean(old(k.calls)) then 1 else 0
  {
    rest := ends;
    h := Create(k, process, rendered);
    if h.Some? {
      ghost var made, clean := h.value, k.calls;
      assert made !in ends;
      var ok;
      ok, rest := OpenStreams(k, h.value, ends);
      assert k.Clean(old(k.calls)) <==> k.Clean(clean);
      if !ok {
        h := None;
      }
    }
  }

  /** The handlers around `popen`: the read ends nobody took, then everything the parent must close. */
  method Unwind(k: Ledger, ends: seq<Handle>, toClose: seq<Handle>)
    requires k.Valid() && Distinct(ends) && Distinct(toClose) && Elems(ends) !! Elems(toClose)
    requires Elems(ends) + Elems(toClose) <= k.Live()
    modifies k`closed
    ensures k.Valid() && k.Live() == old(k.Live()) - Elems(ends) - Elems(toClose)
  {
    k.CloseAll(ends);
    k.CloseAll(toClose);
  }

  lemma Fronted(h: Handle, ends: seq<Handle>)
    requires Distinct(ends) && h !in ends
    ensures Distinct([h] + ends)
  {
    var s := [h] + ends;
    assert forall i | 0 < i < |s| :: s[i] == ends[i - 1] && s[i] in ends;
  }

  /**
   `popen`. `stdin` says whether this process has a standard input, and `rendered` whether the arguments
   and environment make a command line and an environment block.

   It succeeds exactly if they do and no call fails. Then the process and the read ends of the pipes asked
   for are all that stays open, and the child writes to the very pipes the returned streams read. If it
   fails nothing stays open, and a process it had created was terminated, or the kernel refused to.
   */
  method Popen(k: Ledger, stdin: bool, stdout: Stdio, stderr: Stdio, rendered: bool) returns (outcome: Outcome)
    requires k.Valid()
    modifies k
    ensures k.Valid() && old(k.objects) <= k.objects
    ensures outcome.Started? <==> rendered && k.Clean(old(k.calls))
    ensures outcome.Failed? ==> k.Live() == old(k.Live())
    ensures outcome.Failed? ==> forall h | |old(k.objects)| <= h < |k.objects| && k.objects[h].Process? ::
              h in k.killed + k.refused
    ensures outcome.Started? ==>
              var Started(process, out, err) := outcome;
              && k.Live() == old(k.Live()) + {process} + Elems(Listed(out) + Listed(err))
              && old(k.Live()) !! {process} + Elems(Listed(out) + Listed(err))
              && Distinct([process] + Listed(out) + Listed(err))
              && (out.Some? <==> stdout.Pipe?) && (err.Some? <==> stderr.Pipe?)
              && |old(k.objects)| <= process < |k.objects|
              && k.objects[process] == Process(ChildsView(0, Inherit(stdin), None),
                                               ChildsView(1, stdout, out),
                                               ChildsView(2, stderr, err))
              && k.killed == old(k.killed)
    ensures k.attributeLists == old(k.attributeLists) + if !rendered && k.Clean(old(k.calls)) then 1 else 0
  {
    var ok, process, outEnd, errEnd, toClose := ChildEnds(k, stdin, stdout, stderr);
    var ends := Listed(outEnd) + Listed(errEnd);
    if !ok {
      Unwind(k, ends, toClose);
      return Failed;
    }
    ghost var first := k.objects;
    var made, rest := Launch(k, process, ends, rendered);
    if made.None? {
      Unwind(k, rest, toClose);
      return Failed;
    }
    k.CloseAll(toClose);
    Fronted(made.value, ends);
    assert [made.value] + Listed(outEnd) + Listed(errEnd) == [made.value] + ends;
    outcome := Started(made.value, outEnd, errEnd);
  }

  /** Arguments that cannot be rendered leave an attribute list behind, though no call fails. */
  method AttributeListCanBeLeft(stdin: bool, stdout: Stdio, stderr: Stdio) returns (k: Ledger, outcome: Outcome)
    ensures outcome.Failed? && k.Live() == {} && k.attributeLists == 1
  {
    k := new Ledger(call => false);
    outcome := Popen(k, stdin, stdout, stderr, false);
  }
}
