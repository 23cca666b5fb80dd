/**
 `JobProcess` of scripts/devvm_winjob.py: who closes the process handle and the streams, over any sequence
 of `communicate` and `close` calls and any progress of the reader threads.
 */
module JobProcesses {
  import opened Wrappers
  import opened HandleLedger
  import WinJob

  /** A stream's reader thread: none made yet, made but not started, reading, or done. */
  datatype Reader = NoReader | Unstarted | Reading | Done

  datatype Stream = Stream(handle: Handle, open: bool, reader: Reader)

  /** What one `communicate` call meets: per stream whether its reader starts, ends in time and fails to read. */
  datatype Luck = Luck(starts: nat -> bool, endsInTime: nat -> bool, readFails: nat -> bool, wait: Wait)

  datatype Wait = Exited(code: int) | StillRunning | Fails

  datatype Op = Communicate(luck: Luck) | Close | ReaderEnds(stream: nat, fails: bool)

  datatype Result = Returned | Raised | TimedOut | Closed | Progress

  /** Whether an operation with this result gives the process handle up. */
  predicate Releases(r: Result) {
    r.Returned? || r.Raised? || r.Closed?
  }

  /** A reader that was started closes its stream itself. */
  predicate Started(s: Stream) {
    s.reader.Reading? || s.reader.Done?
  }

  // What a `communicate` call comes to -----------------------------------------------------------------

  predicate AllStart(streams: seq<Stream>, luck: Luck) {
    forall i | 0 <= i < |streams| :: luck.starts(i)
  }

  /** The streams once every reader has been started. */
  function Begun(streams: seq<Stream>, made: bool): seq<Stream> {
    if made then streams
    else seq(|streams|, i requires 0 <= i < |streams| => streams[i].(reader := Reading))
  }

  /** Joining the readers from the `i`-th on: `TimedOut` at one still reading, `Raised` at one never started. */
  function Joining(streams: seq<Stream>, luck: Luck, i: nat): (r: Result)
    requires i <= |streams|
    ensures r.Progress? || r.TimedOut? || r.Raised?
    decreases |streams| - i
  {
    if i == |streams| then Progress
    else if streams[i].reader.Reading? && !luck.endsInTime(i) then TimedOut
    else if streams[i].reader.Reading? || streams[i].reader.Done? then Joining(streams, luck, i + 1)
    else Raised
  }

  /** Some reader ends without having read. */
  predicate SomeReadFails(streams: seq<Stream>, luck: Luck) {
    exists i :: 0 <= i < |streams| && streams[i].reader.Reading? && (luck.readFails(i) || !streams[i].open)
  }

  /** All readers were started, and have ended in time. */
  predicate AllJoin(streams: seq<Stream>, made: bool, luck: Luck) {
    (made || AllStart(streams, luck)) && Joining(Begun(streams, made), luck, 0).Progress?
  }

  /** How a call ends. */
  function Expected(streams: seq<Stream>, made: bool, errors: nat, held: bool, luck: Luck): Result {
    if !made && !AllStart(streams, luck) then Raised
    else if !Joining(Begun(streams, made), luck, 0).Progress? then Joining(Begun(streams, made), luck, 0)
    else if held && luck.wait.StillRunning? then TimedOut
    else if held && luck.wait.Fails? then Raised
    else if errors > 0 || SomeReadFails(Begun(streams, made), luck) then Raised
    else Returned
  }

  lemma OneMoreRead(streams: seq<Stream>, luck: Luck, i: nat)
    requires i < |streams|
    ensures SomeReadFails(streams[..i + 1], luck) <==>
              || SomeReadFails(streams[..i], luck)
              || (streams[i].reader.Reading? && (luck.readFails(i) || !streams[i].open))
  {
    var more := streams[..i + 1];
    assert more[i] == streams[i];
    assert forall j | 0 <= j < i :: more[j] == streams[..i][j];
  }

  /** A reader of the stream, at work or still to be made, would read it in time and without an error. */
  predicate ReadsWell(s: Stream, made: bool, luck: Luck, i: nat) {
    if made then s.reader.Done? || (s.reader.Reading? && luck.endsInTime(i) && !luck.readFails(i) && s.open)
    else luck.starts(i) && luck.endsInTime(i) && !luck.readFails(i) && s.open
  }

  lemma {:induction false} JoiningAll(streams: seq<Stream>, luck: Luck, i: nat)
    requires i <= |streams|
    ensures Joining(streams, luck, i).Progress? <==>
              forall j | i <= j < |streams| ::
                streams[j].reader.Done? || (streams[j].reader.Reading? && luck.endsInTime(j))
    decreases |streams| - i
  {
    if i < |streams| {
      JoiningAll(streams, luck, i + 1);
    }
  }

  /**
   A call returns exactly if no read failed before, every stream is read in time and without an error, and
   the process, where its handle is still held, has exited.
   */
  lemma ReturnsExactly(streams: seq<Stream>, made: bool, errors: nat, held: bool, luck: Luck)
    ensures Expected(streams, made, errors, held, luck).Returned? <==>
              && errors == 0 && (held ==> luck.wait.Exited?)
              && forall i | 0 <= i < |streams| :: ReadsWell(streams[i], made, luck, i)
  {
    var begun := Begun(streams, made);
    JoiningAll(begun, luck, 0);
    assert |begun| == |streams|;
    forall i | 0 <= i < |streams|
      ensures ReadsWell(streams[i], made, luck, i) <==>
                && (made || luck.starts(i))
                && (begun[i].reader.Done? || (begun[i].reader.Reading? && luck.endsInTime(i)))
                && !(begun[i].reader.Reading? && (luck.readFails(i) || !begun[i].open))
    {
      assert begun[i] == if made then streams[i] else streams[i].(reader := Reading);
    }
    hide Joining, Begun, ReadsWell;
    if forall i | 0 <= i < |streams| :: ReadsWell(streams[i], made, luck, i) {
      assert AllStart(streams, luck) || made;
      assert Joining(begun, luck, 0).Progress? && !SomeReadFails(begun, luck);
    } else {
      var i :| 0 <= i < |streams| && !ReadsWell(streams[i], made, luck, i);
      assert (!made && !AllStart(streams, luck)) || !Joining(begun, luck, 0).Progress? || SomeReadFails(begun, luck);
    }
  }

  ghost predicate OneHandleEach(streams: seq<Stream>) {
    forall i, j | 0 <= i < j < |streams| :: streams[i].handle != streams[j].handle
  }

  ghost function OpenHandles(streams: seq<Stream>): set<Handle> {
    set i | 0 <= i < |streams| && streams[i].open :: streams[i].handle
  }

  lemma IsOpen(streams: seq<Stream>, i: nat)
    requires i < |streams| && streams[i].open
    ensures streams[i].handle in OpenHandles(streams)
  {
  }

  lemma ShutOne(streams: seq<Stream>, i: nat)
    requires OneHandleEach(streams) && i < |streams|
    ensures var shut := streams[i := streams[i].(open := false)];
            && OneHandleEach(shut)
            && OpenHandles(shut) == OpenHandles(streams) - (if streams[i].open then {streams[i].handle} else {})
  {
    var shut := streams[i := streams[i].(open := false)];
    forall h | h in OpenHandles(streams) && h != streams[i].handle ensures h in OpenHandles(shut) {
      var j :| 0 <= j < |streams| && streams[j].open && streams[j].handle == h;
      IsOpen(shut, j);
    }
    forall h | h in OpenHandles(shut) ensures h in OpenHandles(streams) && h != streams[i].handle {
      var j :| 0 <= j < |shut| && shut[j].open && shut[j].handle == h;
      assert j != i && shut[j] == streams[j];
      IsOpen(streams, j);
    }
    assert forall j | 0 <= j < |streams| && j != i :: streams[j].handle != streams[i].handle;
  }

  /** Only which streams are open matters to what is owned. */
  lemma SameOpen(streams: seq<Stream>, other: seq<Stream>)
    requires |streams| == |other|
    requires forall i | 0 <= i < |streams| :: streams[i].open == other[i].open && streams[i].handle == other[i].handle
    ensures OpenHandles(streams) == OpenHandles(other)
  {
    assert forall i | 0 <= i < |streams| && streams[i].open :: other[i].handle in OpenHandles(other);
    assert forall i | 0 <= i < |streams| && streams[i].open :: streams[i].handle in OpenHandles(streams);
  }

  function Unread(handles: seq<Handle>): seq<Stream> {
    seq(|handles|, i requires 0 <= i < |handles| => Stream(handles[i], true, NoReader))
  }

  lemma UnreadOwnsAll(process: Handle, handles: seq<Handle>)
    requires Distinct([process] + handles)
    ensures OneHandleEach(Unread(handles)) && OpenHandles(Unread(handles)) == Elems(handles)
    ensures Elems([process] + handles) == {process} + Elems(handles) && process !in handles
  {
    var all, streams := [process] + handles, Unread(handles);
    assert forall i | 0 <= i < |handles| :: all[i + 1] == handles[i] && streams[i].handle == handles[i];
    forall h | h in handles ensures h in OpenHandles(streams) && h != process {
      var i :| 0 <= i < |handles| && handles[i] == h;
      IsOpen(streams, i);
      assert all[0] != all[i + 1];
    }
  }

  class JobProcess {
    const kernel: Ledger
    var process: Option<Handle>
    var streams: seq<Stream>
    var readersMade: bool
    var returncode: Option<int>
    var errors: nat

    ghost predicate Valid()
      reads this, kernel
    {
      && kernel.Valid() && Owned() <= kernel.Live()
      && OneHandleEach(streams)
      && (process.Some? ==> forall i | 0 <= i < |streams| :: streams[i].handle != process.value)
      && (forall i | 0 <= i < |streams| :: streams[i].reader.Done? ==> !streams[i].open)
      && (forall i | 0 <= i < |streams| :: streams[i].reader.NoReader? <==> !readersMade)
      && (returncode.Some? ==> process.None?)
    }

    /** The handles this process still has to close. */
    ghost function Owned(): set<Handle>
      reads this
    {
      OpenHandles(streams) + (if process.Some? then {process.value} else {})
    }

    constructor (kernel: Ledger, process: Handle, handles: seq<Handle>)
      requires kernel.Valid() && Distinct([process] + handles) && Elems([process] + handles) <= kernel.Live()
      ensures Valid() && this.kernel == kernel && this.process == Some(process) && returncode.None?
      ensures Owned() == {process} + Elems(handles)
    {
      this.kernel, this.process, this.returncode := kernel, Some(process), None;
      this.errors, this.readersMade := 0, false;
      this.streams := Unread(handles);
      UnreadOwnsAll(process, handles);
    }

    /** `stream.close()`, which does nothing the second time. */
    method CloseStream(i: nat)
      requires Valid() && i < |streams|
      modifies this`streams, kernel`closed
      ensures Valid() && streams == old(streams)[i := old(streams[i]).(open := false)]
      ensures Owned() == old(Owned()) - (if old(streams[i]).open then {old(streams[i]).handle} else {})
      ensures kernel.Live() == old(kernel.Live()) - (old(Owned()) - Owned())
    {
      var s := streams[i];
      ShutOne(streams, i);
      if s.open {
        IsOpen(streams, i);
        kernel.Close(s.handle);
      }
      streams := streams[i := s.(open := false)];
    }

    /** Gives up the process handle, if it is still held. */
    method Release()
      requires Valid()
      modifies this`process, kernel`closed
      ensures Valid() && process.None? && Owned() == OpenHandles(streams)
      ensures Owned() <= old(Owned()) && kernel.Live() == old(kernel.Live()) - (old(Owned()) - Owned())
    {
      var held := process;
      process := None;
      if held.Some? {
        assert forall i | 0 <= i < |streams| && streams[i].open :: streams[i].handle in OpenHandles(streams);
        assert held.value !in OpenHandles(streams);
        kernel.Close(held.value);
      }
    }

    /** `close`: the process handle, and every stream that no started reader will close. */
    method Shut()
      requires Valid()
      modifies this`process, this`streams, kernel`closed
      ensures Valid() && process.None? && |streams| == |old(streams)|
      ensures forall i | 0 <= i < |streams| ::
                streams[i] == if Started(old(streams)[i]) then old(streams)[i] else old(streams)[i].(open := false)
      ensures Owned() <= old(Owned()) && kernel.Live() == old(kernel.Live()) - (old(Owned()) - Owned())
    {
      Release();
      for i := 0 to |streams|
        invariant Valid() && process.None? && |streams| == |old(streams)|
        invariant forall j | 0 <= j < i ::
                    streams[j] == if Started(old(streams)[j]) then old(streams)[j] else old(streams)[j].(open := false)
        invariant forall j | i <= j < |streams| :: streams[j] == old(streams)[j]
        invariant Owned() <= old(Owned()) && kernel.Live() == old(kernel.Live()) - (old(Owned()) - Owned())
      {
        if !Started(streams[i]) {
          CloseStream(i);
        }
      }
    }

    /** The end of `_read`: a failed read, or one on a stream already closed, is an error; the stream is closed. */
    method ReaderEnd(i: nat, fails: bool)
      requires Valid() && i < |streams| && streams[i].reader.Reading?
      modifies this`streams, this`errors, kernel`closed
      ensures Valid() && streams == old(streams)[i := Stream(old(streams)[i].handle, false, Done)]
      ensures errors == old(errors) + if fails || !old(streams)[i].open then 1 else 0
      ensures Owned() <= old(Owned()) && kernel.Live() == old(kernel.Live()) - (old(Owned()) - Owned())
    {
      if fails || !streams[i].open {
        errors := errors + 1;
      }
      CloseStream(i);
      ghost var shut := streams;
      streams := streams[i := streams[i].(reader := Done)];
      SameOpen(shut, streams);
    }

    /** Makes the readers and starts them in order; stops at one that cannot be started. */
    method StartReaders(starts: nat -> bool) returns (ok: bool)
      requires Valid() && !readersMade
      modifies this`streams, this`readersMade
      ensures Valid() && readersMade && |streams| == |old(streams)| && Owned() == old(Owned())
      ensures forall i | 0 <= i < |streams| ::
                streams[i].handle == old(streams)[i].handle && streams[i].open == old(streams)[i].open
      ensures ok ==> streams == Begun(old(streams), false)
      ensures ok <==> forall i | 0 <= i < |streams| :: starts(i)
    {
      readersMade := true;
      streams := seq(|streams|, i requires 0 <= i < |streams| reads this => streams[i].(reader := Unstarted));
      SameOpen(old(streams), streams);
      for i := 0 to |streams|
        invariant Valid() && readersMade && |streams| == |old(streams)| && Owned() == old(Owned())
        invariant forall j | 0 <= j < |streams| ::
                  streams[j].handle == old(streams)[j].handle && streams[j].open == old(streams)[j].open
        invariant forall j | 0 <= j < i :: streams[j].reader.Reading? && starts(j)
      {
        if !starts(i) {
          return false;
        }
        ghost var was := streams;
        streams := streams[i := streams[i].(reader := Reading)];
        SameOpen(was, streams);
      }
      ok := true;
    }

    /** Joins the readers in order: `TimedOut` at one still reading, `Raised` at one that was never started. */
    method JoinReaders(luck: Luck) returns (result: Result)
      requires Valid() && readersMade
      modifies this`streams, this`errors, kernel`closed
      ensures Valid() && |streams| == |old(streams)| && old(errors) <= errors
      ensures result == Joining(old(streams), luck, 0)
      ensures result.Progress? ==> forall i | 0 <= i < |streams| :: streams[i].reader.Done?
      ensures result.Progress? ==> (errors > 0 <==> old(errors) > 0 || SomeReadFails(old(streams), luck))
      ensures forall i | 0 <= i < |streams| ::
                streams[i] == old(streams)[i] || streams[i] == Stream(old(streams)[i].handle, false, Done)
      ensures Owned() <= old(Owned()) && kernel.Live() == old(kernel.Live()) - (old(Owned()) - Owned())
    {
      for i := 0 to |streams|
        invariant Valid() && |streams| == |old(streams)| && old(errors) <= errors
        invariant forall j | 0 <= j < i :: streams[j].reader.Done?
        invariant Joining(old(streams), luck, 0) == Joining(old(streams), luck, i)
        invariant errors > 0 <==> old(errors) > 0 || SomeReadFails(old(streams)[..i], luck)
        invariant forall j | i <= j < |streams| :: streams[j] == old(streams)[j]
        invariant forall j | 0 <= j < |streams| ::
                    streams[j] == old(streams)[j] || streams[j] == Stream(old(streams)[j].handle, false, Done)
        invariant Owned() <= old(Owned()) && kernel.Live() == old(kernel.Live()) - (old(Owned()) - Owned())
      {
        OneMoreRead(old(streams), luck, i);
        if streams[i].reader.Unstarted? {
          return Raised;
        }
        if streams[i].reader.Reading? {
          if !luck.endsInTime(i) {
            return TimedOut;
          }
          ReaderEnd(i, luck.readFails(i));
        }
      }
      assert old(streams)[..|old(streams)|] == old(streams);
      result := Progress;
    }

    /**
     `communicate`. It gives the process handle up unless it times out, and then leaves it as it was. Once
     it returns nothing is owned any more. It returns with an exit code exactly if it had the handle to ask
     for one, or an earlier call did.
     */
    method CommunicateOnce(luck: Luck) returns (result: Result)
      requires Valid()
      modifies this, kernel`closed
      ensures Valid() && |streams| == |old(streams)|
      ensures forall i | 0 <= i < |streams| :: streams[i].handle == old(streams)[i].handle
      ensures result == Expected(old(streams), old(readersMade), old(errors), old(process).Some?, luck)
      ensures returncode ==
                if old(process).Some? && luck.wait.Exited? && AllJoin(old(streams), old(readersMade), luck)
                then Some(luck.wait.code) else old(returncode)
      ensures result.Returned? || result.Raised? || result.TimedOut?
      ensures result.TimedOut? ==> process == old(process) && returncode == old(returncode)
      ensures old(process).None? ==> returncode == old(returncode)
      ensures !result.TimedOut? ==> process.None?
      ensures result.Returned? ==> Owned() == {} && errors == 0
      ensures result.Returned? && old(process).Some? ==> luck.wait.Exited? && returncode == Some(luck.wait.code)
      ensures result.Returned? ==> (returncode.Some? <==> old(process).Some? || old(returncode).Some?)
      ensures Owned() <= old(Owned()) && kernel.Live() == old(kernel.Live()) - (old(Owned()) - Owned())
    {
      ghost var before, made, begun := streams, readersMade, Begun(streams, readersMade);
      hide Joining, SomeReadFails;
      if !readersMade {
        var ok := StartReaders(luck.starts);
        assert ok <==> AllStart(before, luck);
        if !ok {
          Shut();
          return Raised;
        }
      }
      assert streams == begun && (made || AllStart(before, luck));
      hide Begun, AllStart;
      result := JoinReaders(luck);
      assert AllJoin(before, made, luck) <==> result.Progress?;
      if result.TimedOut? {
        return;
      }
      if result.Raised? {
        Shut();
        return;
      }
      assert OpenHandles(streams) == {};
      result := Await(luck.wait);
      if result.TimedOut? {
        return;
      }
      if result.Raised? {
        Shut();
        return;
      }
      result := if errors > 0 then Raised else Returned;
    }

    /** `_wait`. */
    method Await(wait: Wait) returns (result: Result)
      requires Valid()
      modifies this`process, this`returncode, kernel`closed
      ensures Valid()
      ensures result == if old(process).None? || wait.Exited? then Progress
                        else if wait.StillRunning? then TimedOut else Raised
      ensures result.Progress? && old(process).Some? ==> wait.Exited? && returncode == Some(wait.code)
      ensures old(process).None? ==> returncode == old(returncode)
      ensures !result.Progress? ==>
                process == old(process) && returncode == old(returncode) && kernel.closed == old(kernel.closed)
      ensures result.Progress? ==> process.None? && (returncode.Some? <==> old(process).Some? || old(returncode).Some?)
      ensures Owned() <= old(Owned()) && kernel.Live() == old(kernel.Live()) - (old(Owned()) - Owned())
    {
      if process.None? {
        return Progress;
      }
      match wait
      case StillRunning => result := TimedOut;
      case Fails => result := Raised;
      case Exited(code) =>
        Release();
        returncode := Some(code);
        result := Progress;
    }
  }

  /**
   A `communicate` after `close` never gets an exit code, which the class's own description denies. Before any
   reader was made it returns if there is no pipe, and otherwise fails to read one it finds closed.
   */
  method CommunicateAfterClose(p: JobProcess, luck: Luck) returns (result: Result)
    requires p.Valid() && p.process.Some?
    modifies p, p.kernel`closed
    ensures p.returncode.None? && p.process.None?
    ensures old(p.streams) == [] && old(p.errors) == 0 ==> result.Returned?
    ensures old(p.streams) != [] && !old(p.readersMade) ==> !result.Returned?
  {
    p.Shut();
    ghost var shut, made, errors := p.streams, p.readersMade, p.errors;
    ReturnsExactly(shut, made, errors, false, luck);
    assert |shut| > 0 && !made ==> !ReadsWell(shut[0], made, luck, 0);
    result := p.CommunicateOnce(luck);
  }

  // Histories --------------------------------------------------------------------------------------------

  /** One operation. */
  method Perform(p: JobProcess, op: Op) returns (r: Result)
    requires p.Valid()
    modifies p, p.kernel`closed
    ensures p.Valid() && |p.streams| == |old(p.streams)|
    ensures forall i | 0 <= i < |p.streams| :: p.streams[i].handle == old(p.streams)[i].handle
    ensures (op.Close? ==> r.Closed?) && (op.ReaderEnds? ==> r.Progress?)
    ensures op.Communicate? ==> r.Returned? || r.Raised? || r.TimedOut?
    ensures p.process == if Releases(r) then None else old(p.process)
    ensures old(p.process).None? ==> p.returncode == old(p.returncode)
    ensures || p.returncode == old(p.returncode)
            || (op.Communicate? && op.luck.wait.Exited? && p.returncode == Some(op.luck.wait.code))
    ensures p.Owned() <= old(p.Owned()) && p.kernel.Live() == old(p.kernel.Live()) - (old(p.Owned()) - p.Owned())
  {
    match op {
      case Communicate(luck) =>
        r := p.CommunicateOnce(luck);
      case Close =>
        p.Shut();
        r := Closed;
      case ReaderEnds(i, fails) =>
        if i < |p.streams| && p.streams[i].reader.Reading? {
          p.ReaderEnd(i, fails);
        }
        r := Progress;
    }
  }

  /** Any sequence of operations, with reader threads ending in between; an end without a reader is skipped. */
  method Drive(p: JobProcess, ops: seq<Op>) returns (results: seq<Result>)
    requires p.Valid()
    modifies p, p.kernel`closed
    ensures p.Valid() && |results| == |ops|
    ensures |p.streams| == |old(p.streams)|
    ensures forall i | 0 <= i < |p.streams| :: p.streams[i].handle == old(p.streams)[i].handle
    ensures forall i | 0 <= i < |ops| ::
              (ops[i].Close? ==> results[i].Closed?) && (ops[i].ReaderEnds? ==> results[i].Progress?) &&
              (ops[i].Communicate? ==> results[i].Returned? || results[i].Raised? || results[i].TimedOut?)
    ensures old(p.process).Some? ==>
              var h := old(p.process).value;
              && multiset(p.kernel.closed)[h] ==
                (if exists i :: 0 <= i < |results| && Releases(results[i]) then 1 else 0)
              && (p.process == if exists i :: 0 <= i < |results| && Releases(results[i]) then None else Some(h))
    ensures old(p.process).None? ==> p.process.None?
    ensures old(p.returncode).Some? ==> p.returncode == old(p.returncode)
    ensures p.returncode.Some? && old(p.returncode).None? ==>
              exists i :: 0 <= i < |ops| && ops[i].Communicate? && ops[i].luck.wait == Exited(p.returncode.value)
    ensures p.Owned() <= old(p.Owned()) && p.kernel.Live() == old(p.kernel.Live()) - (old(p.Owned()) - p.Owned())
  {
    results := [];
    ghost var released := false;
    for n := 0 to |ops|
      invariant p.Valid() && |results| == n
      invariant |p.streams| == |old(p.streams)|
      invariant forall i | 0 <= i < |p.streams| :: p.streams[i].handle == old(p.streams)[i].handle
      invariant forall i | 0 <= i < n ::
                  (ops[i].Close? ==> results[i].Closed?) && (ops[i].ReaderEnds? ==> results[i].Progress?) &&
                  (ops[i].Communicate? ==> results[i].Returned? || results[i].Raised? || results[i].TimedOut?)
      invariant released <==> exists i :: 0 <= i < |results| && Releases(results[i])
      invariant p.process == if released then None else old(p.process)
      invariant old(p.returncode).Some? ==> p.returncode == old(p.returncode)
      invariant p.returncode.Some? && old(p.returncode).None? ==>
                  exists i :: 0 <= i < n && ops[i].Communicate? && ops[i].luck.wait == Exited(p.returncode.value)
      invariant p.Owned() <= old(p.Owned()) && p.kernel.Live() == old(p.kernel.Live()) - (old(p.Owned()) - p.Owned())
    {
      var r := Perform(p, ops[n]);
      released := released || Releases(r);
      results := results + [r];
      assert results[n] == r;
    }
    if old(p.process).Some? {
      LiveOrClosedOnce(p.kernel, old(p.process).value);
    }
  }

  /** Any operations, then the `close` that ends the `with` block. */
  method Within(p: JobProcess, ops: seq<Op>)
    requires p.Valid() && p.process.Some?
    modifies p, p.kernel`closed
    ensures p.Valid() && p.Owned() == OpenHandles(p.streams) && multiset(p.kernel.closed)[old(p.process).value] == 1
    ensures forall i | 0 <= i < |p.streams| :: p.streams[i].open ==> p.streams[i].reader.Reading?
    ensures p.Owned() <= old(p.Owned()) && p.kernel.Live() == old(p.kernel.Live()) - (old(p.Owned()) - p.Owned())
  {
    var _ := Drive(p, ops);
    p.Shut();
    assert old(p.process).value !in OpenHandles(p.streams);
    LiveOrClosedOnce(p.kernel, old(p.process).value);
  }

  /**
   From `popen` to the end of the `with` block, whatever happens between: when the block is left the process
   handle was closed once, and the only handles still open that were not before are streams being read.
   */
  method PopenWithin(k: Ledger, stdin: bool, stdout: WinJob.Stdio, stderr: WinJob.Stdio, rendered: bool, ops: seq<Op>)
      returns (outcome: WinJob.Outcome, streams: seq<Stream>)
    requires k.Valid()
    modifies k
    ensures k.Valid()
    ensures k.Live() == old(k.Live()) + OpenHandles(streams)
    ensures forall i | 0 <= i < |streams| :: streams[i].open ==> streams[i].reader.Reading?
    ensures outcome.Failed? ==> streams == []
    ensures outcome.Started? ==> multiset(k.closed)[outcome.process] == 1
  {
    outcome := WinJob.Popen(k, stdin, stdout, stderr, rendered);
    if outcome.Failed? {
      return outcome, [];
    }
    var handles := WinJob.Listed(outcome.stdout) + WinJob.Listed(outcome.stderr);
    assert [outcome.process] + WinJob.Listed(outcome.stdout) + WinJob.Listed(outcome.stderr) ==
      [outcome.process] + handles;
    assert Elems([outcome.process] + handles) == {outcome.process} + Elems(handles);
    var p := new JobProcess(k, outcome.process, handles);
    Within(p, ops);
    streams := p.streams;
  }
}
