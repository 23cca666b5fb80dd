/**
 What the doc comments of src/resolve.rs promise of `resolve`, for every name, disk and environment:
 the search is a first match, which inputs it reads, when an elevated search agrees with an ordinary
 one, and which error kind means what.
 */
module ResolveTheorems {
  import opened Wrappers
  import opened WindowsNames
  import opened Resolve

  // First match ------------------------------------------------------------------------------

  /** The pair `(i, j)` decides, and no pair before it in the search order does. */
  ghost predicate IsFirst(input: Input, disk: Disk, dirs: seq<Bytes>, candidates: seq<Bytes>, i: nat, j: nat) {
    && i < |dirs| && j < |candidates|
    && Decides(input, ProbeOf(input, disk, dirs[i], candidates[j]))
    && (forall b | 0 <= b < j :: !Decides(input, ProbeOf(input, disk, dirs[i], candidates[b])))
    && (forall a, b | 0 <= a < i && 0 <= b < |candidates| ::
      !Decides(input, ProbeOf(input, disk, dirs[a], candidates[b])))
  }

  ghost predicate NoneDecides(input: Input, disk: Disk, dirs: seq<Bytes>, candidates: seq<Bytes>) {
    forall a, b | 0 <= a < |dirs| && 0 <= b < |candidates| ::
      !Decides(input, ProbeOf(input, disk, dirs[a], candidates[b]))
  }

  lemma {:induction false} RowSettles(
      input: Input, disk: Disk, dir: Bytes, candidates: seq<Bytes>, rest: seq<Probe>, j: nat)
    requires j <= |candidates| && forall b | 0 <= b < j :: !Decides(input, ProbeOf(input, disk, dir, candidates[b]))
    ensures j < |candidates| && Decides(input, ProbeOf(input, disk, dir, candidates[j])) ==>
              Settle(input, Row(input, disk, dir, candidates) + rest) ==
                Verdict(input, ProbeOf(input, disk, dir, candidates[j]))
    ensures j == |candidates| ==> Settle(input, Row(input, disk, dir, candidates) + rest) == Settle(input, rest)
    decreases |candidates|
  {
    hide ProbeOf;
    if candidates == [] {
      assert [] + rest == rest;
    } else {
      var head, tail := ProbeOf(input, disk, dir, candidates[0]), Row(input, disk, dir, candidates[1..]);
      assert ([head] + tail + rest)[1..] == tail + rest;
      if j > 0 {
        RowSettles(input, disk, dir, candidates[1..], rest, j - 1);
      }
    }
  }

  lemma {:induction false} FirstSettles(
      input: Input, disk: Disk, dirs: seq<Bytes>, candidates: seq<Bytes>, i: nat, j: nat)
    requires IsFirst(input, disk, dirs, candidates, i, j)
    ensures Settle(input, Probes(input, disk, dirs, candidates)) ==
              Verdict(input, ProbeOf(input, disk, dirs[i], candidates[j]))
    decreases |dirs|
  {
    hide ProbeOf, Settle, Row;
    var rest := Probes(input, disk, dirs[1..], candidates);
    if i == 0 {
      RowSettles(input, disk, dirs[0], candidates, rest, j);
    } else {
      RowSettles(input, disk, dirs[0], candidates, rest, |candidates|);
      FirstSettles(input, disk, dirs[1..], candidates, i - 1, j);
    }
  }

  lemma {:induction false} NoneSettles(input: Input, disk: Disk, dirs: seq<Bytes>, candidates: seq<Bytes>)
    requires NoneDecides(input, disk, dirs, candidates)
    ensures Settle(input, Probes(input, disk, dirs, candidates)) == NotFound
    decreases |dirs|
  {
    hide ProbeOf, Row;
    if dirs != [] {
      RowSettles(input, disk, dirs[0], candidates, Probes(input, disk, dirs[1..], candidates), |candidates|);
      NoneSettles(input, disk, dirs[1..], candidates);
    }
  }

  /** Some pair is the first to decide, or none decides. */
  lemma {:induction false} FirstExists(input: Input, disk: Disk, dirs: seq<Bytes>, candidates: seq<Bytes>)
    ensures || NoneDecides(input, disk, dirs, candidates)
            || exists i: nat, j: nat :: IsFirst(input, disk, dirs, candidates, i, j)
    decreases |dirs|
  {
    hide ProbeOf;
    if dirs != [] {
      var b := 0;
      while b < |candidates| && !Decides(input, ProbeOf(input, disk, dirs[0], candidates[b]))
        invariant b <= |candidates|
        invariant forall c | 0 <= c < b :: !Decides(input, ProbeOf(input, disk, dirs[0], candidates[c]))
      {
        b := b + 1;
      }
      if b < |candidates| {
        assert IsFirst(input, disk, dirs, candidates, 0, b);
      } else {
        var rest := dirs[1..];
        FirstExists(input, disk, rest, candidates);
        if NoneDecides(input, disk, rest, candidates) {
          assert forall a | 0 < a < |dirs| :: dirs[a] == rest[a - 1];
          assert NoneDecides(input, disk, dirs, candidates);
        } else {
          var i: nat, j: nat :| IsFirst(input, disk, rest, candidates, i, j);
          assert forall a | 0 < a < |dirs| :: dirs[a] == rest[a - 1];
          assert IsFirst(input, disk, dirs, candidates, i + 1, j);
        }
      }
    }
  }

  /** The search as `resolve` sets it up: nothing is refused on shape and no query fails. */
  ghost predicate Searches(input: Input, dirs: seq<Bytes>, candidates: seq<Bytes>) {
    Contract(input) && ShapeRefusal(input).None? && Dirs(input) == Some(dirs) && Candidates(input) == candidates
  }

  /** A search is a first match: `NotFound` exactly when no pair decides, else the first pair's verdict. */
  lemma SearchIsFirstMatch(input: Input, disk: Disk, dirs: seq<Bytes>, candidates: seq<Bytes>)
    requires Searches(input, dirs, candidates)
    ensures Answer(input, disk) == NotFound <==> NoneDecides(input, disk, dirs, candidates)
    ensures forall i: nat, j: nat | IsFirst(input, disk, dirs, candidates, i, j) ::
              Answer(input, disk) == Verdict(input, ProbeOf(input, disk, dirs[i], candidates[j]))
  {
    hide ProbeOf, Dirs, Candidates, ShapeRefusal, Contract;
    forall i: nat, j: nat | IsFirst(input, disk, dirs, candidates, i, j)
      ensures Answer(input, disk) == Verdict(input, ProbeOf(input, disk, dirs[i], candidates[j]))
    {
      FirstSettles(input, disk, dirs, candidates, i, j);
    }
    FirstExists(input, disk, dirs, candidates);
    if NoneDecides(input, disk, dirs, candidates) {
      NoneSettles(input, disk, dirs, candidates);
    } else {
      var i: nat, j: nat :| IsFirst(input, disk, dirs, candidates, i, j);
    }
  }

  // What a pair comes to -------------------------------------------------------------------------

  /** The path the disk is asked about; `None` if Win32's completion fails. */
  function Completed(input: Input, dir: Bytes, candidate: Bytes): Option<Bytes> {
    var joined := PathOf(input, dir, candidate);
    if MadeVerbatim(input, dir, candidate) then input.normalise(joined) else Some(joined)
  }

  /** The pair joins to an accepted path, which completes to one that names no file. */
  predicate Barred(input: Input, dir: Bytes, candidate: Bytes) {
    && Accepted(input, PathOf(input, dir, candidate)) && MadeVerbatim(input, dir, candidate)
    && Completed(input, dir, candidate).Some? && NamesNoFile(Completed(input, dir, candidate).value, true)
  }

  /** The pair joins to an accepted path whose completion fails. */
  predicate Incomplete(input: Input, dir: Bytes, candidate: Bytes) {
    Accepted(input, PathOf(input, dir, candidate)) && Completed(input, dir, candidate).None?
  }

  /** The pair joins to an accepted path that the disk can be asked about. */
  predicate Usable(input: Input, dir: Bytes, candidate: Bytes) {
    && Accepted(input, PathOf(input, dir, candidate)) && Completed(input, dir, candidate).Some?
    && !Barred(input, dir, candidate)
  }

  /** The path the pair comes to is present. */
  predicate Hit(input: Input, disk: Disk, dir: Bytes, candidate: Bytes) {
    Usable(input, dir, candidate) && disk(Completed(input, dir, candidate).value).Present?
  }

  /** Nobody can tell whether the path the pair comes to is present. */
  predicate Unsure(input: Input, disk: Disk, dir: Bytes, candidate: Bytes) {
    || Incomplete(input, dir, candidate)
    || (Usable(input, dir, candidate) && disk(Completed(input, dir, candidate).value).Undeterminable?)
  }

  /** The search ends at the pair. */
  predicate Stops(input: Input, disk: Disk, dir: Bytes, candidate: Bytes) {
    || Hit(input, disk, dir, candidate)
    || Barred(input, dir, candidate)
    || (input.loadableOnly && Unsure(input, disk, dir, candidate))
  }

  lemma PairMeaning(input: Input, disk: Disk, dir: Bytes, candidate: Bytes)
    ensures var probe := ProbeOf(input, disk, dir, candidate);
            && (Hit(input, disk, dir, candidate) <==> probe.Found?)
            && (Hit(input, disk, dir, candidate) ==> probe == Found(Completed(input, dir, candidate).value))
            && (Unsure(input, disk, dir, candidate) <==> probe == Unknown(PathOf(input, dir, candidate)))
            && (Unsure(input, disk, dir, candidate) <==> probe.Unknown?)
            && (Barred(input, dir, candidate) <==> probe.Refuse?)
            && (Decides(input, probe) <==> Stops(input, disk, dir, candidate))
  {
    hide PathOf, MadeVerbatim, Accepted, NamesNoFile;
  }

  /** The pair `(a, b)` comes before `(i, j)` in the search order. */
  predicate Earlier(a: int, b: int, i: int, j: int) {
    a < i || (a == i && b < j)
  }

  /** The search ends at no pair before `(i, j)`. */
  ghost predicate ClearBefore(input: Input, disk: Disk, dirs: seq<Bytes>, candidates: seq<Bytes>, i: int, j: int) {
    forall a, b | 0 <= a < |dirs| && 0 <= b < |candidates| && Earlier(a, b, i, j) ::
      !Stops(input, disk, dirs[a], candidates[b])
  }

  lemma FirstIsClear(input: Input, disk: Disk, dirs: seq<Bytes>, candidates: seq<Bytes>, i: nat, j: nat)
    requires i < |dirs| && j < |candidates|
    ensures IsFirst(input, disk, dirs, candidates, i, j) <==>
              Stops(input, disk, dirs[i], candidates[j]) && ClearBefore(input, disk, dirs, candidates, i, j)
  {
    hide ProbeOf, Decides, Stops;
    forall a, b | 0 <= a < |dirs| && 0 <= b < |candidates|
      ensures Decides(input, ProbeOf(input, disk, dirs[a], candidates[b])) <==>
                Stops(input, disk, dirs[a], candidates[b])
    {
      PairMeaning(input, disk, dirs[a], candidates[b]);
    }
    if ClearBefore(input, disk, dirs, candidates, i, j) {
      assert forall b | 0 <= b < j :: Earlier(i, b, i, j);
      assert forall a, b | 0 <= a < i && 0 <= b < |candidates| :: Earlier(a, b, i, j);
    }
  }

  /** The outcome at the pair where the search ends. */
  function Ending(input: Input, disk: Disk, dir: Bytes, candidate: Bytes): Outcome
    requires Stops(input, disk, dir, candidate)
  {
    if Hit(input, disk, dir, candidate) then Ok(Completed(input, dir, candidate).value)
    else if Barred(input, dir, candidate) then Refused(CompletesToNoFile)
    else CouldNotTell(PathOf(input, dir, candidate))
  }

  lemma EndingIsVerdict(input: Input, disk: Disk, dir: Bytes, candidate: Bytes)
    requires Stops(input, disk, dir, candidate)
    ensures Decides(input, ProbeOf(input, disk, dir, candidate))
    ensures Verdict(input, ProbeOf(input, disk, dir, candidate)) == Ending(input, disk, dir, candidate)
  {
    hide ProbeOf, Hit, Barred, Unsure;
    PairMeaning(input, disk, dir, candidate);
  }

  /** The search ends at the first pair that stops it, if any does, whatever the base. */
  lemma SearchEnds(input: Input, disk: Disk, dirs: seq<Bytes>, candidates: seq<Bytes>)
    requires Searches(input, dirs, candidates)
    ensures forall i, j | 0 <= i < |dirs| && 0 <= j < |candidates| && Stops(input, disk, dirs[i], candidates[j])
                       && ClearBefore(input, disk, dirs, candidates, i, j) ::
              Answer(input, disk) == Ending(input, disk, dirs[i], candidates[j])
    ensures Answer(input, disk).NotFound? ||
              exists i, j :: 0 <= i < |dirs| && 0 <= j < |candidates| && Stops(input, disk, dirs[i], candidates[j])
                          && ClearBefore(input, disk, dirs, candidates, i, j)
    ensures Answer(input, disk).NotFound? <==>
              forall i, j | 0 <= i < |dirs| && 0 <= j < |candidates| :: !Stops(input, disk, dirs[i], candidates[j])
  {
    hide ProbeOf, Answer, Searches, Stops, Decides, ClearBefore, IsFirst, Ending;
    SearchIsFirstMatch(input, disk, dirs, candidates);
    FirstExists(input, disk, dirs, candidates);
    forall i, j | 0 <= i < |dirs| && 0 <= j < |candidates|
      ensures Decides(input, ProbeOf(input, disk, dirs[i], candidates[j])) <==>
                Stops(input, disk, dirs[i], candidates[j])
      ensures Stops(input, disk, dirs[i], candidates[j]) ==>
                Verdict(input, ProbeOf(input, disk, dirs[i], candidates[j])) ==
                  Ending(input, disk, dirs[i], candidates[j])
      ensures IsFirst(input, disk, dirs, candidates, i, j) <==>
                Stops(input, disk, dirs[i], candidates[j]) && ClearBefore(input, disk, dirs, candidates, i, j)
    {
      PairMeaning(input, disk, dirs[i], candidates[j]);
      if Stops(input, disk, dirs[i], candidates[j]) {
        EndingIsVerdict(input, disk, dirs[i], candidates[j]);
      }
      FirstIsClear(input, disk, dirs, candidates, i, j);
    }
    if !NoneDecides(input, disk, dirs, candidates) {
      var i: nat, j: nat :| IsFirst(input, disk, dirs, candidates, i, j);
      FirstInRange(input, disk, dirs, candidates, i, j);
    }
  }

  lemma FirstInRange(input: Input, disk: Disk, dirs: seq<Bytes>, candidates: seq<Bytes>, i: nat, j: nat)
    requires IsFirst(input, disk, dirs, candidates, i, j)
    ensures i < |dirs| && j < |candidates| && Decides(input, ProbeOf(input, disk, dirs[i], candidates[j]))
  {
  }

  /** `path` is what the first stopping pair comes to, and it is present. */
  ghost predicate FirstHit(input: Input, disk: Disk, dirs: seq<Bytes>, candidates: seq<Bytes>, path: Bytes) {
    exists i, j ::
      && 0 <= i < |dirs| && 0 <= j < |candidates| && Hit(input, disk, dirs[i], candidates[j])
      && Completed(input, dirs[i], candidates[j]) == Some(path) && ClearBefore(input, disk, dirs, candidates, i, j)
  }

  /** The first stopping pair completes to a path that names no file. */
  ghost predicate FirstBarred(input: Input, disk: Disk, dirs: seq<Bytes>, candidates: seq<Bytes>) {
    exists i, j ::
      && 0 <= i < |dirs| && 0 <= j < |candidates| && Barred(input, dirs[i], candidates[j])
      && ClearBefore(input, disk, dirs, candidates, i, j)
  }

  /** `path` is what the first stopping pair joins to, and nobody can tell whether it is there. */
  ghost predicate FirstUnsure(input: Input, disk: Disk, dirs: seq<Bytes>, candidates: seq<Bytes>, path: Bytes) {
    exists i, j ::
      && 0 <= i < |dirs| && 0 <= j < |candidates| && Unsure(input, disk, dirs[i], candidates[j])
      && PathOf(input, dirs[i], candidates[j]) == path && ClearBefore(input, disk, dirs, candidates, i, j)
  }

  lemma OnePairMeaning(input: Input, disk: Disk, dir: Bytes, candidate: Bytes)
    ensures !(Hit(input, disk, dir, candidate) && Barred(input, dir, candidate))
    ensures !(Hit(input, disk, dir, candidate) && Unsure(input, disk, dir, candidate))
    ensures !(Unsure(input, disk, dir, candidate) && Barred(input, dir, candidate))
    ensures Hit(input, disk, dir, candidate) ==> Completed(input, dir, candidate).Some?
  {
    hide ProbeOf, Unsure, Barred;
    PairMeaning(input, disk, dir, candidate);
  }

  /**
   An ordinary search answers with a path exactly if that is what its first present pair comes to, no pair
   before it being completed to a path that names no file; it is refused exactly if such a pair comes first,
   and says `NotFound` exactly if there is no pair of either kind.
   */
  lemma OrdinarySearch(input: Input, disk: Disk, dirs: seq<Bytes>, candidates: seq<Bytes>)
    requires Searches(input, dirs, candidates) && !input.loadableOnly
    ensures Answer(input, disk).Ok? || Answer(input, disk).NotFound? || Answer(input, disk).Refused?
    ensures forall path :: Answer(input, disk) == Ok(path) <==> FirstHit(input, disk, dirs, candidates, path)
    ensures Answer(input, disk).Refused? <==> FirstBarred(input, disk, dirs, candidates)
    ensures Answer(input, disk).NotFound? <==>
              forall i, j | 0 <= i < |dirs| && 0 <= j < |candidates| ::
                !Hit(input, disk, dirs[i], candidates[j]) && !Barred(input, dirs[i], candidates[j])
  {
    hide Answer, Searches, Hit, Barred, Unsure, ClearBefore, Completed, PathOf;
    SearchEnds(input, disk, dirs, candidates);
    forall i, j | 0 <= i < |dirs| && 0 <= j < |candidates|
      ensures !(Hit(input, disk, dirs[i], candidates[j]) && Barred(input, dirs[i], candidates[j]))
      ensures Stops(input, disk, dirs[i], candidates[j]) <==>
                Hit(input, disk, dirs[i], candidates[j]) || Barred(input, dirs[i], candidates[j])
      ensures Hit(input, disk, dirs[i], candidates[j]) ==> Completed(input, dirs[i], candidates[j]).Some?
    {
      OnePairMeaning(input, disk, dirs[i], candidates[j]);
    }
  }

  /**
   A `loadable_only` search answers, or is refused, as an ordinary one, except that it also stops at the
   first pair whose presence nobody can tell, exactly if no present or refused one comes before.
   */
  lemma LoadableSearch(input: Input, disk: Disk, dirs: seq<Bytes>, candidates: seq<Bytes>)
    requires Searches(input, dirs, candidates) && input.loadableOnly
    ensures !Answer(input, disk).QueryFailed?
    ensures forall path :: Answer(input, disk) == Ok(path) <==> FirstHit(input, disk, dirs, candidates, path)
    ensures forall path :: Answer(input, disk) == CouldNotTell(path) <==>
              FirstUnsure(input, disk, dirs, candidates, path)
    ensures Answer(input, disk).Refused? <==> FirstBarred(input, disk, dirs, candidates)
    ensures Answer(input, disk).NotFound? <==>
              forall i, j | 0 <= i < |dirs| && 0 <= j < |candidates| :: !Stops(input, disk, dirs[i], candidates[j])
  {
    hide Answer, Searches, Hit, Barred, Unsure, ClearBefore, Completed, PathOf;
    SearchEnds(input, disk, dirs, candidates);
    forall i, j | 0 <= i < |dirs| && 0 <= j < |candidates|
      ensures !(Hit(input, disk, dirs[i], candidates[j]) && Barred(input, dirs[i], candidates[j]))
      ensures !(Hit(input, disk, dirs[i], candidates[j]) && Unsure(input, disk, dirs[i], candidates[j]))
      ensures !(Unsure(input, disk, dirs[i], candidates[j]) && Barred(input, dirs[i], candidates[j]))
      ensures Hit(input, disk, dirs[i], candidates[j]) ==> Completed(input, dirs[i], candidates[j]).Some?
    {
      OnePairMeaning(input, disk, dirs[i], candidates[j]);
    }
  }

  /** `NotFound` means that every pair was tried: none is present, nor, for an elevated spawn, in doubt. */
  lemma NotFoundMeansAllTried(input: Input, disk: Disk, dirs: seq<Bytes>, candidates: seq<Bytes>, i: nat, j: nat)
    requires Searches(input, dirs, candidates) && Answer(input, disk).NotFound?
    requires i < |dirs| && j < |candidates|
    ensures !Hit(input, disk, dirs[i], candidates[j]) && !Barred(input, dirs[i], candidates[j])
    ensures input.loadableOnly ==> !Unsure(input, disk, dirs[i], candidates[j])
  {
    hide Answer, Searches, Hit, Barred, Unsure, ClearBefore;
    SearchEnds(input, disk, dirs, candidates);
    assert !Stops(input, disk, dirs[i], candidates[j]);
  }

  /** The cwd is not verbatim, so no name is made verbatim by it and Win32's completion plays no part. */
  predicate PlainBase(input: Input) {
    !(input.windows && input.cwd.Some? && IsVerbatim(input.cwd.value))
  }

  /** On such a base a pair comes to its join, and is usable exactly if that is accepted. */
  lemma PlainPair(input: Input, dirs: seq<Bytes>, candidates: seq<Bytes>, i: nat, j: nat)
    requires Searches(input, dirs, candidates) && PlainBase(input) && i < |dirs| && j < |candidates|
    ensures var joined := JoinCandidate(input, dirs[i], candidates[j]);
            && PathOf(input, dirs[i], candidates[j]) == joined
            && Completed(input, dirs[i], candidates[j]) == Some(joined)
            && !Barred(input, dirs[i], candidates[j]) && !Incomplete(input, dirs[i], candidates[j])
            && (Usable(input, dirs[i], candidates[j]) <==> Accepted(input, joined))
  {
    hide Candidates, ShapeRefusal, NeedsBase, Accepted;
  }

  // Elevated and ordinary searches -------------------------------------------------------------

  lemma BareCandidateIsLoadable(input: Input)
    requires input.windows && ShapeOf(input).BareName? && !NamesNoFile(input.program, true)
    ensures Candidates(input.(loadableOnly := true)) == Candidates(input.(loadableOnly := false))
    ensures Candidates(input.(loadableOnly := true)) != []
  {
    var name := input.program;
    hide NamesNoFile, Classify;
    assert (name + EXE)[|name|..] == EXE;
    assert HasLoadableExtension(name + EXE);
    var all := FilenameCandidates(name, true, BareName);
    assert |all| == 1 && HasLoadableExtension(all[0]);
    assert Loadable(all[1..]) == [];
  }

  lemma {:induction false} SettlesAlike(strict: Input, lax: Input, probes: seq<Probe>)
    requires strict.loadableOnly && !lax.loadableOnly
    ensures Settle(strict, probes).CouldNotTell? || Settle(strict, probes) == Settle(lax, probes)
    ensures !Settle(lax, probes).CouldNotTell?
  {
    if probes != [] {
      SettlesAlike(strict, lax, probes[1..]);
    }
  }

  lemma {:induction false} ProbesAlike(input: Input, disk: Disk, dirs: seq<Bytes>, candidates: seq<Bytes>)
    ensures Probes(input.(loadableOnly := true), disk, dirs, candidates) ==
              Probes(input.(loadableOnly := false), disk, dirs, candidates)
  {
    if dirs != [] {
      RowAlike(input, disk, dirs[0], candidates);
      ProbesAlike(input, disk, dirs[1..], candidates);
    }
  }

  lemma {:induction false} RowAlike(input: Input, disk: Disk, dir: Bytes, candidates: seq<Bytes>)
    ensures Row(input.(loadableOnly := true), disk, dir, candidates) ==
              Row(input.(loadableOnly := false), disk, dir, candidates)
  {
    hide ProbeOf;
    if candidates != [] {
      ProbeAlike(input, disk, dir, candidates[0]);
      RowAlike(input, disk, dir, candidates[1..]);
    }
  }

  lemma ProbeAlike(input: Input, disk: Disk, dir: Bytes, candidate: Bytes)
    ensures ProbeOf(input.(loadableOnly := true), disk, dir, candidate) ==
              ProbeOf(input.(loadableOnly := false), disk, dir, candidate)
  {
    hide TypeOf, DriveLen, PrefixLen, Classify, IsVerbatim, IsAbsoluteName, NamesNoFile;
  }

  /**
   For a bare Windows name an elevated search differs from an ordinary one only by stopping where it
   could not tell: every other answer, success included, is the ordinary search's answer.
   */
  lemma ElevatedAgreesOnBareNames(input: Input, disk: Disk)
    requires input.windows && ShapeOf(input).BareName?
    requires Contract(input)
    ensures var strict, lax := Answer(input.(loadableOnly := true), disk), Answer(input.(loadableOnly := false), disk);
            strict == lax <==> !strict.CouldNotTell?
  {
    var strict, lax := input.(loadableOnly := true), input.(loadableOnly := false);
    BareIsRelative(input.program);
    hide TypeOf, Classify, NamesNoFile, Candidates, FilenameCandidates, Probes, Settle;
    if !NamesNoFile(input.program, true) {
      BareCandidateIsLoadable(input);
      if input.systemDirs.Some? {
        var dirs := Dirs(strict).value;
        assert Dirs(lax) == Some(dirs);
        ProbesAlike(input, disk, dirs, Candidates(strict));
        SettlesAlike(strict, lax, Probes(strict, disk, dirs, Candidates(strict)));
      }
    }
  }

  lemma {:induction false} SureProbesSettle(input: Input, probes: seq<Probe>)
    requires forall k | 0 <= k < |probes| :: !probes[k].Unknown?
    ensures !Settle(input, probes).CouldNotTell?
  {
    if probes != [] {
      SureProbesSettle(input, probes[1..]);
    }
  }

  lemma {:induction false} SureProbes(input: Input, disk: Disk, dirs: seq<Bytes>, candidates: seq<Bytes>)
    requires ShapeOf(input).BareName? && forall path :: !disk(path).Undeterminable?
    ensures forall k | 0 <= k < |Probes(input, disk, dirs, candidates)| ::
              !Probes(input, disk, dirs, candidates)[k].Unknown?
  {
    hide ShapeOf;
    if dirs != [] {
      SureRow(input, disk, dirs[0], candidates);
      SureProbes(input, disk, dirs[1..], candidates);
    }
  }

  lemma {:induction false} SureRow(input: Input, disk: Disk, dir: Bytes, candidates: seq<Bytes>)
    requires ShapeOf(input).BareName? && forall path :: !disk(path).Undeterminable?
    ensures forall k | 0 <= k < |Row(input, disk, dir, candidates)| :: !Row(input, disk, dir, candidates)[k].Unknown?
  {
    hide ShapeOf, Accepted, PathOf;
    if candidates != [] {
      SureRow(input, disk, dir, candidates[1..]);
    }
  }

  /** So on a disk that can always tell, the two searches agree on every bare Windows name. */
  lemma ElevatedAgreesOnSureDisks(input: Input, disk: Disk)
    requires input.windows && ShapeOf(input).BareName? && Contract(input)
    requires forall path :: !disk(path).Undeterminable?
    ensures Answer(input.(loadableOnly := true), disk) == Answer(input.(loadableOnly := false), disk)
  {
    ElevatedAgreesOnBareNames(input, disk);
    var strict := input.(loadableOnly := true);
    hide Classify, TypeOf, Candidates, Settle, Probes;
    match Dirs(strict)
    case None =>
    case Some(dirs) =>
      SureProbes(strict, disk, dirs, Candidates(strict));
      SureProbesSettle(strict, Probes(strict, disk, dirs, Candidates(strict)));
  }

  // Located names ------------------------------------------------------------------------------

  lemma OneProbe(input: Input, disk: Disk, dir: Bytes, c: Bytes)
    ensures var p := ProbeOf(input, disk, dir, c);
            Settle(input, Probes(input, disk, [dir], [c])) == if Decides(input, p) then Verdict(input, p) else NotFound
  {
    hide ProbeOf, Decides, Verdict;
    var p, cs, ds := ProbeOf(input, disk, dir, c), [c], [dir];
    assert cs[1..] == [] && ds[1..] == [];
    assert Row(input, disk, dir, cs) == [p] + [];
    assert Probes(input, disk, ds, cs) == [p];
    assert [p][1..] == [];
  }

  lemma TwoProbes(input: Input, disk: Disk, dir: Bytes, c: Bytes, d: Bytes)
    ensures var p := ProbeOf(input, disk, dir, c);
            Settle(input, Probes(input, disk, [dir], [c, d])) ==
            if Decides(input, p) then Verdict(input, p) else Settle(input, Probes(input, disk, [dir], [d]))
  {
    hide ProbeOf, Decides, Verdict;
    var p, both, last, ds := ProbeOf(input, disk, dir, c), [c, d], [d], [dir];
    var q := ProbeOf(input, disk, dir, d);
    assert both[1..] == last && last[1..] == [] && ds[1..] == [];
    assert Row(input, disk, dir, last) == [q];
    assert Row(input, disk, dir, both) == [p] + [q];
    assert Probes(input, disk, ds, last) == [q];
    assert Probes(input, disk, ds, both) == Row(input, disk, dir, both) + Probes(input, disk, ds[1..], both);
    assert Probes(input, disk, ds[1..], both) == [];
    assert Probes(input, disk, ds, both) == [p, q];
    assert [p, q][1..] == [q];
  }

  /** What a located Windows name is tried as, by an ordinary and by an elevated search. */
  lemma LocatedCandidates(input: Input)
    requires input.windows && ShapeOf(input).Located?
    ensures var s, x := input.program, input.program + EXE;
            var lax, strict := input.(loadableOnly := false), input.(loadableOnly := true);
            if HasLoadableExtension(s) then Candidates(lax) == [s] && Candidates(strict) == [s]
            else if TakesTheExeFallback(s, true) then Candidates(lax) == [s, x] && Candidates(strict) == [x]
            else Candidates(lax) == [s] && Candidates(strict) == []
  {
    var s, x := input.program, input.program + EXE;
    assert x[|s|..] == EXE;
    assert HasLoadableExtension(x);
    hide HasLoadableExtension, TakesTheExeFallback, Classify, NamesNoFile;
    var one, two, none: seq<Bytes> := [s], [s, x], [];
    assert one[1..] == none && two[1..] == [x] && [x][1..] == none;
    assert Loadable(none) == none;
    assert Loadable([x]) == [x];
  }

  /** The two searches of a located name find the same: at one pair, then at the other. */
  predicate SameEnding(input: Input, disk: Disk, dir: Bytes, s: Bytes, x: Bytes) {
    if Hit(input, disk, dir, s) then Hit(input, disk, dir, x) && Completed(input, dir, s) == Completed(input, dir, x)
    else if Barred(input, dir, s) then Barred(input, dir, x)
    else !Unsure(input, disk, dir, x)
  }

  /** Whether an elevated and an ordinary search of an unrefused located name agree. */
  predicate LocatedAgrees(input: Input, disk: Disk, dir: Bytes) {
    var s, x := input.program, input.program + EXE;
    if HasLoadableExtension(s) then !Unsure(input, disk, dir, s)
    else TakesTheExeFallback(s, true) && SameEnding(input, disk, dir, s, x)
  }

  /** An elevated search looks in the same places, and refuses besides what it could not load. */
  lemma ElevatedRefusal(input: Input)
    requires input.windows && Contract(input)
    ensures var lax, strict := input.(loadableOnly := false), input.(loadableOnly := true);
            && Contract(lax) && Contract(strict) && Dirs(lax) == Dirs(input) && Dirs(strict) == Dirs(input)
            && (ShapeRefusal(lax).None? ==>
                  ShapeRefusal(strict) == if Candidates(strict) == [] then Some(Unloadable) else None)
            && (ShapeRefusal(lax).Some? ==> ShapeRefusal(strict) == ShapeRefusal(lax))
  {
    hide NamesNoFile, IsDriveRelative, IsUncWithoutShare, TypeOf, Classify, Candidates, IsVerbatim, NeedsBase;
  }

  lemma LocatedSearches(input: Input, disk: Disk, dir: Bytes)
    requires input.windows && ShapeOf(input).Located? && Contract(input)
    requires ShapeRefusal(input.(loadableOnly := false)).None? && Dirs(input) == Some([dir])
    ensures Answer(input.(loadableOnly := true), disk) == Answer(input.(loadableOnly := false), disk) <==>
              LocatedAgrees(input.(loadableOnly := false), disk, dir)
  {
    var lax, strict := input.(loadableOnly := false), input.(loadableOnly := true);
    var s, x := input.program, input.program + EXE;
    hide ShapeRefusal, Dirs, Candidates, Contract, HasLoadableExtension;
    hide TakesTheExeFallback, ProbeOf, Settle, Probes, Classify;
    hide Hit, Unsure, Barred, Completed, PathOf;
    LocatedCandidates(input);
    ElevatedRefusal(input);
    PairMeaning(lax, disk, dir, s);
    PairMeaning(lax, disk, dir, x);
    ProbeAlike(input, disk, dir, s);
    ProbeAlike(input, disk, dir, x);
    if HasLoadableExtension(s) {
      OneProbe(lax, disk, dir, s);
      OneProbe(strict, disk, dir, s);
    } else if TakesTheExeFallback(s, true) {
      TwoProbes(lax, disk, dir, s, x);
      OnePairMeaning(lax, disk, dir, s);
      OnePairMeaning(lax, disk, dir, x);
      OneProbe(lax, disk, dir, x);
      OneProbe(strict, disk, dir, x);
    } else {
      OneProbe(lax, disk, dir, s);
    }
  }

  /** On a plain base the two candidates join to two paths. */
  lemma JoinsDiffer(input: Input, dir: Bytes, s: Bytes)
    requires input.windows && !NamesNoFile(s, true) && !IsVerbatim(dir)
    ensures JoinCandidate(input, dir, s) != JoinCandidate(input, dir, s + EXE)
  {
    hide NamesNoFile, PrefixLen, IsVerbatim, EndsInSep, DriveLen;
    TypeOfExtended(s, EXE);
    PrefixLeavesFile(s);
    hide TypeOf;
    assert |JoinCandidate(input, dir, s + EXE)| == |JoinCandidate(input, dir, s)| + 4;
  }

  lemma LocatedDirs(input: Input)
    requires input.windows && ShapeOf(input).Located? && Contract(input)
    ensures Dirs(input).Some? && |Dirs(input).value| == 1
    ensures PlainBase(input) ==> !IsVerbatim(Dirs(input).value[0])
    ensures Dirs(input) == Some([Dirs(input).value[0]])
  {
    hide Classify, NeedsBase, Accepted;
  }

  /**
   For every located Windows name, on every base: an elevated and an ordinary search agree if and only if
   the name is refused on its shape anyway, or ends in `.exe` or `.com` and its presence is not in doubt, or
   takes the `.exe` fallback and both come to the same by it.
   */
  lemma ElevatedOnLocatedNames(input: Input, disk: Disk)
    requires input.windows && ShapeOf(input).Located? && Contract(input)
    ensures var lax, strict := input.(loadableOnly := false), input.(loadableOnly := true);
            Answer(strict, disk) == Answer(lax, disk) <==>
              || ShapeRefusal(lax).Some?
              || (Dirs(input).Some? && |Dirs(input).value| == 1 && LocatedAgrees(lax, disk, Dirs(input).value[0]))
  {
    var lax, strict := input.(loadableOnly := false), input.(loadableOnly := true);
    LocatedDirs(input);
    ElevatedRefusal(input);
    hide ShapeRefusal, Dirs, Classify, Contract, LocatedAgrees, Settle, Probes, Candidates;
    if ShapeRefusal(lax).None? {
      LocatedSearches(input, disk, Dirs(input).value[0]);
    }
  }

  /** On a plain base that says: no `.exe` is hidden by a present file of the written name, and none is in doubt. */
  lemma ElevatedDiffersOnLocatedNames(input: Input, disk: Disk, dir: Bytes)
    requires input.windows && ShapeOf(input).Located? && Contract(input) && PlainBase(input)
    requires Dirs(input) == Some([dir])
    requires ShapeRefusal(input.(loadableOnly := false)).None?
    ensures var s, lax, strict := input.program, input.(loadableOnly := false), input.(loadableOnly := true);
            Answer(strict, disk) == Answer(lax, disk) <==>
              if HasLoadableExtension(s) then !Unsure(lax, disk, dir, s)
              else TakesTheExeFallback(s, true) && !Hit(lax, disk, dir, s) && !Unsure(lax, disk, dir, s + EXE)
  {
    var s, x, lax := input.program, input.program + EXE, input.(loadableOnly := false);
    LocatedDirs(input);
    LocatedSearches(input, disk, dir);
    assert !NamesNoFile(s, true);
    JoinsDiffer(lax, dir, s);
    assert !MadeVerbatim(lax, dir, s) && !MadeVerbatim(lax, dir, x);
    hide HasLoadableExtension, TakesTheExeFallback, JoinCandidate, Accepted, ShapeRefusal;
    hide Answer, NamesNoFile, Dirs, Classify, Contract;
    assert Completed(lax, dir, s) != Completed(lax, dir, x);
  }

  /** So where both `C:\t` and `C:\t.exe` exist an elevated search takes the one it can load. */
  lemma ElevatedPrefersLoadable(input: Input)
    requires input.windows && Contract(input)
    requires input.program == [67, COLON, BACKSLASH, 116]   // C:\t
    ensures var disk: Disk := path => Present;
            && Answer(input.(loadableOnly := false), disk) == Ok(input.program)
            && Answer(input.(loadableOnly := true), disk) == Ok(input.program + EXE)
  {
    hide Answer, TypeOf, PrefixLen, Classify, HasLoadableExtension, NamesNoFile, DriveLen;
    var s, x, disk: Disk := input.program, input.program + EXE, path => Present;
    DriveT();
    var all: seq<Bytes>, one: seq<Bytes> := [s, x], [x];
    assert all[1..] == one && one[1..] == [];
    assert Loadable(one) == one;
    assert Loadable(all) == [] + Loadable(all[1..]);
    LocatedAnswer(input.(loadableOnly := false), disk, all);
    LocatedAnswer(input.(loadableOnly := true), disk, one);
  }

  /** How `C:\t` is read. */
  lemma DriveT()
    ensures var s: Bytes := [67, COLON, BACKSLASH, 116];
            && TypeOf(s).DriveAbsolute? && TypeOf(s + EXE).DriveAbsolute? && Classify(s, true).Located?
            && !NamesNoFile(s, true) && !HasLoadableExtension(s) && HasLoadableExtension(s + EXE)
            && FilenameCandidates(s, true, Located) == [s, s + EXE]
  {
    hide UncPrefixLen, Component;
    var s: Bytes := [67, COLON, BACKSLASH, 116];
    var x := s + EXE;
    assert s[2] == BACKSLASH && HasSep(s, true) && PrefixLen(s) == 2;
    assert s[2..] == [BACKSLASH, 116];
    assert s[2..][..1] == [BACKSLASH];
    assert AfterLastSep(s[2..], true) == 1;
    assert FinalComponent(s, true) == [116];
    assert s[0..] == s && Lower(s[0]) == 99;
    assert x[4..] == EXE && x[0] == 67 && x[1] == COLON && x[2] == BACKSLASH;
  }

  /** An absolute name whose first candidate is accepted and present resolves to it. */
  lemma LocatedAnswer(input: Input, disk: Disk, candidates: seq<Bytes>)
    requires Searches(input, [[]], candidates) && input.windows && candidates != []
    requires IsAbsoluteName(candidates[0], true) && disk(candidates[0]).Present?
    ensures Answer(input, disk) == Ok(candidates[0])
  {
    hide Searches, IsAbsoluteName;
    assert ProbeOf(input, disk, [], candidates[0]) == Found(candidates[0]);
    assert IsFirst(input, disk, [[]], candidates, 0, 0);
    SearchIsFirstMatch(input, disk, [[]], candidates);
  }

  // What the answer depends on -----------------------------------------------------------------

  lemma {:induction false} ProbesIgnore(a: Input, b: Input, disk: Disk, dirs: seq<Bytes>, candidates: seq<Bytes>)
    requires forall d, c :: ProbeOf(a, disk, d, c) == ProbeOf(b, disk, d, c)
    ensures Probes(a, disk, dirs, candidates) == Probes(b, disk, dirs, candidates)
  {
    hide ProbeOf;
    if dirs != [] {
      RowIgnores(a, b, disk, dirs[0], candidates);
      ProbesIgnore(a, b, disk, dirs[1..], candidates);
    }
  }

  lemma {:induction false} RowIgnores(a: Input, b: Input, disk: Disk, dir: Bytes, candidates: seq<Bytes>)
    requires forall d, c :: ProbeOf(a, disk, d, c) == ProbeOf(b, disk, d, c)
    ensures Row(a, disk, dir, candidates) == Row(b, disk, dir, candidates)
  {
    hide ProbeOf;
    if candidates != [] {
      RowIgnores(a, b, disk, dir, candidates[1..]);
    }
  }

  lemma {:induction false} SettleIgnores(a: Input, b: Input, probes: seq<Probe>)
    requires a.loadableOnly == b.loadableOnly
    ensures Settle(a, probes) == Settle(b, probes)
  {
    if probes != [] {
      SettleIgnores(a, b, probes[1..]);
    }
  }

  /** Two inputs that differ only in the places read for directories. */
  ghost predicate SameButPlaces(a: Input, b: Input) {
    && a.program == b.program && a.windows == b.windows && a.loadableOnly == b.loadableOnly && a.mainSep == b.mainSep
    && a.hostAbsolute == b.hostAbsolute && a.appendVerbatim == b.appendVerbatim && a.normalise == b.normalise
  }

  lemma SameProbe(a: Input, b: Input, disk: Disk, dir: Bytes, candidate: Bytes)
    requires SameButPlaces(a, b)
    ensures ProbeOf(a, disk, dir, candidate) == ProbeOf(b, disk, dir, candidate)
  {
    hide TypeOf, DriveLen, PrefixLen, Classify, IsVerbatim, IsAbsoluteName, NamesNoFile;
  }

  lemma SamePlacesSameAnswer(a: Input, b: Input, disk: Disk)
    requires SameButPlaces(a, b) && Contract(a) && Contract(b)
    requires Dirs(a) == Dirs(b) && ShapeRefusal(a) == ShapeRefusal(b)
    ensures Answer(a, disk) == Answer(b, disk)
  {
    hide Contract, ShapeRefusal, Dirs, ProbeOf, Settle, FilenameCandidates, Classify;
    assert Candidates(a) == Candidates(b);
    forall d, c ensures ProbeOf(a, disk, d, c) == ProbeOf(b, disk, d, c) { SameProbe(a, b, disk, d, c); }
    match Dirs(a)
    case None =>
    case Some(dirs) =>
      ProbesIgnore(a, b, disk, dirs, Candidates(a));
      SettleIgnores(a, b, Probes(a, disk, dirs, Candidates(a)));
  }

  /** A name that needs no base is resolved without reading the cwd, the child's or this process's. */
  lemma NoBaseNoCwd(input: Input, disk: Disk, cwd: Option<Bytes>, processCwd: Option<Bytes>)
    requires !NeedsBase(input.program, input.windows)
    requires Contract(input) && Contract(input.(cwd := cwd, processCwd := processCwd))
    ensures Answer(input, disk) == Answer(input.(cwd := cwd, processCwd := processCwd), disk)
  {
    var other := input.(cwd := cwd, processCwd := processCwd);
    BareIsRelative(input.program);
    hide TypeOf, Classify, FilenameCandidates, IsAbsoluteName, NamesNoFile;
    hide IsDriveRelative, IsUncWithoutShare, Settle, Probes, Accepted;
    assert Candidates(input) == Candidates(other);
    assert Dirs(input) == Dirs(other);
    hide Candidates, Dirs;
    SamePlacesSameAnswer(input, other, disk);
  }

  /** No refusal on shape reads `PATH` or queries the system directories, nor does a located name's directory. */
  lemma ShapeIgnoresPath(input: Input, pathVar: Option<Bytes>, systemDirs: Option<seq<Bytes>>)
    requires Contract(input)
    ensures var other := input.(pathVar := pathVar, systemDirs := systemDirs);
            && Contract(other) && ShapeOf(other) == ShapeOf(input) && ShapeRefusal(other) == ShapeRefusal(input)
            && (ShapeOf(input).Located? ==> Dirs(other) == Dirs(input))
  {
    var other := input.(pathVar := pathVar, systemDirs := systemDirs);
    hide TypeOf, Classify, FilenameCandidates, IsAbsoluteName, NamesNoFile;
    hide IsDriveRelative, IsUncWithoutShare, NeedsBase, Loadable;
    assert Candidates(input) == Candidates(other);
  }

  /** A located name is resolved without reading `PATH` or querying the system directories. */
  lemma LocatedNoSearch(input: Input, disk: Disk, pathVar: Option<Bytes>, systemDirs: Option<seq<Bytes>>)
    requires ShapeOf(input).Located? && Contract(input)
    ensures Contract(input.(pathVar := pathVar, systemDirs := systemDirs))
    ensures Answer(input, disk) == Answer(input.(pathVar := pathVar, systemDirs := systemDirs), disk)
  {
    hide Candidates, Dirs, ShapeRefusal, Contract, Answer;
    ShapeIgnoresPath(input, pathVar, systemDirs);
    SamePlacesSameAnswer(input, input.(pathVar := pathVar, systemDirs := systemDirs), disk);
  }

  /** So is, then, every name that needs a base. */
  lemma BaseNoSearch(input: Input, disk: Disk, pathVar: Option<Bytes>, systemDirs: Option<seq<Bytes>>)
    requires NeedsBase(input.program, input.windows) && Contract(input)
    ensures Answer(input, disk) == Answer(input.(pathVar := pathVar, systemDirs := systemDirs), disk)
  {
    hide Answer, Contract, Classify, TypeOf, IsAbsoluteName;
    LocatedNoSearch(input, disk, pathVar, systemDirs);
  }
}
