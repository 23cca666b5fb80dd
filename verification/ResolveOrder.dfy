/**
 Where `resolve` looks, and in which order (src/resolve.rs:968-1006): the system directories before `PATH`,
 the parts of each in order, a located name at its base. Each lemma speaks of whole answers, and of the places
 only as the caller gives them.
 */
module ResolveOrder {
  import opened Wrappers
  import opened WindowsNames
  import opened PathVar
  import opened Resolve
  import opened ResolveTheorems

  // One search after another -------------------------------------------------------------------------

  /** The answer of one search, or if that finds nothing, of another. */
  function Else(first: Outcome, second: Outcome): Outcome {
    if first.NotFound? then second else first
  }

  lemma {:induction false} SettleSplits(input: Input, a: seq<Probe>, b: seq<Probe>)
    ensures Settle(input, a + b) == Else(Settle(input, a), Settle(input, b))
  {
    if a == [] {
      assert a + b == b;
    } else {
      assert (a + b)[1..] == a[1..] + b;
      SettleSplits(input, a[1..], b);
    }
  }

  lemma {:induction false} ProbesSplit(input: Input, disk: Disk, a: seq<Bytes>, b: seq<Bytes>, candidates: seq<Bytes>)
    ensures Probes(input, disk, a + b, candidates) ==
            Probes(input, disk, a, candidates) + Probes(input, disk, b, candidates)
  {
    hide Row;
    if a == [] {
      assert a + b == b;
    } else {
      assert (a + b)[1..] == a[1..] + b;
      ProbesSplit(input, disk, a[1..], b, candidates);
    }
  }

  /** Two calls, one of which looks in the places of the other and then in those of a third. */
  lemma SearchSplits(both: Input, first: Input, second: Input, disk: Disk, a: seq<Bytes>, b: seq<Bytes>)
    requires SameButPlaces(both, first) && SameButPlaces(both, second)
    requires Contract(both) && Contract(first) && Contract(second)
    requires ShapeRefusal(both) == ShapeRefusal(first) && ShapeRefusal(both) == ShapeRefusal(second)
    requires Dirs(both) == Some(a + b) && Dirs(first) == Some(a) && Dirs(second) == Some(b)
    ensures Answer(both, disk) == Else(Answer(first, disk), Answer(second, disk))
  {
    var candidates := Candidates(both);
    assert Candidates(first) == candidates && Candidates(second) == candidates by {
      SameCandidates(both, first);
      SameCandidates(both, second);
    }
    hide Contract, ShapeRefusal, Dirs, Candidates, Settle, Probes, ProbeOf;
    forall d, c
      ensures ProbeOf(first, disk, d, c) == ProbeOf(both, disk, d, c)
      ensures ProbeOf(second, disk, d, c) == ProbeOf(both, disk, d, c)
    {
      SameProbe(first, both, disk, d, c);
      SameProbe(second, both, disk, d, c);
    }
    ProbesIgnore(first, both, disk, a, candidates);
    ProbesIgnore(second, both, disk, b, candidates);
    SettleIgnores(first, both, Probes(both, disk, a, candidates));
    SettleIgnores(second, both, Probes(both, disk, b, candidates));
    ProbesSplit(both, disk, a, b, candidates);
    SettleSplits(both, Probes(both, disk, a, candidates), Probes(both, disk, b, candidates));
  }

  lemma SameCandidates(a: Input, b: Input)
    requires SameButPlaces(a, b)
    ensures Candidates(a) == Candidates(b)
  {
    hide FilenameCandidates, Classify, Loadable;
  }

  // Bare names -----------------------------------------------------------------------------------------

  /**
   For every bare Windows name the system directories come before `PATH`: the answer is the one they give
   alone, and only if they give none the one `PATH` gives alone. So no `PATH` can shadow what they hold.
   */
  lemma SystemDirsComeFirst(input: Input, disk: Disk)
    requires input.windows && Contract(input) && ShapeOf(input).BareName?
    ensures Contract(input.(pathVar := None)) && Contract(input.(systemDirs := Some([])))
    ensures Answer(input, disk) ==
            Else(Answer(input.(pathVar := None), disk), Answer(input.(systemDirs := Some([])), disk))
  {
    var first, second := input.(pathVar := None), input.(systemDirs := Some([]));
    hide Answer, Classify, Contract, ShapeRefusal, Settle, Probes;
    ShapeIgnoresPath(input, None, input.systemDirs);
    ShapeIgnoresPath(input, input.pathVar, Some([]));
    if input.systemDirs.Some? {
      var a, b := input.systemDirs.value, SplitPathVar(input);
      assert a + [] == a && [] + b == b;
      SearchSplits(input, first, second, disk, a, b);
    } else {
      QueryFails(input, disk);
      QueryFails(first, disk);
    }
  }

  lemma QueryFails(input: Input, disk: Disk)
    requires Contract(input) && Dirs(input).None?
    ensures Answer(input, disk) == if ShapeRefusal(input).Some? then Refused(ShapeRefusal(input).value) else QueryFailed
  {
  }

  /** The system directories are searched in the order they are given. */
  lemma SystemDirsInOrder(input: Input, disk: Disk, a: seq<Bytes>, b: seq<Bytes>)
    requires input.windows && Contract(input) && ShapeOf(input).BareName? && input.pathVar.None?
    ensures forall dirs :: Contract(input.(systemDirs := dirs))
    ensures Answer(input.(systemDirs := Some(a + b)), disk) ==
            Else(Answer(input.(systemDirs := Some(a)), disk), Answer(input.(systemDirs := Some(b)), disk))
  {
    hide Answer, Classify, Contract, ShapeRefusal, Settle, Probes;
    forall dirs ensures Contract(input.(systemDirs := dirs)) { ShapeIgnoresPath(input, None, dirs); }
    ShapeIgnoresPath(input, None, Some(a + b));
    ShapeIgnoresPath(input, None, Some(a));
    ShapeIgnoresPath(input, None, Some(b));
    assert a + b + [] == a + b && a + [] == a && b + [] == b;
    var both, first, second := Some(a + b), Some(a), Some(b);
    SearchSplits(input.(systemDirs := both), input.(systemDirs := first), input.(systemDirs := second), disk, a, b);
  }

  /** The separator of `PATH`. */
  function PathSep(windows: bool): Byte {
    if windows then SEMICOLON else COLON
  }

  lemma PathSplits(input: Input, a: Bytes, b: Bytes)
    requires input.windows ==> EvenQuotes(a)
    ensures SplitPathVar(input.(pathVar := Some(a + [PathSep(input.windows)] + b))) ==
            SplitPathVar(input.(pathVar := Some(a))) + SplitPathVar(input.(pathVar := Some(b)))
  {
    hide Parts, SplitPosix;
    if input.windows {
      PartsJoined(a, b, 0);
    } else {
      SplitPosixJoined(a, b);
    }
  }

  /** `PATH` is searched in the order it is written, in either grammar, at every separator outside quotes. */
  lemma PathInOrder(input: Input, disk: Disk, a: Bytes, b: Bytes)
    requires Contract(input) && ShapeOf(input).BareName?
    requires input.windows ==> EvenQuotes(a) && input.systemDirs == Some([])
    ensures forall path :: Contract(input.(pathVar := path))
    ensures Answer(input.(pathVar := Some(a + [PathSep(input.windows)] + b)), disk) ==
            Else(Answer(input.(pathVar := Some(a)), disk), Answer(input.(pathVar := Some(b)), disk))
  {
    hide Answer, Classify, Contract, ShapeRefusal, Settle, Probes, SplitPathVar;
    forall path ensures Contract(input.(pathVar := path)) { ShapeIgnoresPath(input, path, input.systemDirs); }
    var both := Some(a + [PathSep(input.windows)] + b);
    ShapeIgnoresPath(input, both, input.systemDirs);
    ShapeIgnoresPath(input, Some(a), input.systemDirs);
    ShapeIgnoresPath(input, Some(b), input.systemDirs);
    PathSplits(input, a, b);
    var x, y := SplitPathVar(input.(pathVar := Some(a))), SplitPathVar(input.(pathVar := Some(b)));
    assert [] + x == x && [] + y == y && [] + (x + y) == x + y;
    SearchSplits(input.(pathVar := both), input.(pathVar := Some(a)), input.(pathVar := Some(b)), disk, x, y);
  }

  /** What one directory and one name come to. */
  function AtPath(input: Input, disk: Disk, path: Bytes): Outcome {
    if Accepted(input, path) && disk(path).Present? then Ok(path)
    else if Accepted(input, path) && disk(path).Undeterminable? && input.loadableOnly then CouldNotTell(path)
    else NotFound
  }

  /** The one name a bare name is looked for under: on Windows with `.exe` added, unless it ends in that or `.com`. */
  function FileName(input: Input): Bytes {
    if input.windows && !HasLoadableExtension(input.program) then input.program + EXE else input.program
  }

  /** The call looks in one directory. */
  predicate OnePlace(input: Input, dir: Bytes) {
    if input.windows then input.systemDirs == Some([dir]) && input.pathVar.None?
    else input.pathVar == Some(dir) && COLON !in dir
  }

  /** With one directory to look in, a bare name is there under its file name or it is not found. */
  lemma InOneDirectory(input: Input, disk: Disk, dir: Bytes)
    requires Contract(input) && ShapeOf(input).BareName? && ShapeRefusal(input).None? && OnePlace(input, dir)
    ensures Answer(input, disk) == AtPath(input, disk, JoinCandidate(input, dir, FileName(input)))
  {
    assert input.loadableOnly ==> input.windows;
    hide Contract, ShapeRefusal, Dirs, Candidates, Settle, Probes, Classify, FileName, OnePlace, AtPath;
    hide Decides, Verdict, ProbeOf, JoinCandidate;
    OnlyPlace(input, dir);
    OnlyName(input);
    OneProbe(input, disk, dir, FileName(input));
    BareProbe(input, disk, dir, FileName(input));
  }

  lemma BareProbe(input: Input, disk: Disk, dir: Bytes, c: Bytes)
    requires ShapeOf(input).BareName?
    ensures var p := ProbeOf(input, disk, dir, c);
            AtPath(input, disk, JoinCandidate(input, dir, c)) ==
            if Decides(input, p) then Verdict(input, p) else NotFound
  {
    hide Classify, Accepted, JoinCandidate;
  }

  lemma OnlyPlace(input: Input, dir: Bytes)
    requires Contract(input) && ShapeOf(input).BareName? && OnePlace(input, dir)
    ensures Dirs(input) == Some([dir])
  {
    hide Classify, Contract, NeedsBase, SplitPosix;
    var one: seq<Bytes> := [dir];
    assert one + [] == one;
    if !input.windows {
      NoColon(dir);
    }
  }

  lemma {:induction false} NoColon(dir: Bytes)
    requires COLON !in dir
    ensures SplitPosix(dir) == [dir]
  {
    if dir != [] {
      NoColon(dir[1..]);
      assert dir == [dir[0]] + dir[1..];
    }
  }

  lemma OnlyName(input: Input)
    requires ShapeOf(input).BareName? && ShapeRefusal(input).None? && (input.loadableOnly ==> input.windows)
    ensures Candidates(input) == [FileName(input)]
  {
    var s, x := input.program, input.program + EXE;
    assert x[|s|..] == EXE;
    assert HasLoadableExtension(x);
    hide HasLoadableExtension, Classify, NamesNoFile, IsDriveRelative, IsUncWithoutShare, TypeOf;
    var one, none: seq<Bytes> := [FileName(input)], [];
    assert one[1..] == none && Loadable(none) == none;
    assert HasLoadableExtension(one[0]) ==> Loadable(one) == one;
  }

  // Located names --------------------------------------------------------------------------------------

  /** Where a located name is looked for: at the child's cwd, made absolute by this process's, or at itself. */
  function Base(input: Input): Option<Bytes> {
    if !NeedsBase(input.program, input.windows) then Some([])
    else match input.cwd
      case None => None
      case Some(cwd) =>
        if Accepted(input, cwd) then Some(cwd)
        else match input.processCwd
          case None => None
          case Some(here) => Some(PosixJoin(here, cwd))
  }

  /** The outcome at one pair, or if the search does not end there, the one that follows. */
  function AtPair(input: Input, disk: Disk, dir: Bytes, candidate: Bytes, next: Outcome): Outcome {
    if Stops(input, disk, dir, candidate) then Ending(input, disk, dir, candidate) else next
  }

  /**
   An unrefused located name is looked for at its base alone: as written, unless a search for a loadable image
   rules that out, and then with `.exe` added, if it takes the fallback. Without a base to read, the query fails.
   */
  lemma LocatedAtBase(input: Input, disk: Disk)
    requires Contract(input) && ShapeOf(input).Located? && ShapeRefusal(input).None?
    ensures var s, x := input.program, input.program + EXE;
            Answer(input, disk) ==
            match Base(input)
            case None => QueryFailed
            case Some(dir) =>
              if !input.windows || HasLoadableExtension(s) then AtPair(input, disk, dir, s, NotFound)
              else if !TakesTheExeFallback(s, true) then AtPair(input, disk, dir, s, NotFound)
              else if input.loadableOnly then AtPair(input, disk, dir, x, NotFound)
              else AtPair(input, disk, dir, s, AtPair(input, disk, dir, x, NotFound))
  {
    var s, x := input.program, input.program + EXE;
    BaseIsDirs(input);
    LocatedNames(input);
    hide Contract, ShapeRefusal, Dirs, Candidates, Settle, Probes, Classify, HasLoadableExtension, TakesTheExeFallback;
    hide Base, Stops, Ending, Decides, Verdict, ProbeOf;
    match Base(input)
    case None =>
    case Some(dir) =>
      SinglePair(input, disk, dir, s);
      SinglePair(input, disk, dir, x);
      TwoProbes(input, disk, dir, s, x);
      PairEnds(input, disk, dir, s);
  }

  lemma PairEnds(input: Input, disk: Disk, dir: Bytes, c: Bytes)
    ensures var p := ProbeOf(input, disk, dir, c);
            if Stops(input, disk, dir, c) then Decides(input, p) && Verdict(input, p) == Ending(input, disk, dir, c)
            else !Decides(input, p)
  {
    hide ProbeOf, Hit, Barred, Unsure;
    PairMeaning(input, disk, dir, c);
    if Stops(input, disk, dir, c) {
      EndingIsVerdict(input, disk, dir, c);
    }
  }

  lemma SinglePair(input: Input, disk: Disk, dir: Bytes, c: Bytes)
    ensures Settle(input, Probes(input, disk, [dir], [c])) == AtPair(input, disk, dir, c, NotFound)
  {
    hide ProbeOf, Stops, Ending, Settle, Probes, Decides, Verdict;
    OneProbe(input, disk, dir, c);
    PairEnds(input, disk, dir, c);
  }

  lemma BaseIsDirs(input: Input)
    requires Contract(input) && ShapeOf(input).Located?
    ensures Dirs(input) == if Base(input).Some? then Some([Base(input).value]) else None
  {
    hide Classify, NeedsBase, Accepted;
  }

  lemma LocatedNames(input: Input)
    requires Contract(input) && ShapeOf(input).Located? && ShapeRefusal(input).None?
    ensures var s, x := input.program, input.program + EXE;
            Candidates(input) ==
            if !input.windows || HasLoadableExtension(s) then [s]
            else if !TakesTheExeFallback(s, true) then [s]
            else if input.loadableOnly then [x] else [s, x]
  {
    if input.windows {
      LocatedCandidates(input);
      assert input == input.(loadableOnly := input.loadableOnly);
      assert Candidates(input) != [] || !input.loadableOnly;
    }
  }

  // Queries and refusals ---------------------------------------------------------------------------------

  /**
   A query fails exactly if the name is not refused and either it is a bare Windows name and the system
   directories cannot be told, or it is located, its base not absolute, and this process's cwd cannot be read.
   */
  lemma QueryFailsExactly(input: Input, disk: Disk)
    requires Contract(input)
    ensures Answer(input, disk).QueryFailed? <==>
              && ShapeRefusal(input).None?
              && if ShapeOf(input).BareName? then input.windows && input.systemDirs.None? else Base(input).None?
  {
    hide ShapeRefusal, Classify, Accepted, Candidates, NeedsBase;
    if ShapeRefusal(input).None? && Dirs(input).Some? {
      hide Dirs, Contract;
      SearchEnds(input, disk, Dirs(input).value, Candidates(input));
    }
  }

  /** Names that no disk, `PATH` or directory makes acceptable. */
  lemma RefusedNames(input: Input, disk: Disk)
    requires Contract(input)
    requires || NamesNoFile(input.program, input.windows)
             || (input.windows && TypeOf(input.program).DriveRelative?)
             || (input.windows && TypeOf(input.program).Unc? && PrefixLen(input.program) == 0)
             || (input.windows && TypeOf(input.program).Rooted? && input.cwd.Some? && IsVerbatim(input.cwd.value))
    ensures Answer(input, disk).Refused?
  {
    hide NamesNoFile, TypeOf, PrefixLen, IsVerbatim, Candidates, Dirs, Settle, Probes;
  }
}
