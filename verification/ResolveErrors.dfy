/**
 Which error kind `resolve` reports (src/resolve.rs:47-63). The rule is that a string is refused exactly
 when no disk could make it succeed. On every base the lemmas say when a refusal is one of the string's
 shape, and when some disk helps. On a plain base the rule holds of every located name but one class:
 verbatim UNC names whose share is set off by `/`, where the host does not call them absolute either.
 */
module ResolveErrors {
  import opened Wrappers
  import opened WindowsNames
  import opened PathVar
  import opened Resolve
  import opened ResolveTheorems

  // Every base -------------------------------------------------------------------------------------

  /** On no disk does the search end before `(i, j)`, unless with an answer. */
  ghost predicate OpenBefore(input: Input, dirs: seq<Bytes>, candidates: seq<Bytes>, i: int, j: int) {
    forall a, b | 0 <= a < |dirs| && 0 <= b < |candidates| && Earlier(a, b, i, j) ::
      !Barred(input, dirs[a], candidates[b]) && !(input.loadableOnly && Incomplete(input, dirs[a], candidates[b]))
  }

  lemma ClearIsOpen(input: Input, disk: Disk, dirs: seq<Bytes>, candidates: seq<Bytes>, i: int, j: int)
    requires ClearBefore(input, disk, dirs, candidates, i, j)
    ensures OpenBefore(input, dirs, candidates, i, j)
  {
    hide Barred, Incomplete, Usable, Completed;
    forall a, b | 0 <= a < |dirs| && 0 <= b < |candidates| && Earlier(a, b, i, j)
      ensures !Barred(input, dirs[a], candidates[b])
      ensures !(input.loadableOnly && Incomplete(input, dirs[a], candidates[b]))
    {
      assert !Stops(input, disk, dirs[a], candidates[b]);
    }
  }

  /** On an empty disk the search ends only where it must. */
  lemma OpenIsClearWhenEmpty(input: Input, empty: Disk, dirs: seq<Bytes>, candidates: seq<Bytes>, i: int, j: int)
    requires OpenBefore(input, dirs, candidates, i, j) && forall path :: empty(path).Absent?
    ensures ClearBefore(input, empty, dirs, candidates, i, j)
  {
    hide Barred, Incomplete, Completed;
    forall a, b | 0 <= a < |dirs| && 0 <= b < |candidates| && Earlier(a, b, i, j)
      ensures !Stops(input, empty, dirs[a], candidates[b])
    {
      assert !Barred(input, dirs[a], candidates[b]);
    }
  }

  /** Some pair that can be reached completes to a path that names no file. */
  ghost predicate CompletionRefuses(input: Input)
    requires Contract(input)
  {
    && ShapeRefusal(input).None? && Dirs(input).Some?
    && var dirs, candidates := Dirs(input).value, Candidates(input);
       exists i, j :: 0 <= i < |dirs| && 0 <= j < |candidates| && Barred(input, dirs[i], candidates[j])
                   && OpenBefore(input, dirs, candidates, i, j)
  }

  /** A search is refused exactly if a pair completes to no file before any other ends it. */
  lemma SearchRefused(input: Input, disk: Disk, dirs: seq<Bytes>, candidates: seq<Bytes>)
    requires Searches(input, dirs, candidates)
    ensures Answer(input, disk).Refused? <==> FirstBarred(input, disk, dirs, candidates)
    ensures !Answer(input, disk).QueryFailed?
  {
    hide Answer, Searches, FirstBarred, FirstHit, FirstUnsure, Stops;
    if input.loadableOnly {
      LoadableSearch(input, disk, dirs, candidates);
    } else {
      OrdinarySearch(input, disk, dirs, candidates);
    }
  }

  /**
   On every base: the refusals are those on the shape of the string, whatever is on the disk, if and only if
   no reachable pair completes to a path that names no file.
   */
  lemma RefusedOnShape(input: Input)
    requires Contract(input)
    ensures (forall disk: Disk :: Answer(input, disk).Refused? <==> ShapeRefusal(input).Some?) <==>
              !CompletionRefuses(input)
  {
    hide ShapeRefusal, Dirs, Candidates, Contract, Settle, Probes, Barred, OpenBefore, ClearBefore;
    if ShapeRefusal(input).None? && Dirs(input).Some? {
      var dirs, candidates := Dirs(input).value, Candidates(input);
      forall disk: Disk
        ensures Answer(input, disk).Refused? ==> CompletionRefuses(input)
      {
        SearchRefused(input, disk, dirs, candidates);
        if Answer(input, disk).Refused? {
          var i, j :| 0 <= i < |dirs| && 0 <= j < |candidates| && Barred(input, dirs[i], candidates[j])
                   && ClearBefore(input, disk, dirs, candidates, i, j);
          ClearIsOpen(input, disk, dirs, candidates, i, j);
        }
      }
      if CompletionRefuses(input) {
        var empty: Disk := path => Absent;
        var i, j :| 0 <= i < |dirs| && 0 <= j < |candidates| && Barred(input, dirs[i], candidates[j])
                 && OpenBefore(input, dirs, candidates, i, j);
        OpenIsClearWhenEmpty(input, empty, dirs, candidates, i, j);
        SearchRefused(input, empty, dirs, candidates);
        assert FirstBarred(input, empty, dirs, candidates);
        assert Answer(input, empty).Refused?;
      }
    }
  }

  /** Only a located name on a verbatim base can be refused by its completion. */
  lemma PlainNeverRefuses(input: Input)
    requires Contract(input) && (PlainBase(input) || ShapeOf(input).BareName?)
    ensures !CompletionRefuses(input)
  {
    hide ShapeRefusal, Candidates, OpenBefore, NamesNoFile, Accepted, Classify, NeedsBase;
    if CompletionRefuses(input) && PlainBase(input) {
      var dirs, candidates := Dirs(input).value, Candidates(input);
      var i, j :| 0 <= i < |dirs| && 0 <= j < |candidates| && Barred(input, dirs[i], candidates[j])
               && OpenBefore(input, dirs, candidates, i, j);
      PlainPair(input, dirs, candidates, i, j);
    }
  }

  /** On every base, being refused is the same for every `PATH` and every answer about system directories. */
  lemma RefusalIgnoresPath(input: Input, disk: Disk, pathVar: Option<Bytes>, systemDirs: Option<seq<Bytes>>)
    requires Contract(input)
    ensures Contract(input.(pathVar := pathVar, systemDirs := systemDirs))
    ensures Answer(input, disk).Refused? <==>
              Answer(input.(pathVar := pathVar, systemDirs := systemDirs), disk).Refused?
  {
    hide Answer, Contract, ShapeRefusal, Classify, CompletionRefuses;
    var other := input.(pathVar := pathVar, systemDirs := systemDirs);
    ShapeIgnoresPath(input, pathVar, systemDirs);
    if ShapeOf(input).Located? {
      LocatedNoSearch(input, disk, pathVar, systemDirs);
    } else {
      PlainNeverRefuses(input);
      PlainNeverRefuses(other);
      RefusedOnShape(input);
      RefusedOnShape(other);
    }
  }

  /**
   Every answer is on the disk, and is an accepted path or what Win32 completes one to; on a plain base it is
   accepted.
   */
  lemma AnswerIsAccepted(input: Input, disk: Disk)
    requires Contract(input) && Answer(input, disk).Ok?
    ensures disk(Answer(input, disk).path).Present?
    ensures Accepted(input, Answer(input, disk).path) ||
              exists joined :: Accepted(input, joined) && input.normalise(joined) == Some(Answer(input, disk).path)
    ensures PlainBase(input) ==> Accepted(input, Answer(input, disk).path)
  {
    hide ShapeRefusal, Dirs, Candidates, Contract, Settle, Probes, Accepted, NamesNoFile, ClearBefore, PlainBase;
    var dirs, candidates, path := Dirs(input).value, Candidates(input), Answer(input, disk).path;
    SearchEnds(input, disk, dirs, candidates);
    var i, j :| 0 <= i < |dirs| && 0 <= j < |candidates| && Stops(input, disk, dirs[i], candidates[j])
             && ClearBefore(input, disk, dirs, candidates, i, j);
    hide PathOf, MadeVerbatim;
    var joined := PathOf(input, dirs[i], candidates[j]);
    assert Accepted(input, joined) && (path == joined || input.normalise(joined) == Some(path));
    if PlainBase(input) {
      PlainPair(input, dirs, candidates, i, j);
    }
  }

  // Success on some disk -------------------------------------------------------------------------

  ghost predicate CanSucceed(input: Input)
    requires Contract(input)
  {
    exists disk: Disk :: Answer(input, disk).Ok?
  }

  /** Some pair can be reached and used. */
  ghost predicate SomeUsable(input: Input, dirs: seq<Bytes>, candidates: seq<Bytes>) {
    exists i, j :: 0 <= i < |dirs| && 0 <= j < |candidates| && Usable(input, dirs[i], candidates[j])
                && OpenBefore(input, dirs, candidates, i, j)
  }

  /** On every base some disk makes a search succeed exactly when some pair can be reached and used. */
  lemma SearchCanSucceed(input: Input, dirs: seq<Bytes>, candidates: seq<Bytes>)
    requires Searches(input, dirs, candidates)
    ensures CanSucceed(input) <==> SomeUsable(input, dirs, candidates)
  {
    assert Contract(input);
    hide Searches, Answer, Usable, Contract, Barred, ClearBefore, OpenBefore, Unsure, Completed;
    forall disk: Disk | Answer(input, disk).Ok?
      ensures SomeUsable(input, dirs, candidates)
    {
      SearchEnds(input, disk, dirs, candidates);
      var i, j :| 0 <= i < |dirs| && 0 <= j < |candidates| && Stops(input, disk, dirs[i], candidates[j])
               && ClearBefore(input, disk, dirs, candidates, i, j);
      ClearIsOpen(input, disk, dirs, candidates, i, j);
    }
    if SomeUsable(input, dirs, candidates) {
      var full: Disk := path => Present;
      FullDiskAnswers(input, dirs, candidates, full);
      assert Answer(input, full).Ok?;
    }
  }

  /**
   So, for every name and every base, some disk helps exactly if nothing is refused on shape, no query fails
   and some pair can be reached and used.
   */
  lemma CanSucceedExactly(input: Input)
    requires Contract(input)
    ensures CanSucceed(input) <==>
              && ShapeRefusal(input).None? && Dirs(input).Some?
              && SomeUsable(input, Dirs(input).value, Candidates(input))
  {
    hide ShapeRefusal, Dirs, Candidates, Contract, SomeUsable, Settle;
    if ShapeRefusal(input).None? && Dirs(input).Some? {
      SearchCanSucceed(input, Dirs(input).value, Candidates(input));
    }
  }

  lemma FullDiskAnswers(input: Input, dirs: seq<Bytes>, candidates: seq<Bytes>, full: Disk)
    requires Searches(input, dirs, candidates) && SomeUsable(input, dirs, candidates)
    requires forall path :: full(path).Present?
    ensures Answer(input, full).Ok?
  {
    hide Searches, Answer, Barred, Incomplete, Completed;
    SearchEnds(input, full, dirs, candidates);
    var i, j :| 0 <= i < |dirs| && 0 <= j < |candidates| && Usable(input, dirs[i], candidates[j])
             && OpenBefore(input, dirs, candidates, i, j);
    assert Stops(input, full, dirs[i], candidates[j]);
    var a, b :| 0 <= a < |dirs| && 0 <= b < |candidates| && Stops(input, full, dirs[a], candidates[b])
             && ClearBefore(input, full, dirs, candidates, a, b);
    assert !Earlier(i, j, a, b);
    OnePairMeaning(input, full, dirs[a], candidates[b]);
    assert (a == i && b == j) || Earlier(a, b, i, j);
    hide ClearBefore;
    assert Hit(input, full, dirs[a], candidates[b]);
  }

  // Located names --------------------------------------------------------------------------------

  /** Growing a fully qualified name that is not verbatim, past its prefix, keeps it fully qualified. */
  lemma GrownIsAbsolute(base: Bytes, k: nat, rest: Bytes)
    requires IsAbsoluteName(base, true) && !IsVerbatim(base) && PrefixLen(base) <= k <= |base|
    requires TypeOf(base).DriveAbsolute? && k == PrefixLen(base) ==> SepAt(rest, 0)
    ensures IsAbsoluteName(base[..k] + rest, true)
  {
    var grown := base[..k] + rest;
    if TypeOf(base).DriveAbsolute? {
      hide UncPrefixLen, IsVerbatimUncWithoutShare;
      assert DriveLen(grown) == DriveLen(base);
      assert grown[DriveLen(base).value] == if k == PrefixLen(base) then rest[0] else base[DriveLen(base).value];
    } else {
      GrownUnc(base, k, rest);
      NotVerbatimUnc(grown);
      hide UncPrefixLen, IsVerbatimUncWithoutShare;
    }
  }

  lemma GrownUnc(base: Bytes, k: nat, rest: Bytes)
    requires SepAt(base, 0) && SepAt(base, 1) && UncPrefixLen(base) > 0 && !IsVerbatim(base)
    requires UncPrefixLen(base) <= k <= |base|
    ensures var grown := base[..k] + rest;
            SepAt(grown, 0) && SepAt(grown, 1) && !IsVerbatim(grown) && UncPrefixLen(grown) > 0
  {
    var grown := base[..k] + rest;
    hide Component;
    assert forall i | 0 <= i < k :: grown[i] == base[i];
    if base[2] == DOT && IsSep(base[3], true) {
      assert UncPrefixLen(grown) >= 4;
    } else {
      var server := Component(base, 2);
      assert server + 1 < UncPrefixLen(base) && UncPrefixLen(base) == Component(base, server + 1);
      SameComponent(base, grown, 2);
      assert grown[server + 1] == base[server + 1];
      assert Component(grown, server + 1) > server + 1;
    }
  }

  lemma NotVerbatimUnc(s: Bytes)
    ensures IsVerbatimUncWithoutShare(s) ==> IsVerbatim(s)
  {
  }

  lemma SameComponent(s: Bytes, grown: Bytes, at: nat)
    requires at <= |s| && at <= |grown| && Component(s, at) < |s| && Component(s, at) < |grown|
    requires forall i | 0 <= i <= Component(s, at) :: grown[i] == s[i]
    ensures Component(grown, at) == Component(s, at)
  {
    hide Component;
    var c, g := Component(s, at), Component(grown, at);
    assert IsSep(grown[c], true);
  }

  /** So whatever is joined to a fully qualified base that is not verbatim is fully qualified. */
  lemma JoinIsAbsolute(input: Input, base: Bytes, name: Bytes)
    requires IsAbsoluteName(base, true) && !IsVerbatim(base) && IsSep(input.mainSep, true)
    requires TypeOf(name).Rooted? || TypeOf(name).Relative?
    ensures IsAbsoluteName(Join(input, base, name), true)
  {
    hide IsAbsoluteName, PrefixLen, IsVerbatim, EndsInSep;
    assert base[..|base|] == base;
    if TypeOf(name).Rooted? {
      GrownIsAbsolute(base, PrefixLen(base), name);
    } else {
      AbsoluteExceedsDrive(base);
      GrownIsAbsolute(base, |base|, name);
      GrownIsAbsolute(base, |base|, [input.mainSep] + name);
      assert base + [input.mainSep] + name == base + ([input.mainSep] + name);
    }
  }

  lemma AbsoluteExceedsDrive(base: Bytes)
    requires IsAbsoluteName(base, true)
    ensures TypeOf(base).DriveAbsolute? ==> PrefixLen(base) < |base|
  {
  }

  /** A plain suffix does not change whether a name that names a file is fully qualified. */
  lemma AbsoluteOfExtended(s: Bytes, t: Bytes)
    requires !NamesNoFile(s, true) && Plain(t)
    ensures IsAbsoluteName(s + t, true) == IsAbsoluteName(s, true)
  {
    TypeOfExtended(s, t);
    PrefixOfExtended(s, t);
    hide PrefixLen, TypeOf, IsVerbatimUncWithoutShare, NamesNoFile;
    if TypeOf(s).Unc? {
      VerbatimShareOfExtended(s, t);
    }
  }

  lemma VerbatimShareOfExtended(s: Bytes, t: Bytes)
    requires !NamesNoFile(s, true) && Plain(t) && TypeOf(s).Unc?
    ensures IsVerbatimUncWithoutShare(s + t) == IsVerbatimUncWithoutShare(s)
  {
    hide NamesNoFile, BackslashEnd;
    EndsInNoSep(s);
    Extended(s, t);
    assert |s| >= 8 ==> (s + t)[4..7] == s[4..7];
    if IsVerbatimUnc(s) {
      BackslashEndOfExtended(s, t, 8);
      if BackslashEnd(s, 8) < |s| {
        BackslashEndOfExtended(s, t, BackslashEnd(s, 8) + 1);
      }
    }
  }

  lemma BackslashEndOfExtended(s: Bytes, t: Bytes, at: nat)
    requires at <= |s| && Plain(t)
    ensures BackslashEnd(s + t, at) == if BackslashEnd(s, at) < |s| then BackslashEnd(s, at) else |s + t|
  {
    hide BackslashEnd;
    Extended(s, t);
    var c, e := BackslashEnd(s, at), BackslashEnd(s + t, at);
    assert c < |s| ==> (s + t)[c] == BACKSLASH;
  }

  /** The base a located name is completed on is fully qualified. */
  predicate BaseIsAbsolute(input: Input)
    requires Contract(input)
  {
    && Dirs(input).Some? && |Dirs(input).value| == 1
    && (NeedsBase(input.program, input.windows) ==> IsAbsoluteName(Dirs(input).value[0], input.windows))
  }

  /** A verbatim UNC name with no share between backslashes, which the host does not call absolute either. */
  predicate Stranded(input: Input) {
    && input.windows && IsVerbatimUncWithoutShare(input.program)
    && forall k | 0 <= k < |Candidates(input)| :: !input.hostAbsolute(Candidates(input)[k])
  }

  lemma {:induction false} LoadableIsSubset(all: seq<Bytes>, c: Bytes)
    requires c in Loadable(all)
    ensures c in all
  {
    if c in Loadable(all[1..]) {
      LoadableIsSubset(all[1..], c);
    }
  }

  lemma CandidateKeepsType(s: Bytes, c: Bytes)
    requires !NamesNoFile(s, true) && (c == s || c == s + EXE)
    ensures TypeOf(c) == TypeOf(s) && IsAbsoluteName(c, true) == IsAbsoluteName(s, true)
  {
    hide TypeOf, IsAbsoluteName, NamesNoFile;
    TypeOfExtended(s, EXE);
    AbsoluteOfExtended(s, EXE);
  }

  lemma CandidateIsNameOrExe(input: Input, candidate: Bytes)
    requires candidate in Candidates(input)
    ensures candidate == input.program || (input.windows && candidate == input.program + EXE)
  {
    hide HasLoadableExtension, NamesNoFile, TakesTheExeFallback, Classify;
    if input.loadableOnly {
      LoadableIsSubset(FilenameCandidates(input.program, input.windows, ShapeOf(input)), candidate);
    }
  }

  /** Whether the program is a verbatim UNC name with no share between backslashes. */
  predicate LacksShare(input: Input) {
    input.windows && IsVerbatimUncWithoutShare(input.program)
  }

  /** A located candidate joins to a fully qualified path, unless the name lacks a share: then it stands alone. */
  lemma LocatedIsAbsolute(input: Input, candidate: Bytes)
    requires Contract(input) && PlainBase(input) && ShapeRefusal(input).None? && ShapeOf(input).Located?
    requires BaseIsAbsolute(input) && candidate in Candidates(input)
    ensures var joined := JoinCandidate(input, Dirs(input).value[0], candidate);
            && IsAbsoluteName(joined, input.windows) == !LacksShare(input)
            && (LacksShare(input) ==> joined == candidate)
  {
    CandidateIsNameOrExe(input, candidate);
    hide Candidates, NamesNoFile, BackslashEnd;
    if input.windows {
      CandidateKeepsType(input.program, candidate);
      hide PrefixLen, DriveLen, HasSep;
      match TypeOf(input.program)
      case Unc =>
      case DriveAbsolute =>
      case Rooted => JoinIsAbsolute(input, input.cwd.value, candidate);
      case Relative => JoinIsAbsolute(input, input.cwd.value, candidate);
      case DriveRelative =>
    }
  }

  /** An unrefused name has a candidate. */
  lemma SomeCandidate(input: Input)
    requires ShapeRefusal(input).None?
    ensures |Candidates(input)| > 0
  {
    hide NamesNoFile, IsDriveRelative, IsUncWithoutShare, TypeOf, HasLoadableExtension, TakesTheExeFallback, Classify;
  }

  lemma PlainIsOpen(input: Input, dirs: seq<Bytes>, candidates: seq<Bytes>, i: int, j: int)
    requires Searches(input, dirs, candidates) && PlainBase(input)
    ensures OpenBefore(input, dirs, candidates, i, j)
  {
    hide Searches, PlainBase, Barred, Incomplete;
    forall a, b | 0 <= a < |dirs| && 0 <= b < |candidates|
      ensures !Barred(input, dirs[a], candidates[b]) && !Incomplete(input, dirs[a], candidates[b])
    {
      PlainPair(input, dirs, candidates, a, b);
    }
  }

  /**
   The error-kind rule for located names: some disk makes the name succeed exactly when it is not
   refused and not stranded. So every refusal is one no disk could lift, and `NotFound` is one a disk
   could lift, with the stranded names as the only exception.
   */
  lemma ErrorKindLaw(input: Input)
    requires Contract(input) && PlainBase(input) && ShapeOf(input).Located? && BaseIsAbsolute(input)
    ensures CanSucceed(input) <==> ShapeRefusal(input).None? && !Stranded(input)
    ensures forall disk: Disk :: Answer(input, disk).NotFound? ==> (CanSucceed(input) <==> !Stranded(input))
  {
    hide Contract, PlainBase, ShapeOf, ShapeRefusal, Settle, Candidates, JoinCandidate, IsAbsoluteName;
    if ShapeRefusal(input).None? {
      var dirs, candidates := Dirs(input).value, Candidates(input);
      SearchCanSucceed(input, dirs, candidates);
      SomeCandidate(input);
      forall j | 0 <= j < |candidates|
        ensures var joined := JoinCandidate(input, dirs[0], candidates[j]);
                && IsAbsoluteName(joined, input.windows) == !LacksShare(input)
                && (LacksShare(input) ==> joined == candidates[j])
                && (Usable(input, dirs[0], candidates[j]) <==> Accepted(input, joined))
                && OpenBefore(input, dirs, candidates, 0, j)
      {
        LocatedIsAbsolute(input, candidates[j]);
        PlainPair(input, dirs, candidates, 0, j);
        PlainIsOpen(input, dirs, candidates, 0, j);
      }
      hide Dirs, IsVerbatimUncWithoutShare, OpenBefore, Usable;
      if Stranded(input) {
      } else if LacksShare(input) {
        var k :| 0 <= k < |candidates| && input.hostAbsolute(candidates[k]);
        assert Usable(input, dirs[0], candidates[k]);
      } else {
        assert Usable(input, dirs[0], candidates[0]);
      }
    }
  }

  /**
   The exception is real on a host whose own reading of absolute paths rejects the name, as a POSIX host's
   does: the name is not refused, yet is `NotFound` whatever is on the disk. On a host that accepts it, it is
   probed like any other.
   */
  lemma StrandedNameIsNeverFound(input: Input, disk: Disk)
    requires input.windows && Contract(input) && PlainBase(input) && !input.loadableOnly
    requires input.program == StrandedName()
    ensures ShapeRefusal(input).None?
    ensures if input.hostAbsolute(StrandedName()) || input.hostAbsolute(StrandedName() + EXE) then CanSucceed(input)
            else Stranded(input) && Answer(input, disk).NotFound?
  {
    hide Stranded, ShapeRefusal, Contract, Candidates, Dirs, PlainBase, StrandedName, Answer;
    StrandedSearch(input);
    ErrorKindLaw(input);
    SearchEnds(input, disk, [[]], Candidates(input));
    OrdinarySearch(input, disk, [[]], Candidates(input));
    RefusedOnShape(input);
    PlainNeverRefuses(input);
    assert Answer(input, disk).Refused? <==> ShapeRefusal(input).Some?;
  }

  lemma StrandedSearch(input: Input)
    requires input.windows && Contract(input) && PlainBase(input) && !input.loadableOnly
    requires input.program == StrandedName()
    ensures Searches(input, [[]], Candidates(input)) && ShapeOf(input).Located? && BaseIsAbsolute(input)
    ensures Stranded(input) <==> !input.hostAbsolute(StrandedName()) && !input.hostAbsolute(StrandedName() + EXE)
  {
    StrandedShape();
    assert Candidates(input) == [StrandedName(), StrandedName() + EXE];
    hide PrefixLen, Classify, IsVerbatimUncWithoutShare, Candidates, NamesNoFile, StrandedName;
    assert Candidates(input)[0] == StrandedName() && Candidates(input)[1] == StrandedName() + EXE;
  }

  /** `\\?\UNC\s/h/a` */
  function StrandedName(): Bytes {
    [BACKSLASH, BACKSLASH, QUESTION, BACKSLASH, 85, 78, 67, BACKSLASH, 115, SLASH, 104, SLASH, 97]
  }

  lemma StrandedShape()
    ensures var s := StrandedName();
            && TypeOf(s).Unc? && Classify(s, true).Located? && IsVerbatimUncWithoutShare(s)
            && PrefixLen(s) == 11 && FinalComponent(s, true) == [97] && !HasLoadableExtension(s)
  {
    var s := StrandedName();
    assert SepAt(s, 0) && HasSep(s, true);
    assert s[4..7] == [85, 78, 67];
    assert Component(s, 8) == 9;
    assert Component(s, 10) == 11;
    assert BackslashEnd(s, 8) == |s|;
    var rest := s[11..];
    assert rest == [SLASH, 97];
    assert rest[..1] == [SLASH];
    assert AfterLastSep(rest, true) == 1;
  }

  // Bare names -----------------------------------------------------------------------------------

  /** `C:\` */
  const DRIVE_ROOT: Bytes := [67, COLON, BACKSLASH]

  /** The same call where the search looks in one root directory. */
  function InRoot(input: Input): Input {
    if input.windows then input.(pathVar := None, systemDirs := Some([DRIVE_ROOT]))
    else input.(pathVar := Some([SLASH]), systemDirs := None)
  }

  lemma RootIsSearched(input: Input)
    requires Contract(input) && ShapeOf(input).BareName?
    ensures Contract(InRoot(input)) && Dirs(InRoot(input)) == Some([if input.windows then DRIVE_ROOT else [SLASH]])
  {
    var slash: Bytes := [SLASH];
    assert SplitPosix(slash) == [slash] by { OneDirectory(slash); }
    hide Classify, SplitPosix, NeedsBase, IsAbsoluteName;
    var root: seq<Bytes> := [DRIVE_ROOT];
    assert root + [] == root;
  }

  lemma OneDirectory(s: Bytes)
    requires s == [SLASH]
    ensures SplitPosix(s) == [s]
  {
    SplitPosixLosesNothing(s);
    assert s[1..] == [];
    assert SplitPosix([]) == [[]];
  }

  /** Joined to the root, every candidate of a bare name is fully qualified. */
  lemma RootIsUsable(input: Input, candidate: Bytes)
    requires Contract(input) && ShapeOf(input).BareName? && ShapeRefusal(input).None? && candidate in Candidates(input)
    ensures Usable(input, if input.windows then DRIVE_ROOT else [SLASH], candidate)
  {
    CandidateIsNameOrExe(input, candidate);
    if input.windows {
      BareIsRelative(input.program);
      CandidateKeepsType(input.program, candidate);
      assert DriveLen(DRIVE_ROOT) == Some(2) && TypeOf(DRIVE_ROOT).DriveAbsolute?;
      hide TypeOf, Classify, NamesNoFile, Candidates, DriveLen;
      JoinIsAbsolute(input, DRIVE_ROOT, candidate);
    } else {
      hide TypeOf, NamesNoFile, Candidates;
    }
  }

  /**
   The error-kind rule for bare names, in either grammar and for either search: some `PATH`, answer about
   system directories and disk make the name succeed exactly when it is not refused.
   */
  lemma BareNameLaw(input: Input)
    requires Contract(input) && ShapeOf(input).BareName?
    ensures (exists pathVar, systemDirs :: Contract(input.(pathVar := pathVar, systemDirs := systemDirs)) &&
                                           CanSucceed(input.(pathVar := pathVar, systemDirs := systemDirs))) <==>
              ShapeRefusal(input).None?
  {
    hide Contract, ShapeRefusal, Classify, CanSucceed;
    forall pathVar, systemDirs | Contract(input.(pathVar := pathVar, systemDirs := systemDirs))
                              && CanSucceed(input.(pathVar := pathVar, systemDirs := systemDirs))
      ensures ShapeRefusal(input).None?
    {
      ShapeIgnoresPath(input, pathVar, systemDirs);
      RefusedNeverSucceeds(input.(pathVar := pathVar, systemDirs := systemDirs));
    }
    if ShapeRefusal(input).None? {
      var root := InRoot(input);
      ShapeIgnoresPath(input, root.pathVar, root.systemDirs);
      assert root == input.(pathVar := root.pathVar, systemDirs := root.systemDirs);
      RootSucceeds(root);
    }
  }

  lemma RefusedNeverSucceeds(input: Input)
    requires Contract(input) && CanSucceed(input)
    ensures ShapeRefusal(input).None?
  {
    hide ShapeRefusal, Contract;
  }

  lemma RootSucceeds(input: Input)
    requires Contract(input) && ShapeOf(input).BareName? && ShapeRefusal(input).None? && InRoot(input) == input
    ensures CanSucceed(input)
  {
    hide Contract, ShapeRefusal, Classify, CanSucceed, Candidates, Usable;
    var dirs: seq<Bytes>, candidates := [if input.windows then DRIVE_ROOT else [SLASH]], Candidates(input);
    RootIsSearched(input);
    SomeCandidate(input);
    RootIsUsable(input, candidates[0]);
    assert OpenBefore(input, dirs, candidates, 0, 0);
    assert Usable(input, dirs[0], candidates[0]);
    SearchCanSucceed(input, dirs, candidates);
  }

  // A refusal inside the search --------------------------------------------------------------------

  /** `\\?\UNC\s\h` */
  const SHARE: Bytes := [BACKSLASH, BACKSLASH, QUESTION, BACKSLASH, 85, 78, 67, BACKSLASH, 115, BACKSLASH, 104]

  /** `..\t.exe` */
  const ABOVE: Bytes := [DOT, DOT, BACKSLASH, 116] + EXE

  /** `\\?\UNC\s\t.exe`, what Win32 completes the name to on that share. */
  const SHARE_ROOT: Bytes := SHARE[..10] + [116] + EXE

  lemma AboveShape()
    ensures TypeOf(ABOVE).Relative? && Classify(ABOVE, true).Located? && !NamesNoFile(ABOVE, true)
    ensures HasLoadableExtension(ABOVE) && !IsVerbatim(ABOVE)
  {
    assert ABOVE[0] == DOT && ABOVE[1] == DOT && ABOVE[2] == BACKSLASH;
    assert SepAt(ABOVE, 2) && HasSep(ABOVE, true);
    assert ABOVE[4..] == EXE;
    var k := AfterLastSep(ABOVE, true);
    assert k == 3 by { assert forall i | 3 <= i < 8 :: !IsSep(ABOVE[i], true); }
    assert ABOVE[0..] == ABOVE && FinalComponent(ABOVE, true) == ABOVE[3..];
  }

  lemma ShareShape()
    ensures IsVerbatim(SHARE) && IsAbsoluteName(Concat(SHARE, ABOVE), true) && NamesNoFile(SHARE_ROOT, true)
  {
    var up, root := Concat(SHARE, ABOVE), SHARE_ROOT;
    assert up == SHARE + [BACKSLASH] + ABOVE;
    assert forall i | 0 <= i < 11 :: up[i] == SHARE[i];
    assert up[4..7] == [85, 78, 67];
    assert BackslashEnd(up, 8) == 9;
    assert up[10] == 104 && BackslashEnd(up, 10) > 10;
    assert PrefixLen(up) > 0;
    assert forall i | 0 <= i < 10 :: root[i] == SHARE[i];
    assert root[4..7] == [85, 78, 67];
    assert Component(root, 8) == 9;
    assert Component(root, 10) == |root|;
  }

  /**
   The failing side of `RefusedOnShape` is not empty: on a verbatim share this name is not refused on its
   shape, yet is refused whatever is on the disk, once Win32 has completed it to a share root.
   */
  lemma CompletionCanRefuse(input: Input, disk: Disk)
    requires input.windows && Contract(input) && input.cwd == Some(SHARE) && input.program == ABOVE
    requires input.normalise(Concat(SHARE, ABOVE)) == Some(SHARE_ROOT)
    ensures ShapeRefusal(input).None? && CompletionRefuses(input)
    ensures Answer(input, disk) == Refused(CompletesToNoFile)
  {
    AboveShape();
    ShareShape();
    hide TypeOf, Classify, NamesNoFile, HasLoadableExtension, IsVerbatim, IsAbsoluteName, PrefixLen, Settle, Probes;
    hide CompletionRefuses;
    assert Candidates(input) == [ABOVE] by { OnlyCandidate(input); }
    OneProbe(input, disk, SHARE, ABOVE);
    RefusedOnShape(input);
    assert ShapeRefusal(input).None?;
    assert Answer(input, disk).Refused?;
  }

  lemma OnlyCandidate(input: Input)
    requires input.windows && input.program == ABOVE && HasLoadableExtension(ABOVE)
    ensures Candidates(input) == [ABOVE]
  {
    hide HasLoadableExtension, Classify;
    var one: seq<Bytes>, none: seq<Bytes> := [ABOVE], [];
    assert one[1..] == none && Loadable(none) == none;
    assert Loadable(one) == one + Loadable(one[1..]);
  }
}
