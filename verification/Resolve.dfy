/**
 The executable resolver of src/resolve.rs and the joins it uses from src/resolve/join.rs. Paths are
 bytes; the disk is a function to `Presence`; the host's `Path::is_absolute`, the rebuilding of a
 verbatim path and Win32's own completion are functions the model knows nothing about.
 */
module Resolve {
  import opened Wrappers
  import opened WindowsNames
  import opened PathVar

  datatype Presence = Present | Absent | Undeterminable

  type Disk = Bytes -> Presence

  datatype Reason = NoFile | DriveRelativeName | NoShare | RootedOnVerbatim | Unloadable | CompletesToNoFile

  datatype Outcome =
    | Ok(path: Bytes)
    | Refused(reason: Reason)
    | NotFound
    | CouldNotTell(path: Bytes)
    | QueryFailed

  /** Everything the policy reads, apart from the disk. */
  datatype Input = Input(
    program: Bytes,
    cwd: Option<Bytes>,
    systemDirs: Option<seq<Bytes>>,         // `None`: the query fails
    pathVar: Option<Bytes>,
    windows: bool,
    loadableOnly: bool,
    processCwd: Option<Bytes>,              // `None`: it cannot be read
    mainSep: Byte,
    hostAbsolute: Bytes -> bool,
    appendVerbatim: (Bytes, Bytes) -> Bytes,
    normalise: Bytes -> Option<Bytes>)      // `None`: the completion fails

  // Joining ----------------------------------------------------------------------------------

  predicate EndsInSep(s: Bytes) {
    s != [] && IsSep(s[|s| - 1], true)
  }

  /** `join::append`. */
  function Append(input: Input, base: Bytes, rest: Bytes): Bytes {
    if rest == [] then base
    else if IsVerbatim(base) then input.appendVerbatim(base, rest)
    else if base != [] && !EndsInSep(base) && DriveLen(base) != Some(|base|) then base + [input.mainSep] + rest
    else base + rest
  }

  /** `join::concat` with a backslash. */
  function Concat(base: Bytes, rest: Bytes): Bytes {
    if EndsInSep(base) then base + rest else base + [BACKSLASH] + rest
  }

  /** `join::join`. */
  function Join(input: Input, base: Bytes, name: Bytes): Bytes {
    match TypeOf(name)
    case Rooted => if IsVerbatim(base) then input.appendVerbatim(base, name) else base[..PrefixLen(base)] + name
    case Relative => Append(input, base, name)
    case _ => name
  }

  /** `PathBuf::join` on a POSIX host. */
  function PosixJoin(base: Bytes, name: Bytes): Bytes {
    if name != [] && name[0] == SLASH then name
    else if base == [] || base[|base| - 1] == SLASH then base + name
    else base + [SLASH] + name
  }

  function JoinCandidate(input: Input, dir: Bytes, candidate: Bytes): Bytes {
    if !input.windows then PosixJoin(dir, candidate)
    else if dir == [] then candidate
    else Join(input, dir, candidate)
  }

  predicate Accepted(input: Input, path: Bytes) {
    input.hostAbsolute(path) || IsAbsoluteName(path, input.windows)
  }

  // The policy -------------------------------------------------------------------------------

  function ShapeOf(input: Input): Shape {
    Classify(input.program, input.windows)
  }

  /** What the source demands of its callers; it panics otherwise. */
  predicate Contract(input: Input) {
    && (NeedsBase(input.program, input.windows) ==> input.cwd.Some?)
    && (input.windows && input.cwd.Some? ==> Accepted(input, input.cwd.value))
    && (input.loadableOnly ==> input.windows)
    && IsSep(input.mainSep, true)
  }

  function Candidates(input: Input): seq<Bytes> {
    var all := FilenameCandidates(input.program, input.windows, ShapeOf(input));
    if input.loadableOnly then Loadable(all) else all
  }

  function Loadable(candidates: seq<Bytes>): seq<Bytes> {
    if candidates == [] then []
    else (if HasLoadableExtension(candidates[0]) then [candidates[0]] else []) + Loadable(candidates[1..])
  }

  /** Refused on its shape, before any search. */
  function ShapeRefusal(input: Input): Option<Reason> {
    var name := input.program;
    if NamesNoFile(name, input.windows) then Some(NoFile)
    else if IsDriveRelative(name, input.windows) then Some(DriveRelativeName)
    else if IsUncWithoutShare(name, input.windows) then Some(NoShare)
    else if input.windows && TypeOf(name).Rooted? && input.cwd.Some? && IsVerbatim(input.cwd.value)
    then Some(RootedOnVerbatim)
    else if input.loadableOnly && Candidates(input) == [] then Some(Unloadable)
    else None
  }

  function SplitPathVar(input: Input): seq<Bytes> {
    match input.pathVar
    case None => []
    case Some(v) => if input.windows then Parts(v, 0) else SplitPosix(v)
  }

  /** The directories searched, or `None` if a query fails. */
  function Dirs(input: Input): Option<seq<Bytes>>
    requires Contract(input)
  {
    if ShapeOf(input).BareName? then
      if !input.windows then Some(SplitPathVar(input))
      else match input.systemDirs
        case None => None
        case Some(dirs) => Some(dirs + SplitPathVar(input))
    else if !NeedsBase(input.program, input.windows) then Some([[]])
    else if Accepted(input, input.cwd.value) then Some([input.cwd.value])
    else match input.processCwd
      case None => None
      case Some(here) => Some([PosixJoin(here, input.cwd.value)])
  }

  /** What one probe of a candidate in a directory says. */
  datatype Probe = Skip | Miss | Found(path: Bytes) | Unknown(path: Bytes) | Refuse

  /** A located name made verbatim only by its base, which Win32 completes itself. */
  predicate MadeVerbatim(input: Input, dir: Bytes, candidate: Bytes) {
    input.windows && ShapeOf(input).Located? && IsVerbatim(dir) && !IsVerbatim(candidate)
  }

  function PathOf(input: Input, dir: Bytes, candidate: Bytes): Bytes {
    if MadeVerbatim(input, dir, candidate) then Concat(dir, candidate) else JoinCandidate(input, dir, candidate)
  }

  function Ask(disk: Disk, probed: Bytes, joined: Bytes): Probe {
    match disk(probed)
    case Present => Found(probed)
    case Absent => Miss
    case Undeterminable => Unknown(joined)
  }

  function ProbeOf(input: Input, disk: Disk, dir: Bytes, candidate: Bytes): Probe {
    var joined := PathOf(input, dir, candidate);
    if !Accepted(input, joined) then Skip
    else if !MadeVerbatim(input, dir, candidate) then Ask(disk, joined, joined)
    else match input.normalise(joined)
      case None => Unknown(joined)
      case Some(path) => if NamesNoFile(path, true) then Refuse else Ask(disk, path, joined)
  }

  predicate Decides(input: Input, probe: Probe) {
    probe.Found? || probe.Refuse? || (probe.Unknown? && input.loadableOnly)
  }

  function Verdict(input: Input, probe: Probe): Outcome
    requires Decides(input, probe)
  {
    match probe
    case Found(path) => Ok(path)
    case Unknown(path) => CouldNotTell(path)
    case _ => Refused(CompletesToNoFile)
  }

  /** The outcome of a search: the verdict of the first probe that decides. */
  function Settle(input: Input, probes: seq<Probe>): Outcome {
    if probes == [] then NotFound
    else if Decides(input, probes[0]) then Verdict(input, probes[0])
    else Settle(input, probes[1..])
  }

  /** The probes of one directory, and of all directories in order. */
  function Row(input: Input, disk: Disk, dir: Bytes, candidates: seq<Bytes>): seq<Probe> {
    if candidates == [] then []
    else [ProbeOf(input, disk, dir, candidates[0])] + Row(input, disk, dir, candidates[1..])
  }

  function Probes(input: Input, disk: Disk, dirs: seq<Bytes>, candidates: seq<Bytes>): seq<Probe> {
    if dirs == [] then []
    else Row(input, disk, dirs[0], candidates) + Probes(input, disk, dirs[1..], candidates)
  }

  /** `resolve`, as the functions and lemmas of this module speak of it. */
  function Answer(input: Input, disk: Disk): Outcome
    requires Contract(input)
  {
    match ShapeRefusal(input)
    case Some(reason) => Refused(reason)
    case None =>
      match Dirs(input)
      case None => QueryFailed
      case Some(dirs) => Settle(input, Probes(input, disk, dirs, Candidates(input)))
  }

  /** The search, one directory and one candidate at a time. */
  lemma NextDir(input: Input, disk: Disk, dirs: seq<Bytes>, candidates: seq<Bytes>, i: nat)
    requires i < |dirs|
    ensures Probes(input, disk, dirs[i..], candidates) ==
            Row(input, disk, dirs[i], candidates[0..]) + Probes(input, disk, dirs[i + 1..], candidates)
  {
    assert dirs[i..][1..] == dirs[i + 1..] && candidates[0..] == candidates;
  }

  lemma NextCandidate(input: Input, disk: Disk, dir: Bytes, candidates: seq<Bytes>, j: nat, later: seq<Probe>)
    requires j < |candidates|
    ensures var probe := ProbeOf(input, disk, dir, candidates[j]);
            Settle(input, Row(input, disk, dir, candidates[j..]) + later) ==
            if Decides(input, probe) then Verdict(input, probe)
            else Settle(input, Row(input, disk, dir, candidates[j + 1..]) + later)
  {
    hide ProbeOf, Decides, Verdict;
    var probe, row := ProbeOf(input, disk, dir, candidates[j]), Row(input, disk, dir, candidates[j + 1..]);
    assert candidates[j..][1..] == candidates[j + 1..];
    assert ([probe] + row + later)[1..] == row + later;
  }

  lemma NoCandidates(input: Input, disk: Disk, dir: Bytes, none: seq<Bytes>, later: seq<Probe>)
    requires none == []
    ensures Row(input, disk, dir, none) + later == later
  {
  }

  lemma NoDirs(input: Input, disk: Disk, dirs: seq<Bytes>, candidates: seq<Bytes>)
    requires dirs == []
    ensures Settle(input, Probes(input, disk, dirs, candidates)) == NotFound
  {
  }

  /** `resolve`: the refusals, then the nested search with its early returns. */
  method Resolve(input: Input, disk: Disk) returns (outcome: Outcome)
    requires Contract(input)
    ensures outcome == Answer(input, disk)
  {
    hide ProbeOf, Dirs, Candidates, ShapeRefusal, Decides, Verdict, Contract, Settle, Row, Probes;
    var refusal := ShapeRefusal(input);
    if refusal.Some? {
      return Refused(refusal.value);
    }
    var candidates := Candidates(input);
    var found := Dirs(input);
    if found.None? {
      return QueryFailed;
    }
    var dirs := found.value;
    assert dirs[0..] == dirs;
    for i := 0 to |dirs|
      invariant Answer(input, disk) == Settle(input, Probes(input, disk, dirs[i..], candidates))
    {
      ghost var later := Probes(input, disk, dirs[i + 1..], candidates);
      NextDir(input, disk, dirs, candidates, i);
      for j := 0 to |candidates|
        invariant Answer(input, disk) == Settle(input, Row(input, disk, dirs[i], candidates[j..]) + later)
      {
        NextCandidate(input, disk, dirs[i], candidates, j, later);
        var probe := ProbeOf(input, disk, dirs[i], candidates[j]);
        if Decides(input, probe) {
          return Verdict(input, probe);
        }
      }
      NoCandidates(input, disk, dirs[i], candidates[|candidates|..], later);
    }
    NoDirs(input, disk, dirs[|dirs|..], candidates);
    outcome := NotFound;
  }
}
