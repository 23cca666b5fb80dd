/**
 The naming classifiers of src/resolve.rs, byte by byte: Win32's path types, the prefix parser, the
 final component, and the `.exe` candidate rule. Several of them read the same string; the lemmas say
 on which strings they agree.
 */
module WindowsNames {
  import opened Wrappers

  type Byte = b: int | 0 <= b < 256
  type Bytes = seq<Byte>

  const SLASH: Byte := 47
  const BACKSLASH: Byte := 92
  const COLON: Byte := 58
  const DOT: Byte := 46
  const QUESTION: Byte := 63
  const EXE: Bytes := [46, 101, 120, 101]
  const COM: Bytes := [46, 99, 111, 109]
  const UNC: Bytes := [117, 110, 99]

  predicate IsSep(b: Byte, windows: bool) {
    b == SLASH || (windows && b == BACKSLASH)
  }

  predicate SepAt(s: Bytes, i: nat) {
    i < |s| && IsSep(s[i], true)
  }

  function Lower(b: Byte): Byte {
    if 65 <= b <= 90 then b + 32 else b
  }

  predicate EqIgnoreCase(s: Bytes, lower: Bytes) {
    |s| == |lower| && forall i | 0 <= i < |s| :: Lower(s[i]) == lower[i]
  }

  predicate EndsWith(s: Bytes, lower: Bytes) {
    |s| >= |lower| && EqIgnoreCase(s[|s| - |lower|..], lower)
  }

  // Path types -----------------------------------------------------------------------------

  datatype PathType = Unc | DriveAbsolute | DriveRelative | Rooted | Relative

  /** The length of a drive in bytes, its colon included; a lead byte that stands for two units starts none. */
  function DriveLen(s: Bytes): (r: Option<nat>)
    ensures r.Some? ==> 2 <= r.value <= |s| && s[r.value - 1] == COLON
  {
    if s == [] then None else
      var b := s[0];
      var unit := if b < 0x80 then 1 else if b >= 0xF0 then 0 else if b >= 0xE0 then 3 else if b >= 0xC0 then 2 else 0;
      if unit != 0 && unit < |s| && s[unit] == COLON then Some(unit + 1) else None
  }

  function TypeOf(s: Bytes): PathType {
    if SepAt(s, 0) then (if SepAt(s, 1) then Unc else Rooted)
    else match DriveLen(s)
      case Some(len) => if SepAt(s, len) then DriveAbsolute else DriveRelative
      case None => Relative
  }

  datatype Shape = BareName | Located

  predicate HasSep(s: Bytes, windows: bool) {
    exists i :: 0 <= i < |s| && IsSep(s[i], windows)
  }

  function Classify(s: Bytes, windows: bool): Shape {
    if HasSep(s, windows) || (windows && DriveLen(s).Some?) then Located else BareName
  }

  predicate NeedsBase(s: Bytes, windows: bool) {
    if windows then Classify(s, true).Located? && (TypeOf(s).Rooted? || TypeOf(s).Relative?)
    else Classify(s, false).Located? && !IsAbsoluteName(s, false)
  }

  predicate IsUncWithoutShare(s: Bytes, windows: bool) {
    windows && TypeOf(s).Unc? && PrefixLen(s) == 0
  }

  predicate IsDriveRelative(s: Bytes, windows: bool) {
    windows && TypeOf(s).DriveRelative?
  }

  predicate IsAbsoluteName(s: Bytes, windows: bool) {
    if !windows then s != [] && s[0] == SLASH
    else match TypeOf(s)
      case DriveAbsolute => true
      case Unc => PrefixLen(s) > 0 && !IsVerbatimUncWithoutShare(s)
      case _ => false
  }

  predicate IsVerbatim(s: Bytes) {
    |s| >= 4 && s[0] == BACKSLASH && s[1] == BACKSLASH && s[2] == QUESTION && s[3] == BACKSLASH
  }

  predicate IsVerbatimUnc(s: Bytes) {
    |s| >= 8 && IsVerbatim(s) && EqIgnoreCase(s[4..7], UNC) && s[7] == BACKSLASH
  }

  /** The end of the run of bytes other than `\` from `at`. */
  function BackslashEnd(s: Bytes, at: nat): (end: nat)
    requires at <= |s|
    ensures at <= end <= |s|
    ensures forall i | at <= i < end :: s[i] != BACKSLASH
    ensures end < |s| ==> s[end] == BACKSLASH
    decreases |s| - at
  {
    if at == |s| || s[at] == BACKSLASH then at else BackslashEnd(s, at + 1)
  }

  /** A `\\?\UNC\` prefix whose server or share, split on `\` alone, is missing or empty. */
  predicate IsVerbatimUncWithoutShare(s: Bytes) {
    IsVerbatimUnc(s) &&
    var server := BackslashEnd(s, 8);
    server == 8 || server == |s| || BackslashEnd(s, server + 1) == server + 1
  }

  // The prefix and the final component ---------------------------------------------------------

  /** The first separator at or after `at`, or the length if there is none. */
  function Component(s: Bytes, at: nat): (end: nat)
    requires at <= |s|
    ensures at <= end <= |s|
    ensures forall i | at <= i < end :: !IsSep(s[i], true)
    ensures end < |s| ==> IsSep(s[end], true)
    decreases |s| - at
  {
    if at == |s| || IsSep(s[at], true) then at else Component(s, at + 1)
  }

  predicate HasAsciiDriveAt4(s: Bytes) {
    |s| >= 6 && s[5] == COLON && (65 <= s[4] <= 90 || 97 <= s[4] <= 122)
  }

  /** The length of a prefix that starts with two separators. */
  function UncPrefixLen(s: Bytes): (n: nat)
    requires SepAt(s, 0) && SepAt(s, 1)
    ensures n <= |s|
  {
    if IsVerbatim(s) then
      if IsVerbatimUnc(s) then
        var server := Component(s, 8);
        if server == |s| then |s| else Component(s, server + 1)
      else if HasAsciiDriveAt4(s) && (|s| == 6 || SepAt(s, 6)) then 6
      else Component(s, 4)
    else if |s| >= 4 && s[2] == DOT && IsSep(s[3], true) then Component(s, 4)
    else
      var server := Component(s, 2);
      if server == 2 || server == |s| then 0
      else
        var share := Component(s, server + 1);
        if share == server + 1 then 0 else share
  }

  function PrefixLen(s: Bytes): (n: nat)
    ensures n <= |s|
  {
    if SepAt(s, 0) && SepAt(s, 1) then UncPrefixLen(s)
    else if SepAt(s, 0) then 0
    else match DriveLen(s)
      case Some(len) => len
      case None => 0
  }

  /** The position just after the last separator, or 0. */
  function AfterLastSep(s: Bytes, windows: bool): (k: nat)
    ensures k <= |s|
    ensures forall i | k <= i < |s| :: !IsSep(s[i], windows)
    ensures k > 0 ==> IsSep(s[k - 1], windows)
  {
    if s == [] then 0
    else if IsSep(s[|s| - 1], windows) then |s|
    else AfterLastSep(s[..|s| - 1], windows)
  }

  function FinalComponent(s: Bytes, windows: bool): Bytes {
    var rest := if windows then s[PrefixLen(s)..] else s;
    rest[AfterLastSep(rest, windows)..]
  }

  predicate NamesNoFile(s: Bytes, windows: bool) {
    var c := FinalComponent(s, windows);
    c == [] || c == [DOT] || c == [DOT, DOT]
  }

  // Candidates -----------------------------------------------------------------------------

  predicate HasLoadableExtension(s: Bytes) {
    EndsWith(s, EXE) || EndsWith(s, COM)
  }

  /** The last `.` of the final component, if any, is its first byte. */
  predicate TakesTheExeFallback(s: Bytes, windows: bool) {
    !NamesNoFile(s, windows) &&
    var c := FinalComponent(s, windows);
    forall i | 0 < i < |c| :: c[i] != DOT
  }

  function FilenameCandidates(s: Bytes, windows: bool, shape: Shape): seq<Bytes> {
    if !windows || HasLoadableExtension(s) then [s]
    else match shape
      case BareName => if NamesNoFile(s, windows) then [s] else [s + EXE]
      case Located => if TakesTheExeFallback(s, windows) then [s, s + EXE] else [s]
  }

  // Agreement --------------------------------------------------------------------------------

  /** A bare name is of relative type, and every rooted name needs a base. */
  lemma BareIsRelative(s: Bytes)
    ensures Classify(s, true).BareName? ==> TypeOf(s).Relative?
    ensures TypeOf(s).Rooted? ==> NeedsBase(s, true)
  {
  }

  lemma LocatedUnlessRelative(s: Bytes)
    ensures !TypeOf(s).Relative? ==> Classify(s, true).Located?
  {
  }

  /** The prefix parser takes a share-less verbatim UNC prefix as a prefix all the same. */
  lemma ShareLessPrefix(s: Bytes)
    requires IsVerbatimUncWithoutShare(s)
    ensures PrefixLen(s) >= 8
  {
    hide Component, BackslashEnd;
  }

  /** What a Windows name can be: searched, completed, absolute, or of one of three refused or unusable shapes. */
  function Kinds(s: Bytes): seq<bool> {
    [Classify(s, true).BareName?,
     NeedsBase(s, true),
     IsAbsoluteName(s, true),
     IsDriveRelative(s, true),
     IsUncWithoutShare(s, true),
     TypeOf(s).Unc? && IsVerbatimUncWithoutShare(s)]
  }

  predicate OnlyAt(flags: seq<bool>, k: nat) {
    k < |flags| && flags[k] && forall j | 0 <= j < |flags| && j != k :: !flags[j]
  }

  /** Each Windows name is exactly one of them. */
  lemma ShapesPartition(s: Bytes)
    ensures exists k :: OnlyAt(Kinds(s), k)
  {
    hide DriveLen, PrefixLen, HasSep, Classify, IsVerbatimUncWithoutShare, TypeOf;
    LocatedUnlessRelative(s);
    if IsVerbatimUncWithoutShare(s) {
      ShareLessPrefix(s);
    }
    match TypeOf(s)
    case Unc => assert OnlyAt(Kinds(s), if PrefixLen(s) == 0 then 4 else if IsVerbatimUncWithoutShare(s) then 5 else 2);
    case DriveAbsolute => assert OnlyAt(Kinds(s), 2);
    case DriveRelative => assert OnlyAt(Kinds(s), 3);
    case Rooted => assert OnlyAt(Kinds(s), 1);
    case Relative => assert OnlyAt(Kinds(s), if Classify(s, true).BareName? then 0 else 1);
  }

  predicate Plain(t: Bytes) {
    forall i | 0 <= i < |t| :: !IsSep(t[i], true) && t[i] != COLON
  }

  lemma Extended(s: Bytes, t: Bytes)
    ensures forall i | 0 <= i < |s| :: (s + t)[i] == s[i]
    ensures forall i | |s| <= i < |s + t| :: (s + t)[i] == t[i - |s|]
  {
  }

  lemma ComponentOfExtended(s: Bytes, t: Bytes, at: nat)
    requires at <= |s| && Plain(t)
    ensures Component(s + t, at) == if Component(s, at) < |s| then Component(s, at) else |s + t|
  {
    hide Component;
    Extended(s, t);
    var c, e := Component(s, at), Component(s + t, at);
    assert c < |s| ==> IsSep((s + t)[c], true);
  }

  lemma AfterLastSepOfExtended(s: Bytes, t: Bytes, windows: bool)
    requires Plain(t)
    ensures AfterLastSep(s + t, windows) == AfterLastSep(s, windows)
  {
    hide AfterLastSep;
    Extended(s, t);
    var k, e := AfterLastSep(s, windows), AfterLastSep(s + t, windows);
    assert e > 0 ==> IsSep((s + t)[e - 1], windows);
    assert k > 0 ==> IsSep((s + t)[k - 1], windows);
  }

  lemma DriveLenOfExtended(s: Bytes, t: Bytes)
    requires s != [] && Plain(t)
    ensures DriveLen(s + t) == DriveLen(s)
  {
    Extended(s, t);
  }

  lemma SharePrefixOfExtended(s: Bytes, t: Bytes, at: nat)
    requires at <= |s| && Plain(t) && Component(s, at) < |s| && Component(s, Component(s, at) + 1) < |s|
    ensures Component(s + t, at) == Component(s, at)
    ensures Component(s + t, Component(s, at) + 1) == Component(s, Component(s, at) + 1)
  {
    ComponentOfExtended(s, t, at);
    ComponentOfExtended(s, t, Component(s, at) + 1);
  }

  lemma VerbatimPrefixOfExtended(s: Bytes, t: Bytes)
    requires IsVerbatim(s) && Plain(t) && UncPrefixLen(s) < |s|
    ensures UncPrefixLen(s + t) == UncPrefixLen(s)
  {
    hide Component;
    Extended(s, t);
    if IsVerbatimUnc(s) {
      assert (s + t)[4..7] == s[4..7];
      SharePrefixOfExtended(s, t, 8);
    } else {
      ComponentOfExtended(s, t, 4);
      assert |s| >= 8 ==> (s + t)[4..7] == s[4..7];
    }
  }

  lemma SharedPrefixOfExtended(s: Bytes, t: Bytes)
    requires SepAt(s, 0) && SepAt(s, 1) && |s| > 2 && !IsVerbatim(s) && Plain(t) && UncPrefixLen(s) < |s|
    requires !IsSep(s[|s| - 1], true)
    ensures UncPrefixLen(s + t) == UncPrefixLen(s)
  {
    hide Component;
    Extended(s, t);
    if |s| >= 4 && s[2] == DOT && IsSep(s[3], true) {
      ComponentOfExtended(s, t, 4);
    } else {
      ComponentOfExtended(s, t, 2);
      if Component(s, 2) < |s| {
        ComponentOfExtended(s, t, Component(s, 2) + 1);
      }
    }
  }

  lemma UncPrefixOfExtended(s: Bytes, t: Bytes)
    requires SepAt(s, 0) && SepAt(s, 1) && !NamesNoFile(s, true) && Plain(t)
    ensures UncPrefixLen(s + t) == UncPrefixLen(s)
  {
    EndsInNoSep(s);
    hide Component, AfterLastSep, FinalComponent, UncPrefixLen, NamesNoFile;
    assert UncPrefixLen(s) < |s| by { PrefixLeavesFile(s); }
    if IsVerbatim(s) {
      VerbatimPrefixOfExtended(s, t);
    } else {
      SharedPrefixOfExtended(s, t);
    }
  }

  /** A name that names a file does not end in a separator. */
  lemma EndsInNoSep(s: Bytes)
    requires !NamesNoFile(s, true)
    ensures s != [] && !IsSep(s[|s| - 1], true)
  {
    FinalIsSuffix(s, true);
    var f := FinalComponent(s, true);
    assert f[|f| - 1] == s[|s| - 1];
    hide FinalComponent;
  }

  lemma PrefixLeavesFile(s: Bytes)
    requires !NamesNoFile(s, true)
    ensures PrefixLen(s) < |s|
  {
    hide PrefixLen;
  }

  /** Extending a name that names a file by a plain suffix leaves the parsed prefix as it was. */
  lemma PrefixOfExtended(s: Bytes, t: Bytes)
    requires !NamesNoFile(s, true) && Plain(t)
    ensures PrefixLen(s + t) == PrefixLen(s)
  {
    Extended(s, t);
    assert PrefixLen(s) < |s|;
    if !SepAt(s, 0) {
      DriveLenOfExtended(s, t);
    } else if SepAt(s, 1) {
      UncPrefixOfExtended(s, t);
    } else {
      assert |s| > 1;
    }
  }

  /** Nor does it change the name's type. */
  lemma TypeOfExtended(s: Bytes, t: Bytes)
    requires !NamesNoFile(s, true) && Plain(t)
    ensures TypeOf(s + t) == TypeOf(s)
  {
    hide NamesNoFile, FinalComponent;
    PrefixLeavesFile(s);
    EndsInNoSep(s);
    Extended(s, t);
    DriveLenOfExtended(s, t);
  }

  /**
   Extending a name that names a file by a plain suffix extends its final component and nothing else:
   whatever stands before it, prefix included, is read as it was.
   */
  lemma FinalOfExtended(s: Bytes, t: Bytes)
    requires !NamesNoFile(s, true) && Plain(t)
    ensures FinalComponent(s + t, true) == FinalComponent(s, true) + t
    ensures PrefixLen(s + t) == PrefixLen(s)
  {
    hide PrefixLen, AfterLastSep, NamesNoFile;
    PrefixOfExtended(s, t);
    var p := PrefixLen(s);
    var rest := s[p..];
    assert (s + t)[p..] == rest + t;
    AfterLastSepOfExtended(rest, t, true);
    var k := AfterLastSep(rest, true);
    assert (rest + t)[k..] == rest[k..] + t;
  }

  /** So the `.exe` candidate is a sibling of the name as written: the same bytes up to the final component. */
  lemma ExeCandidateIsSibling(s: Bytes, shape: Shape, c: Bytes)
    requires !NamesNoFile(s, true) && c in FilenameCandidates(s, true, shape)
    ensures PrefixLen(c) == PrefixLen(s) && !NamesNoFile(c, true)
    ensures var f := FinalComponent(s, true);
            && (FinalComponent(c, true) == f || FinalComponent(c, true) == f + EXE)
            && |f| <= |s| && c == s[..|s| - |f|] + FinalComponent(c, true)
  {
    hide FinalComponent, PrefixLen, TakesTheExeFallback, HasLoadableExtension;
    FinalOfExtended(s, EXE);
    FinalIsSuffix(s, true);
    var f := FinalComponent(s, true);
    assert s == s[..|s| - |f|] + f;
    if c != s {
      assert c == s + EXE;
      assert c == s[..|s| - |f|] + (f + EXE);
    }
  }

  lemma FinalIsSuffix(s: Bytes, windows: bool)
    ensures var f := FinalComponent(s, windows);
            |f| <= |s| && f == s[|s| - |f|..] && forall i | 0 <= i < |f| :: !IsSep(f[i], windows)
  {
    hide PrefixLen, AfterLastSep;
    var rest := if windows then s[PrefixLen(s)..] else s;
    var k := AfterLastSep(rest, windows);
    assert rest[k..] == s[|s| - |rest| + k..];
  }

  /** A prefix that does not swallow the name ends at a separator or after a drive's colon. */
  lemma PrefixEnds(s: Bytes)
    requires 0 < PrefixLen(s) < |s|
    ensures IsSep(s[PrefixLen(s)], true) || s[PrefixLen(s) - 1] == COLON
  {
    hide Component;
  }

  /** Unless it is the whole name, a final component follows a separator or a drive's colon. */
  lemma BeforeFinal(s: Bytes, windows: bool)
    requires !NamesNoFile(s, windows)
    ensures var f := FinalComponent(s, windows);
            0 < |f| <= |s| && (|f| < |s| ==> IsSep(s[|s| - |f| - 1], windows) || s[|s| - |f| - 1] == COLON)
  {
    hide PrefixLen, AfterLastSep;
    var p := if windows then PrefixLen(s) else 0;
    if 0 < p < |s| {
      PrefixEnds(s);
      assert s[p..][0] == s[p];
    }
  }

  /**
   The whole-string `.exe`/`.com` test judges the final component, except for a name that names no file and
   passes it: there the prefix swallows the extension.
   */
  lemma LoadableJudgesFinal(s: Bytes, windows: bool)
    ensures (HasLoadableExtension(s) <==> HasLoadableExtension(FinalComponent(s, windows))) <==>
              !(NamesNoFile(s, windows) && HasLoadableExtension(s))
  {
    if !NamesNoFile(s, windows) {
      EndsWithJudgesFinal(s, EXE, windows);
      EndsWithJudgesFinal(s, COM, windows);
    }
  }

  lemma EndsWithJudgesFinal(s: Bytes, ext: Bytes, windows: bool)
    requires !NamesNoFile(s, windows) && (ext == EXE || ext == COM)
    ensures EndsWith(s, ext) <==> EndsWith(FinalComponent(s, windows), ext)
  {
    hide FinalComponent, NamesNoFile;
    var f := FinalComponent(s, windows);
    FinalIsSuffix(s, windows);
    BeforeFinal(s, windows);
    if |f| >= |ext| {
      assert f[|f| - |ext|..] == s[|s| - |ext|..];
    } else if |s| >= |ext| {
      assert s[|s| - |ext|..][|ext| - |f| - 1] == s[|s| - |f| - 1];
    }
  }

  /** Such a name is a share root: the prefix is all of it. */
  lemma LoadableMisjudgesPrefix()
    ensures var s := [BACKSLASH, BACKSLASH, 115, BACKSLASH, 104] + EXE;   // \\s\h.exe
            NamesNoFile(s, true) && HasLoadableExtension(s) && !HasLoadableExtension(FinalComponent(s, true))
  {
    var s: Bytes, server: Bytes, share: Bytes := [BACKSLASH, BACKSLASH, 115, BACKSLASH, 104] + EXE, [115], [104] + EXE;
    PrefixOfShare(BACKSLASH, BACKSLASH, server, BACKSLASH, share, []);
    assert s == [BACKSLASH, BACKSLASH] + server + [BACKSLASH] + share + [];
    hide PrefixLen;
    assert s[5..] == EXE && s[9..] == [];
  }

  // What the parser reads ------------------------------------------------------------------------

  predicate SepFree(t: Bytes) {
    forall i | 0 <= i < |t| :: !IsSep(t[i], true)
  }

  /** What may follow a component: nothing, or a separator and more. */
  predicate SetOff(rest: Bytes) {
    rest == [] || IsSep(rest[0], true)
  }

  lemma ComponentIs(s: Bytes, at: nat, end: nat)
    requires at <= end <= |s| && (forall i | at <= i < end :: !IsSep(s[i], true)) && (end < |s| ==> IsSep(s[end], true))
    ensures Component(s, at) == end
  {
    hide Component;
    var c := Component(s, at);
  }

  /** The prefix of a name on a drive is the drive. */
  lemma PrefixOfDrive(letter: Byte, rest: Bytes)
    requires letter < 0x80 && !IsSep(letter, true)
    ensures PrefixLen([letter, COLON] + rest) == 2
  {
    var s := [letter, COLON] + rest;
    assert s[0] == letter && s[1] == COLON;
  }

  /** The prefix of a name on a share is server and share, whatever separators set them off. */
  lemma PrefixOfShare(a: Byte, b: Byte, server: Bytes, c: Byte, share: Bytes, rest: Bytes)
    requires IsSep(a, true) && IsSep(b, true) && IsSep(c, true) && SetOff(rest)
    requires SepFree(server) && server != [] && server != [QUESTION] && SepFree(share) && share != []
    ensures PrefixLen([a, b] + server + [c] + share + rest) == 3 + |server| + |share|
  {
    hide Component;
    var s, m, n := [a, b] + server + [c] + share + rest, 2 + |server|, 3 + |server| + |share|;
    assert s[0] == a && s[1] == b && s[2] == server[0] && s[m] == c;
    assert forall i | 2 <= i < m :: s[i] == server[i - 2];
    assert forall i | m < i < n :: s[i] == share[i - m - 1];
    assert n < |s| ==> s[n] == rest[0];
    ComponentIs(s, 2, m);
    ComponentIs(s, m + 1, n);
    if server == [DOT] {
      ComponentIs(s, 4, n);
    }
  }

  /** The prefix of a verbatim name on a share is the marker, server and share. */
  lemma PrefixOfVerbatimShare(marker: Bytes, server: Bytes, c: Byte, share: Bytes, rest: Bytes)
    requires |marker| == 8 && IsVerbatimUnc(marker)
    requires SepFree(server) && IsSep(c, true) && SepFree(share) && SetOff(rest)
    ensures PrefixLen(marker + server + [c] + share + rest) == 9 + |server| + |share|
  {
    hide Component;
    var s, m, n := marker + server + [c] + share + rest, 8 + |server|, 9 + |server| + |share|;
    assert forall i | 0 <= i < 8 :: s[i] == marker[i];
    assert s[4..7] == marker[4..7] && s[m] == c;
    assert forall i | 8 <= i < m :: s[i] == server[i - 8];
    assert forall i | m < i < n :: s[i] == share[i - m - 1];
    assert n < |s| ==> s[n] == rest[0];
    ComponentIs(s, 8, m);
    ComponentIs(s, m + 1, n);
  }

  /**
   The prefix of any other verbatim name, and of a device, is one component after the marker. A verbatim `UNC`
   marks a share only before `\`, so before `/`, or at the end, it is such a component too.
   */
  lemma PrefixOfNamespace(marker: Bytes, space: Bytes, rest: Bytes)
    requires |marker| == 4 && SepAt(marker, 0) && SepAt(marker, 1) && SepAt(marker, 3)
    requires IsVerbatim(marker) || marker[2] == DOT
    requires SepFree(space) && SetOff(rest)
    requires !(IsVerbatim(marker) && EqIgnoreCase(space, UNC) && rest != [] && rest[0] == BACKSLASH)
    ensures PrefixLen(marker + space + rest) == 4 + |space|
  {
    hide Component;
    var s, n := marker + space + rest, 4 + |space|;
    assert forall i | 0 <= i < 4 :: s[i] == marker[i];
    assert forall i | 4 <= i < n :: s[i] == space[i - 4];
    assert n < |s| ==> s[n] == rest[0];
    ComponentIs(s, 4, n);
    assert |space| == 3 ==> s[4..7] == space;
    assert |space| > 3 ==> s[7] == space[3];
    assert IsVerbatim(s) <==> IsVerbatim(marker);
    if IsVerbatim(marker) {
      NotAShare(marker, space, rest);
    }
  }

  lemma NotAShare(marker: Bytes, space: Bytes, rest: Bytes)
    requires |marker| == 4 && SepFree(space) && SetOff(rest)
    requires !(EqIgnoreCase(space, UNC) && rest != [] && rest[0] == BACKSLASH)
    ensures !IsVerbatimUnc(marker + space + rest)
  {
    var s, n := marker + space + rest, 4 + |space|;
    assert forall i | 4 <= i < n :: s[i] == space[i - 4];
    assert n < |s| ==> s[n] == rest[0];
    if |s| >= 8 {
      if n == 7 {
        assert s[4..7] == space;
      } else if n < 7 {
        assert IsSep(s[4..7][n - 4], true);
      }
    }
  }

  predicate BackslashFree(t: Bytes) {
    BACKSLASH !in t
  }

  lemma BackslashEndIs(s: Bytes, at: nat, end: nat)
    requires at <= end <= |s| && (forall i | at <= i < end :: s[i] != BACKSLASH) && (end < |s| ==> s[end] == BACKSLASH)
    ensures BackslashEnd(s, at) == end
  {
    hide BackslashEnd;
    var c := BackslashEnd(s, at);
  }

  /**
   After the marker of a verbatim share, server and share are what `\` alone sets off, `/` being no separator
   there; the share is missing exactly if either is empty, or there is no `\` after the first.
   */
  lemma ShareIsMissing(marker: Bytes, server: Bytes, share: Bytes, rest: Bytes)
    requires |marker| == 8 && IsVerbatimUnc(marker) && BackslashFree(server) && BackslashFree(share)
    requires rest == [] || rest[0] == BACKSLASH
    ensures IsVerbatimUncWithoutShare(marker + server)
    ensures IsVerbatimUncWithoutShare(marker + server + [BACKSLASH] + share + rest) <==> server == [] || share == []
  {
    hide BackslashEnd;
    var t, s := marker + server, marker + server + [BACKSLASH] + share + rest;
    var m, n := 8 + |server|, 9 + |server| + |share|;
    assert t[4..7] == marker[4..7] && s[4..7] == marker[4..7];
    assert forall i | 8 <= i < m :: t[i] == server[i - 8] && s[i] == server[i - 8];
    assert s[m] == BACKSLASH;
    assert forall i | m < i < n :: s[i] == share[i - m - 1];
    assert n < |s| ==> s[n] == rest[0];
    BackslashEndIs(t, 8, m);
    BackslashEndIs(s, 8, m);
    BackslashEndIs(s, m + 1, n);
  }

  // What names no file -------------------------------------------------------------------------------

  /** The last component of `s` is `tail`. */
  predicate EndsAs(s: Bytes, tail: Bytes, windows: bool) {
    && |tail| <= |s| && s[|s| - |tail|..] == tail
    && (|tail| < |s| ==> IsSep(s[|s| - |tail| - 1], windows))
  }

  /** A name names no file exactly if what follows its prefix is nothing, or ends in a separator, in `.` or in `..`. */
  lemma WhatNamesNoFile(s: Bytes, windows: bool)
    ensures var rest := if windows then s[PrefixLen(s)..] else s;
            NamesNoFile(s, windows) <==>
              EndsAs(rest, [], windows) || EndsAs(rest, [DOT], windows) || EndsAs(rest, [DOT, DOT], windows)
  {
    hide PrefixLen, AfterLastSep;
    var rest := if windows then s[PrefixLen(s)..] else s;
    var k := AfterLastSep(rest, windows);
    LastIs(rest, [], windows);
    LastIs(rest, [DOT], windows);
    LastIs(rest, [DOT, DOT], windows);
  }

  lemma LastIs(s: Bytes, tail: Bytes, windows: bool)
    requires forall i | 0 <= i < |tail| :: !IsSep(tail[i], windows)
    ensures EndsAs(s, tail, windows) <==> s[AfterLastSep(s, windows)..] == tail
  {
    hide AfterLastSep;
    var k := AfterLastSep(s, windows);
    if EndsAs(s, tail, windows) {
      var j := |s| - |tail|;
      assert forall i | j <= i < |s| :: s[i] == tail[i - j];
      assert k == j;
    }
  }

  // What is tried ------------------------------------------------------------------------------------

  /** The name ends in the extension, each letter in either case. */
  predicate EndsInAnyCase(s: Bytes, ext: Bytes) {
    && |s| >= |ext|
    && forall i | 0 <= i < |ext| ::
         var b := s[|s| - |ext| + i];
         b == ext[i] || (65 <= b <= 90 && b + 32 == ext[i])
  }

  lemma AnyCaseIsIgnored(s: Bytes, ext: Bytes)
    requires ext == EXE || ext == COM
    ensures EndsInAnyCase(s, ext) <==> EndsWith(s, ext)
  {
    if |s| >= |ext| {
      var tail := s[|s| - |ext|..];
      assert forall i | 0 <= i < |ext| :: tail[i] == s[|s| - |ext| + i];
    }
  }

  /**
   What a name that names a file is tried as: one ending in `.exe` or `.com`, in any case, as written; any other
   bare one with `.exe` added; a located one as written, and with `.exe` added too exactly if its final component
   has no `.` after its first byte. On POSIX, as written.
   */
  lemma WhatIsTried(s: Bytes, shape: Shape)
    requires !NamesNoFile(s, true)
    ensures FilenameCandidates(s, true, shape) ==
              if EndsInAnyCase(s, EXE) || EndsInAnyCase(s, COM) then [s]
              else if shape.BareName? then [s + EXE]
              else if DOT in FinalComponent(s, true)[1..] then [s]
              else [s, s + EXE]
    ensures FilenameCandidates(s, false, shape) == [s]
  {
    AnyCaseIsIgnored(s, EXE);
    AnyCaseIsIgnored(s, COM);
    var f := FinalComponent(s, true);
    hide FinalComponent;
    assert DOT in f[1..] <==> exists i :: 0 < i < |f| && f[i] == DOT by {
      if i :| 0 < i < |f| && f[i] == DOT {
        assert f[1..][i - 1] == DOT;
      }
      if DOT in f[1..] {
        var j :| 0 <= j < |f[1..]| && f[1..][j] == DOT;
        assert f[j + 1] == DOT;
      }
    }
  }
}
