/**
 What a join of `resolve` keeps (src/resolve/join.rs): the name whole at the end, set off from the base, and
 read as the same file; with the one base on which that fails.
 */
module ResolveJoin {
  import opened Wrappers
  import opened WindowsNames
  import opened Resolve
  import opened ResolveTheorems
  import opened ResolveErrors

  lemma LastSepIs(s: Bytes, k: nat, windows: bool)
    requires k <= |s| && (forall i | k <= i < |s| :: !IsSep(s[i], windows)) && (k > 0 ==> IsSep(s[k - 1], windows))
    ensures AfterLastSep(s, windows) == k
  {
    hide AfterLastSep;
    var e := AfterLastSep(s, windows);
  }

  lemma LastSepSplits(x: Bytes, y: Bytes, windows: bool)
    requires x == [] || IsSep(x[|x| - 1], windows)
    ensures AfterLastSep(x + y, windows) == |x| + AfterLastSep(y, windows)
  {
    hide AfterLastSep;
    var s, k := x + y, AfterLastSep(y, windows);
    assert forall i | |x| <= i < |s| :: s[i] == y[i - |x|];
    assert |x| > 0 ==> s[|x| - 1] == x[|x| - 1];
    LastSepIs(s, |x| + k, windows);
  }

  lemma GrownComponent(s: Bytes, k: nat, rest: Bytes, at: nat)
    requires at <= k <= |s| && Component(s, at) <= k && (Component(s, at) < k || SepAt(rest, 0))
    ensures Component(s[..k] + rest, at) == Component(s, at)
  {
    hide Component;
    var grown, c := s[..k] + rest, Component(s, at);
    assert forall i | 0 <= i < k :: grown[i] == s[i];
    assert c == k ==> grown[c] == rest[0];
    ComponentIs(grown, at, c);
  }

  /** Growing a fully qualified plain name past its prefix leaves the prefix as it was. */
  lemma GrownPrefix(base: Bytes, k: nat, rest: Bytes)
    requires IsAbsoluteName(base, true) && !IsVerbatim(base) && PrefixLen(base) <= k <= |base|
    requires PrefixLen(base) < k || SepAt(rest, 0)
    ensures PrefixLen(base[..k] + rest) == PrefixLen(base)
  {
    var grown := base[..k] + rest;
    if TypeOf(base).DriveAbsolute? {
      hide UncPrefixLen, IsVerbatimUncWithoutShare;
      assert forall i | 0 <= i < k :: grown[i] == base[i];
    } else {
      GrownShare(base, k, rest);
      hide UncPrefixLen, IsVerbatimUncWithoutShare;
    }
  }

  lemma GrownShare(base: Bytes, k: nat, rest: Bytes)
    requires SepAt(base, 0) && SepAt(base, 1) && UncPrefixLen(base) > 0 && !IsVerbatim(base)
    requires UncPrefixLen(base) <= k <= |base| && (UncPrefixLen(base) < k || SepAt(rest, 0))
    ensures var grown := base[..k] + rest;
            SepAt(grown, 0) && SepAt(grown, 1) && UncPrefixLen(grown) == UncPrefixLen(base)
  {
    var grown := base[..k] + rest;
    hide Component;
    assert forall i | 0 <= i < k :: grown[i] == base[i];
    if base[2] == DOT && IsSep(base[3], true) {
      GrownComponent(base, k, rest, 4);
    } else {
      var server := Component(base, 2);
      assert server + 1 < UncPrefixLen(base) && UncPrefixLen(base) == Component(base, server + 1);
      GrownComponent(base, k, rest, 2);
      GrownComponent(base, k, rest, server + 1);
    }
  }

  /** `\\.\`, or the same with other separators: the prefix a single name appended to it becomes part of. */
  predicate IsDeviceRoot(base: Bytes) {
    |base| == 4 && SepAt(base, 0) && SepAt(base, 1) && base[2] == DOT && SepAt(base, 3)
  }

  /** Only there does the prefix reach the end of a base that ends in a separator. */
  lemma PrefixBeforeSep(base: Bytes)
    requires IsAbsoluteName(base, true) && !IsVerbatim(base) && EndsInSep(base) && !IsDeviceRoot(base)
    ensures PrefixLen(base) < |base|
  {
    hide Component;
  }

  lemma NoPrefix(name: Bytes)
    requires TypeOf(name).Rooted? || TypeOf(name).Relative?
    ensures PrefixLen(name) == 0 && FinalComponent(name, true) == name[AfterLastSep(name, true)..]
  {
    hide AfterLastSep;
    assert name[0..] == name;
  }

  /** What follows the prefix is `x` and the name, so the final component is the name's. */
  lemma FinalOfRest(joined: Bytes, x: Bytes, name: Bytes)
    requires PrefixLen(joined) <= |joined| && joined[PrefixLen(joined)..] == x + name
    requires x == [] || IsSep(x[|x| - 1], true)
    requires TypeOf(name).Rooted? || TypeOf(name).Relative?
    ensures FinalComponent(joined, true) == FinalComponent(name, true)
  {
    hide PrefixLen, TypeOf, AfterLastSep;
    NoPrefix(name);
    LastSepSplits(x, name, true);
    var k := AfterLastSep(name, true);
    assert (x + name)[|x| + k..] == name[k..];
  }

  /** A rooted name keeps the base's drive or share, and nothing else of it. */
  lemma RootedJoin(input: Input, base: Bytes, name: Bytes)
    requires IsAbsoluteName(base, true) && !IsVerbatim(base) && TypeOf(name).Rooted?
    ensures var joined := Join(input, base, name);
            joined == base[..PrefixLen(base)] + name && FinalComponent(joined, true) == FinalComponent(name, true)
  {
    var p := PrefixLen(base);
    var joined := base[..p] + name;
    assert SepAt(name, 0);
    hide PrefixLen, IsAbsoluteName, TypeOf, IsVerbatim;
    GrownPrefix(base, p, name);
    assert joined[p..] == [] + name;
    FinalOfRest(joined, [], name);
  }

  /** What stands between a plain base and a relative name: nothing if the base ends in a separator, else one. */
  function Glue(input: Input, base: Bytes): Bytes {
    if EndsInSep(base) then [] else [input.mainSep]
  }

  lemma RelativeJoinIs(input: Input, base: Bytes, name: Bytes)
    requires IsAbsoluteName(base, true) && !IsVerbatim(base) && TypeOf(name).Relative? && name != []
    ensures Join(input, base, name) == base + Glue(input, base) + name
  {
    AbsoluteExceedsDrive(base);
    assert DriveLen(base) != Some(|base|) by { NotABareDrive(base); }
    hide IsAbsoluteName, TypeOf, DriveLen;
    assert base + [] == base;
  }

  lemma NotABareDrive(base: Bytes)
    requires IsAbsoluteName(base, true)
    ensures DriveLen(base) != Some(|base|)
  {
    hide UncPrefixLen, IsVerbatimUncWithoutShare;
  }

  /** On any plain base but a device root, a relative name keeps its final component. */
  lemma RelativeFinal(input: Input, base: Bytes, name: Bytes)
    requires IsAbsoluteName(base, true) && !IsVerbatim(base) && IsSep(input.mainSep, true) && !IsDeviceRoot(base)
    requires TypeOf(name).Relative? && name != []
    ensures FinalComponent(Join(input, base, name), true) == FinalComponent(name, true)
  {
    var p, glue := PrefixLen(base), Glue(input, base);
    RelativeJoinIs(input, base, name);
    if EndsInSep(base) {
      PrefixBeforeSep(base);
    }
    hide PrefixLen, IsAbsoluteName, TypeOf, IsVerbatim, Join, IsDeviceRoot;
    var rest := glue + name;
    assert base[..|base|] == base;
    assert glue != [] ==> SepAt(rest, 0);
    GrownPrefix(base, |base|, rest);
    var x := base[p..] + glue;
    var joined := base + rest;
    assert joined == base + glue + name && joined[p..] == x + name;
    assert x != [] && IsSep(x[|x| - 1], true);
    FinalOfRest(joined, x, name);
  }

  lemma DevicePrefix(base: Bytes, name: Bytes)
    requires IsDeviceRoot(base)
    ensures PrefixLen(base + name) == 4 + Component(name, 0)
  {
    var joined, c := base + name, Component(name, 0);
    assert forall i | 0 <= i < 4 :: joined[i] == base[i];
    assert forall i | 0 <= i < |name| :: joined[4 + i] == name[i];
    hide Component;
    assert c < |name| ==> IsSep(joined[4 + c], true);
    ComponentIs(joined, 4, 4 + c);
  }

  /** What follows a separator decides the last component. */
  lemma LastFromSep(name: Bytes, c: nat)
    requires c < |name| && IsSep(name[c], true)
    ensures c <= AfterLastSep(name, true) && AfterLastSep(name[c..], true) == AfterLastSep(name, true) - c
  {
    hide AfterLastSep;
    var k, tail := AfterLastSep(name, true), name[c..];
    assert k > c;
    assert forall i | 0 <= i < |tail| :: tail[i] == name[c + i];
    LastSepIs(tail, k - c, true);
  }

  /** On a device root the first component of the name becomes part of the prefix. */
  lemma DeviceRootFinal(base: Bytes, name: Bytes)
    requires IsDeviceRoot(base) && TypeOf(name).Relative? && !NamesNoFile(name, true)
    ensures FinalComponent(base + name, true) == FinalComponent(name, true) <==> HasSep(name, true)
  {
    hide Component, TypeOf, HasSep, PrefixLen, AfterLastSep, IsDeviceRoot, NamesNoFile;
    var joined, c := base + name, Component(name, 0);
    NoPrefix(name);
    NotEmpty(name);
    FirstSep(name);
    DevicePrefix(base, name);
    assert |base| == 4 by { FourBytes(base); }
    assert joined[4 + c..] == name[c..];
    if c < |name| {
      LastFromSep(name, c);
      var k := AfterLastSep(name, true);
      assert name[c..][k - c..] == name[k..];
    } else {
      assert FinalComponent(joined, true) == [];
    }
  }

  lemma FourBytes(base: Bytes)
    requires IsDeviceRoot(base)
    ensures |base| == 4 && EndsInSep(base)
  {
  }

  lemma FirstSep(name: Bytes)
    ensures HasSep(name, true) <==> Component(name, 0) < |name|
  {
    hide Component;
  }

  lemma NotEmpty(name: Bytes)
    requires !NamesNoFile(name, true)
    ensures FinalComponent(name, true) != []
  {
  }

  /**
   A name joined to a fully qualified plain base stays whole at the end of the result: rooted, after the base's
   drive or share; relative, after the base and a separator. It is read as the same file, its final component
   being the name's, if and only if it is not a single component on a device root.
   */
  lemma JoinKeepsName(input: Input, base: Bytes, name: Bytes) returns (before: Bytes)
    requires IsAbsoluteName(base, true) && !IsVerbatim(base) && IsSep(input.mainSep, true)
    requires (TypeOf(name).Rooted? || TypeOf(name).Relative?) && !NamesNoFile(name, true)
    ensures Join(input, base, name) == before + name && before != []
    ensures TypeOf(name).Rooted? ==> before == base[..PrefixLen(base)]
    ensures TypeOf(name).Relative? ==> base <= before && EndsInSep(before) && |before| <= |base| + 1
    ensures FinalComponent(Join(input, base, name), true) == FinalComponent(name, true) <==>
              !(IsDeviceRoot(base) && TypeOf(name).Relative? && !HasSep(name, true))
  {
    hide PrefixLen, IsAbsoluteName, TypeOf, IsVerbatim, Join, IsDeviceRoot, NamesNoFile, HasSep, FinalComponent;
    PrefixLeavesFile(name);
    AbsoluteHasPrefix(base);
    if TypeOf(name).Rooted? {
      RootedJoin(input, base, name);
      before := base[..PrefixLen(base)];
    } else {
      RelativeJoinIs(input, base, name);
      before := base + Glue(input, base);
      if IsDeviceRoot(base) {
        FourBytes(base);
        assert before == base;
        DeviceRootFinal(base, name);
      } else {
        RelativeFinal(input, base, name);
      }
    }
  }

  lemma AbsoluteHasPrefix(base: Bytes)
    requires IsAbsoluteName(base, true)
    ensures 0 < PrefixLen(base) <= |base|
  {
    hide UncPrefixLen, IsVerbatimUncWithoutShare;
  }

  /**
   On POSIX too a relative name stays whole after the base and a separator, and keeps its final component; an
   absolute name, or any name on no base, is the join itself.
   */
  lemma PosixJoinKeepsName(base: Bytes, name: Bytes) returns (before: Bytes)
    requires name != []
    ensures PosixJoin(base, name) == before + name
    ensures name[0] == SLASH || base == [] ==> before == []
    ensures name[0] != SLASH && base != [] ==> base <= before && before[|before| - 1] == SLASH && |before| <= |base| + 1
    ensures FinalComponent(PosixJoin(base, name), false) == FinalComponent(name, false)
  {
    before := if name[0] == SLASH || base == [] then [] else if base[|base| - 1] == SLASH then base else base + [SLASH];
    LastSepSplits(before, name, false);
    var joined, k := before + name, AfterLastSep(name, false);
    assert joined[|before| + k..] == name[k..];
  }
}
