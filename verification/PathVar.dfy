/**
 Splitting `PATH` as src/resolve.rs does: on Windows a `"` toggles quoting and is dropped, and `;`
 splits outside quotes; on POSIX only `:` splits and nothing is dropped.
 */
module PathVar {
  import opened WindowsNames

  const QUOTE: Byte := 34
  const SEMICOLON: Byte := 59

  function Quotes(s: Bytes): nat {
    if s == [] then 0 else Quotes(s[..|s| - 1]) + if s[|s| - 1] == QUOTE then 1 else 0
  }

  function Unquoted(s: Bytes): Bytes {
    if s == [] then []
    else Unquoted(s[..|s| - 1]) + if s[|s| - 1] == QUOTE then [] else [s[|s| - 1]]
  }

  predicate EvenQuotes(s: Bytes) {
    Quotes(s) % 2 == 0
  }

  /** The specification: a `;` splits exactly when an even number of quotes precede it. */
  predicate SplitsAt(s: Bytes, i: nat)
    requires i < |s|
  {
    s[i] == SEMICOLON && EvenQuotes(s[..i])
  }

  /** The first split at or after `from`, or the end. */
  function NextSplit(s: Bytes, from: nat): (i: nat)
    requires from <= |s|
    ensures from <= i <= |s|
    ensures i < |s| ==> SplitsAt(s, i)
    ensures forall j | from <= j < i :: !SplitsAt(s, j)
    decreases |s| - from
  {
    if from == |s| || SplitsAt(s, from) then from else NextSplit(s, from + 1)
  }

  /** The parts from `from` on, quotes dropped. */
  function Parts(s: Bytes, from: nat): (parts: seq<Bytes>)
    requires from <= |s|
    ensures parts != []
    decreases |s| - from
  {
    var i := NextSplit(s, from);
    [Unquoted(s[from..i])] + if i < |s| then Parts(s, i + 1) else []
  }

  /** One byte more: a quote turns the parity, anything else is kept. */
  lemma OneMore(s: Bytes, from: nat, i: nat)
    requires from <= i < |s|
    ensures Unquoted(s[from..i + 1]) == Unquoted(s[from..i]) + if s[i] == QUOTE then [] else [s[i]]
    ensures EvenQuotes(s[..i + 1]) <==> (EvenQuotes(s[..i]) <==> s[i] != QUOTE)
  {
    var t := s[from..i + 1];
    assert t[..|t| - 1] == s[from..i];
    assert s[..i + 1][..i] == s[..i];
  }

  lemma PartsFrom(s: Bytes, from: nat, i: nat)
    requires from <= i <= |s| && NextSplit(s, from) == i
    ensures Parts(s, from) == [Unquoted(s[from..i])] + if i < |s| then Parts(s, i + 1) else []
  {
  }

  /** `split_path_var_windows`. */
  method SplitWindows(s: Bytes) returns (parts: seq<Bytes>)
    ensures parts == Parts(s, 0)
  {
    hide Parts, Unquoted, EvenQuotes, NextSplit;
    parts := [];
    var current: Bytes := [];
    var inQuotes := false;
    ghost var start := 0;
    Nothing(s, 0);
    for i := 0 to |s|
      invariant start <= i && NextSplit(s, start) >= i
      invariant current == Unquoted(s[start..i])
      invariant inQuotes == !EvenQuotes(s[..i])
      invariant parts + Parts(s, start) == Parts(s, 0)
    {
      var b := s[i];
      OneMore(s, start, i);
      if b == QUOTE {
        inQuotes := !inQuotes;
      } else if b == SEMICOLON && !inQuotes {
        assert SplitsAt(s, i);
        PartsFrom(s, start, i);
        parts := parts + [current];
        current := [];
        start := i + 1;
        Nothing(s, start);
      } else {
        current := current + [b];
      }
    }
    PartsFrom(s, start, |s|);
    parts := parts + [current];
  }

  lemma Nothing(s: Bytes, i: nat)
    requires i <= |s|
    ensures Unquoted(s[i..i]) == [] && EvenQuotes(s[..0])
  {
  }

  // What the parts are -----------------------------------------------------------------------

  predicate QuoteFree(s: Bytes) {
    QUOTE !in s
  }

  lemma {:induction false} UnquotedIsQuoteFree(s: Bytes)
    ensures QuoteFree(Unquoted(s))
  {
    if s != [] {
      UnquotedIsQuoteFree(s[..|s| - 1]);
    }
  }

  /** No part contains a quote. */
  lemma {:induction false} PartsAreQuoteFree(s: Bytes, from: nat, k: nat)
    requires from <= |s| && k < |Parts(s, from)|
    ensures QuoteFree(Parts(s, from)[k])
    decreases |s| - from
  {
    hide Unquoted, Parts, NextSplit, SplitsAt;
    var i := NextSplit(s, from);
    PartsFrom(s, from, i);
    UnquotedIsQuoteFree(s[from..i]);
    if k > 0 {
      PartsAreQuoteFree(s, i + 1, k - 1);
    }
  }

  function Joined(parts: seq<Bytes>, sep: Byte): Bytes {
    if parts == [] then [] else if |parts| == 1 then parts[0]
    else parts[0] + [sep] + Joined(parts[1..], sep)
  }

  lemma SingleByte(b: Byte)
    ensures Unquoted([b]) == (if b == QUOTE then [] else [b]) && Quotes([b]) == if b == QUOTE then 1 else 0
  {
    assert [b][..0] == [];
    assert Unquoted([]) == [] && Quotes([]) == 0;
  }

  lemma {:induction false} UnquotedAppends(s: Bytes, t: Bytes)
    ensures Unquoted(s + t) == Unquoted(s) + Unquoted(t)
    ensures Quotes(s + t) == Quotes(s) + Quotes(t)
    decreases |t|
  {
    if t == [] {
      assert s + t == s;
    } else {
      UnquotedAppends(s, t[..|t| - 1]);
      assert (s + t)[..|s + t| - 1] == s + t[..|t| - 1];
    }
  }

  /** Splitting loses the quotes and nothing else: the parts joined again are the value without them. */
  lemma {:induction false} SplitLosesOnlyQuotes(s: Bytes, from: nat)
    requires from <= |s|
    ensures Joined(Parts(s, from), SEMICOLON) == Unquoted(s[from..])
    decreases |s| - from
  {
    hide Unquoted, Quotes, Parts, NextSplit;
    var i := NextSplit(s, from);
    PartsFrom(s, from, i);
    if i < |s| {
      var part, rest := s[from..i], s[i + 1..];
      SplitLosesOnlyQuotes(s, i + 1);
      assert s[from..] == part + ([SEMICOLON] + rest);
      UnquotedAppends(part, [SEMICOLON] + rest);
      UnquotedAppends([SEMICOLON], rest);
      SingleByte(SEMICOLON);
      assert Parts(s, from)[1..] == Parts(s, i + 1);
    } else {
      assert s[from..i] == s[from..];
    }
  }

  // The round trip ---------------------------------------------------------------------------

  lemma EvenAppends(x: Bytes, y: Bytes)
    requires EvenQuotes(x)
    ensures EvenQuotes(x + y) <==> EvenQuotes(y)
  {
    hide Quotes;
    UnquotedAppends(x, y);
  }

  lemma SplitsAtShifted(x: Bytes, y: Bytes, i: nat)
    requires EvenQuotes(x) && i < |y|
    ensures SplitsAt(x + y, |x| + i) <==> SplitsAt(y, i)
  {
    hide EvenQuotes;
    assert (x + y)[..|x| + i] == x + y[..i];
    EvenAppends(x, y[..i]);
  }

  lemma NextSplitShifted(x: Bytes, y: Bytes, from: nat)
    requires EvenQuotes(x) && from <= |y|
    ensures NextSplit(x + y, |x| + from) == |x| + NextSplit(y, from)
  {
    hide NextSplit, SplitsAt;
    forall i | 0 <= i < |y| ensures SplitsAt(x + y, |x| + i) <==> SplitsAt(y, i) {
      SplitsAtShifted(x, y, i);
    }
    var a, b := NextSplit(x + y, |x| + from), NextSplit(y, from);
    assert a < |x + y| ==> SplitsAt(y, a - |x|);
    assert b < |y| ==> SplitsAt(x + y, |x| + b);
  }

  /** After an even number of quotes the rest splits as if it stood alone. */
  lemma {:induction false} PartsShifted(x: Bytes, y: Bytes, from: nat)
    requires EvenQuotes(x) && from <= |y|
    ensures Parts(x + y, |x| + from) == Parts(y, from)
    decreases |y| - from
  {
    hide Unquoted, EvenQuotes, NextSplit, SplitsAt;
    var i := NextSplit(y, from);
    NextSplitShifted(x, y, from);
    assert (x + y)[|x| + from..|x| + i] == y[from..i];
    if i < |y| {
      PartsShifted(x, y, i + 1);
    }
  }

  function QuotedDir(d: Bytes): Bytes {
    [QUOTE] + d + [QUOTE]
  }

  function QuotedJoin(dirs: seq<Bytes>): Bytes
    requires dirs != []
  {
    if |dirs| == 1 then QuotedDir(dirs[0]) else QuotedDir(dirs[0]) + [SEMICOLON] + QuotedJoin(dirs[1..])
  }

  lemma {:induction false} QuoteFreeStays(d: Bytes)
    requires QuoteFree(d)
    ensures Unquoted(d) == d && Quotes(d) == 0
  {
    if d != [] {
      QuoteFreeStays(d[..|d| - 1]);
    }
  }

  lemma QuotedDirFacts(d: Bytes)
    requires QuoteFree(d)
    ensures Unquoted(QuotedDir(d)) == d && EvenQuotes(QuotedDir(d))
  {
    SingleByte(QUOTE);
    hide Unquoted, Quotes;
    QuoteFreeStays(d);
    UnquotedAppends([QUOTE], d);
    UnquotedAppends([QUOTE] + d, [QUOTE]);
  }

  /** Inside the quotes nothing splits. */
  lemma QuotedDirHolds(d: Bytes, rest: Bytes, i: nat)
    requires QuoteFree(d) && i < |QuotedDir(d)|
    ensures !SplitsAt(QuotedDir(d) + rest, i)
  {
    SingleByte(QUOTE);
    hide Unquoted, Quotes;
    if 0 < i <= |d| {
      assert (QuotedDir(d) + rest)[..i] == [QUOTE] + d[..i - 1];
      QuoteFreeStays(d[..i - 1]);
      UnquotedAppends([QUOTE], d[..i - 1]);
    }
  }

  lemma FirstQuotedSplit(d: Bytes, rest: Bytes)
    requires QuoteFree(d) && (rest == [] || rest[0] == SEMICOLON)
    ensures NextSplit(QuotedDir(d) + rest, 0) == |QuotedDir(d)|
  {
    hide NextSplit, EvenQuotes;
    var s, n := QuotedDir(d) + rest, |QuotedDir(d)|;
    QuotedDirFacts(d);
    assert s[..n] == QuotedDir(d);
    forall i | 0 <= i < n ensures !SplitsAt(s, i) {
      QuotedDirHolds(d, rest, i);
    }
    assert rest != [] ==> s[n] == SEMICOLON && SplitsAt(s, n);
  }

  /** Whatever the directories contain short of quotes, splitting their quoted join gives them back. */
  lemma {:induction false} QuotedJoinRoundTrip(dirs: seq<Bytes>)
    requires dirs != [] && forall k | 0 <= k < |dirs| :: QuoteFree(dirs[k])
    ensures Parts(QuotedJoin(dirs), 0) == dirs
    decreases |dirs|
  {
    hide Parts, Unquoted, NextSplit, Quotes, QuotedDir;
    var q, s := QuotedDir(dirs[0]), QuotedJoin(dirs);
    var rest := if |dirs| == 1 then [] else [SEMICOLON] + QuotedJoin(dirs[1..]);
    assert s == q + rest;
    QuotedDirFacts(dirs[0]);
    FirstQuotedSplit(dirs[0], rest);
    PartsFrom(s, 0, |q|);
    assert s[0..|q|] == q;
    if |dirs| > 1 {
      QuotedJoinRoundTrip(dirs[1..]);
      var head := q + [SEMICOLON];
      assert EvenQuotes(head) by {
        EvenAppends(q, [SEMICOLON]);
        SingleByte(SEMICOLON);
      }
      PartsShifted(head, QuotedJoin(dirs[1..]), 0);
      assert s == head + QuotedJoin(dirs[1..]);
    }
  }

  // Values put together ------------------------------------------------------------------------

  lemma SplitsAlike(a: Bytes, b: Bytes, i: nat)
    requires i < |a|
    ensures SplitsAt(a + b, i) <==> SplitsAt(a, i)
  {
    assert (a + b)[..i] == a[..i];
  }

  lemma NextSplitAlike(a: Bytes, b: Bytes, from: nat)
    requires from <= |a| && EvenQuotes(a)
    ensures NextSplit(a + [SEMICOLON] + b, from) == NextSplit(a, from)
  {
    hide NextSplit, EvenQuotes;
    var rest := [SEMICOLON] + b;
    var s := a + rest;
    assert s == a + [SEMICOLON] + b;
    forall i | 0 <= i < |a| ensures SplitsAt(s, i) <==> SplitsAt(a, i) {
      SplitsAlike(a, rest, i);
    }
    assert s[..|a|] == a;
    assert SplitsAt(s, |a|);
    var x, y := NextSplit(s, from), NextSplit(a, from);
  }

  /** Two values set off by a separator outside quotes split into the parts of the one, then those of the other. */
  lemma {:induction false} PartsJoined(a: Bytes, b: Bytes, from: nat)
    requires from <= |a| && EvenQuotes(a)
    ensures Parts(a + [SEMICOLON] + b, from) == Parts(a, from) + Parts(b, 0)
    decreases |a| - from
  {
    hide Unquoted, EvenQuotes, NextSplit, SplitsAt;
    var s, i := a + [SEMICOLON] + b, NextSplit(a, from);
    NextSplitAlike(a, b, from);
    assert s[from..i] == a[from..i];
    if i < |a| {
      PartsJoined(a, b, i + 1);
    } else {
      var head := a + [SEMICOLON];
      assert EvenQuotes(head) by {
        EvenAppends(a, [SEMICOLON]);
        assert EvenQuotes([SEMICOLON]) by { NoQuotes(); }
      }
      PartsShifted(head, b, 0);
    }
  }

  lemma NoQuotes()
    ensures EvenQuotes([SEMICOLON])
  {
    SingleByte(SEMICOLON);
  }

  // POSIX ------------------------------------------------------------------------------------

  function SplitPosix(s: Bytes): (parts: seq<Bytes>)
    ensures parts != []
  {
    if s == [] then [[]]
    else
      var rest := SplitPosix(s[1..]);
      if s[0] == COLON then [[]] + rest else [[s[0]] + rest[0]] + rest[1..]
  }

  /** On POSIX nothing is lost: the parts joined again are the value, and none contains the separator. */
  lemma {:induction false} SplitPosixLosesNothing(s: Bytes)
    ensures Joined(SplitPosix(s), COLON) == s
    ensures forall k | 0 <= k < |SplitPosix(s)| :: COLON !in SplitPosix(s)[k]
  {
    if s != [] {
      var rest := SplitPosix(s[1..]);
      SplitPosixLosesNothing(s[1..]);
      assert s == [s[0]] + s[1..];
      if s[0] == COLON {
        assert SplitPosix(s)[1..] == rest;
      } else {
        assert SplitPosix(s)[1..] == rest[1..];
        assert |rest| > 1 ==> Joined(SplitPosix(s), COLON) == [s[0]] + (rest[0] + [COLON] + Joined(rest[1..], COLON));
      }
    }
  }

  /** The same on POSIX, where any separator splits. */
  lemma {:induction false} SplitPosixJoined(a: Bytes, b: Bytes)
    ensures SplitPosix(a + [COLON] + b) == SplitPosix(a) + SplitPosix(b)
  {
    var s := a + [COLON] + b;
    if a == [] {
      assert s[1..] == b;
    } else {
      assert s[1..] == a[1..] + [COLON] + b;
      SplitPosixJoined(a[1..], b);
    }
  }
}
