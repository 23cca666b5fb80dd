/**
 The byte-level path types of src/resolve.rs against Win32's own reading of UTF-16 units. The bytes of
 a Windows name are its units in WTF-8: a surrogate pair is four bytes, any other unit, lone
 surrogates included, one to three.
 */
module Wtf8 {
  import opened Wrappers
  import opened WindowsNames

  type Unit = u: int | 0 <= u < 0x10000

  predicate IsHigh(u: Unit) { 0xD800 <= u < 0xDC00 }
  predicate IsLow(u: Unit) { 0xDC00 <= u < 0xE000 }

  /** The units start with a surrogate pair. */
  predicate StartsWithPair(u: seq<Unit>) {
    |u| >= 2 && IsHigh(u[0]) && IsLow(u[1])
  }

  function EncodeUnit(u: Unit): (e: Bytes)
    ensures 1 <= |e| <= 3
    ensures e[0] < 0x80 <==> u < 0x80
    ensures u < 0x80 ==> e == [u]
  {
    if u < 0x80 then [u]
    else if u < 0x800 then [0xC0 + u / 64, 0x80 + u % 64]
    else [0xE0 + u / 4096, 0x80 + u / 64 % 64, 0x80 + u % 64]
  }

  function EncodePair(hi: Unit, lo: Unit): (e: Bytes)
    requires IsHigh(hi) && IsLow(lo)
    ensures |e| == 4 && e[0] >= 0xF0
  {
    var cp := 0x10000 + (hi - 0xD800) * 0x400 + (lo - 0xDC00);
    [0xF0 + cp / 0x40000, 0x80 + cp / 0x1000 % 64, 0x80 + cp / 64 % 64, 0x80 + cp % 64]
  }

  function Encode(u: seq<Unit>): Bytes {
    if u == [] then []
    else if StartsWithPair(u) then EncodePair(u[0], u[1]) + Encode(u[2..])
    else EncodeUnit(u[0]) + Encode(u[1..])
  }

  predicate UnitSep(u: seq<Unit>, i: nat) {
    i < |u| && (u[i] == SLASH || u[i] == BACKSLASH)
  }

  /** Win32's reading of the units: separators first, then whether the second unit is `:`. */
  function UnitType(u: seq<Unit>): PathType {
    if UnitSep(u, 0) then (if UnitSep(u, 1) then Unc else Rooted)
    else if |u| >= 2 && u[1] == COLON then (if UnitSep(u, 2) then DriveAbsolute else DriveRelative)
    else Relative
  }

  /** The first byte is an ASCII character exactly when the first unit is that character. */
  lemma AsciiHead(u: seq<Unit>, c: Byte)
    requires c < 0x80
    ensures Encode(u) != [] <==> u != []
    ensures u != [] ==> (Encode(u)[0] == c <==> u[0] == c)
  {
  }

  lemma SepHead(u: seq<Unit>)
    ensures SepAt(Encode(u), 0) <==> UnitSep(u, 0)
  {
    AsciiHead(u, SLASH);
    AsciiHead(u, BACKSLASH);
  }

  /** Past a unit that is no half of a pair, the bytes are those of the remaining units. */
  lemma AfterUnit(u: seq<Unit>)
    requires u != [] && !StartsWithPair(u)
    ensures var k := |EncodeUnit(u[0])|;
            Encode(u)[..k] == EncodeUnit(u[0]) && Encode(u)[k..] == Encode(u[1..])
  {
  }

  /** The lead byte of a unit that is no half of a pair says how many bytes it takes. */
  lemma LeadByte(u: Unit, rest: Bytes)
    ensures var e, k := EncodeUnit(u), |EncodeUnit(u)|;
            DriveLen(e + rest) == if rest != [] && rest[0] == COLON then Some(k + 1) else None
  {
    var e := EncodeUnit(u);
    assert (e + rest)[0] == e[0];
    assert rest != [] ==> (e + rest)[|e|] == rest[0];
  }

  lemma PairHasNoDriveLen(u: seq<Unit>)
    requires StartsWithPair(u)
    ensures DriveLen(Encode(u)).None?
  {
  }

  /** A drive in the bytes is one unit and a colon, however many bytes the unit takes. */
  lemma DriveIsOneUnit(u: seq<Unit>)
    ensures DriveLen(Encode(u)).Some? <==> |u| >= 2 && u[1] == COLON
    ensures |u| >= 2 && u[1] == COLON ==>
              var len := DriveLen(Encode(u)).value;
              Encode(u)[..len] == Encode(u[..2]) && Encode(u)[len..] == Encode(u[2..])
  {
    if StartsWithPair(u) {
      PairHasNoDriveLen(u);
    } else if u != [] {
      hide DriveLen, EncodeUnit;
      var e, rest := EncodeUnit(u[0]), u[1..];
      assert Encode(u) == e + Encode(rest);
      LeadByte(u[0], Encode(rest));
      AsciiHead(rest, COLON);
      if rest != [] && rest[0] == COLON {
        DriveSplits(u);
      }
    }
  }

  lemma OneUnit(u: seq<Unit>)
    requires u != [] && !StartsWithPair(u)
    ensures Encode(u) == EncodeUnit(u[0]) + Encode(u[1..])
  {
  }

  lemma ColonUnit(u: seq<Unit>)
    requires u != [] && u[0] == COLON
    ensures Encode(u) == [COLON] + Encode(u[1..])
  {
    OneUnit(u);
  }

  lemma SplitAfter(e: Bytes, rest: Bytes)
    ensures var s := e + ([COLON] + rest); s[..|e| + 1] == e + [COLON] && s[|e| + 1..] == rest
  {
  }

  lemma DriveSplits(u: seq<Unit>)
    requires |u| >= 2 && u[1] == COLON && !StartsWithPair(u)
    ensures var len := |EncodeUnit(u[0])| + 1;
            && len <= |Encode(u)|
            && Encode(u)[..len] == Encode(u[..2]) && Encode(u)[len..] == Encode(u[2..])
  {
    hide Encode, EncodeUnit;
    var e, two := EncodeUnit(u[0]), u[..2];
    OneUnit(u);
    ColonUnit(u[1..]);
    assert u[1..][1..] == u[2..];
    assert !StartsWithPair(two);
    OneUnit(two);
    ColonUnit(two[1..]);
    assert two[1..][1..] == [];
    assert Encode(two[1..][1..]) == [] by { NoUnits(two[1..][1..]); }
    SplitAfter(e, Encode(u[2..]));
    assert Encode(two) == e + [COLON];
  }

  lemma NoUnits(u: seq<Unit>)
    requires u == []
    ensures Encode(u) == []
  {
  }

  /** On every sequence of units the byte-level path type is Win32's. */
  lemma TypeOfEncoded(u: seq<Unit>)
    ensures TypeOf(Encode(u)) == UnitType(u)
  {
    SepHead(u);
    if UnitSep(u, 0) {
      AfterUnit(u);
      SepHead(u[1..]);
      assert SepAt(Encode(u), 1) <==> SepAt(Encode(u)[1..], 0);
    } else {
      DriveIsOneUnit(u);
      if |u| >= 2 && u[1] == COLON {
        var len := DriveLen(Encode(u)).value;
        SepHead(u[2..]);
        assert SepAt(Encode(u), len) <==> SepAt(Encode(u)[len..], 0);
      }
    }
  }

  /** A surrogate pair is two units, so it is never a drive. */
  lemma PairIsNoDrive(u: seq<Unit>)
    requires StartsWithPair(u)
    ensures TypeOf(Encode(u)).Relative?
  {
    TypeOfEncoded(u);
  }

  // The encoding loses nothing ---------------------------------------------------------------------

  /** The length of the sequence a lead byte starts, and the code point of a sequence of that length. */
  function SeqLen(lead: Byte): nat {
    if lead < 0x80 then 1 else if lead < 0xE0 then 2 else if lead < 0xF0 then 3 else 4
  }

  function CodePoint(s: Bytes): int
    requires s != [] && SeqLen(s[0]) <= |s|
  {
    var n := SeqLen(s[0]);
    if n == 1 then s[0]
    else if n == 2 then (s[0] as int - 0xC0) * 64 + Tail(s[1])
    else if n == 3 then ((s[0] as int - 0xE0) * 64 + Tail(s[1])) * 64 + Tail(s[2])
    else (((s[0] as int - 0xF0) * 64 + Tail(s[1])) * 64 + Tail(s[2])) * 64 + Tail(s[3])
  }

  /** The six bits of a continuation byte. */
  function Tail(b: Byte): int {
    b as int - 0x80
  }

  /** The units of a code point: one, or a surrogate pair. */
  function Units(cp: int): seq<int> {
    if cp < 0x10000 then [cp] else [0xD800 + (cp - 0x10000) / 0x400, 0xDC00 + (cp - 0x10000) % 0x400]
  }

  /** Reading the bytes back, code point by code point. */
  function Decode(s: Bytes): seq<int> {
    if s == [] || SeqLen(s[0]) > |s| then [] else Units(CodePoint(s)) + Decode(s[SeqLen(s[0])..])
  }

  lemma UnitReads(u: Unit, rest: Bytes)
    ensures var e := EncodeUnit(u); SeqLen((e + rest)[0]) == |e| && CodePoint(e + rest) == u
  {
    var e := EncodeUnit(u);
    assert forall i | 0 <= i < |e| :: (e + rest)[i] == e[i];
  }

  lemma PairReads(hi: Unit, lo: Unit, rest: Bytes)
    requires IsHigh(hi) && IsLow(lo)
    ensures var e := EncodePair(hi, lo); SeqLen((e + rest)[0]) == 4 && Units(CodePoint(e + rest)) == [hi, lo]
  {
    var e, cp: int := EncodePair(hi, lo), 0x10000 + (hi - 0xD800) * 0x400 + (lo - 0xDC00);
    var s := e + rest;
    assert s[0] == e[0] && s[1] == e[1] && s[2] == e[2] && s[3] == e[3];
    FourDigits(cp);
    assert CodePoint(s) == cp;
  }

  lemma FourDigits(cp: int)
    ensures ((cp / 0x40000 * 64 + cp / 0x1000 % 64) * 64 + cp / 64 % 64) * 64 + cp % 64 == cp
  {
    var a := cp / 64;
    var b := a / 64;
    assert cp / 0x1000 == b && cp / 0x40000 == b / 64;
  }

  /** Every sequence of units, lone surrogates included, is read back from its bytes. */
  lemma {:induction false} RoundTrip(u: seq<Unit>)
    ensures Decode(Encode(u)) == u
  {
    hide EncodeUnit, EncodePair, CodePoint, Units, SeqLen;
    if u != [] {
      if StartsWithPair(u) {
        var e, rest := EncodePair(u[0], u[1]), Encode(u[2..]);
        RoundTrip(u[2..]);
        PairReads(u[0], u[1], rest);
        assert (e + rest)[4..] == rest;
      } else {
        var e, rest := EncodeUnit(u[0]), Encode(u[1..]);
        RoundTrip(u[1..]);
        UnitReads(u[0], rest);
        assert (e + rest)[|e|..] == rest;
        assert Units(u[0]) == [u[0]] by { OneCodeUnit(u[0]); }
      }
    }
  }

  lemma OneCodeUnit(u: Unit)
    ensures Units(u) == [u]
  {
  }
}
