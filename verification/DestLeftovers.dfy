/**
 What a parsed record can depend on besides its text: wire_gid_to_gid has an uninitialised variable, and
 sscanf leaves the variables and the GID buffer alone where a conversion fails.
 */
module DestLeftovers {
  import opened DestFormat

  // ---------------------------------------------------------------- scanning stops at the terminator

  lemma {:induction false} SpaceConcat(a: string, t: string)
    requires t != "" && !IsSpace(t[0])
    ensures SkipSpace(a + t) == SkipSpace(a) + t
  {
    if a == "" {
      assert a + t == t;
    } else if IsSpace(a[0]) {
      assert (a + t)[1..] == a[1..] + t;
      SpaceConcat(a[1..], t);
    }
  }

  lemma {:induction false} DigitsConcat(a: string, t: string)
    requires t != "" && !IsHex(t[0])
    ensures HexPrefix(a + t) == HexPrefix(a)
  {
    if a == "" {
      assert a + t == t;
    } else if IsHex(a[0]) {
      assert (a + t)[1..] == a[1..] + t;
      DigitsConcat(a[1..], t);
    }
  }

  lemma PrefixConcat(a: string, t: string)
    requires t != "" && t[0] == '\0'
    ensures SkipSign(a + t) == SkipSign(a) + t && SkipPrefix(a + t) == SkipPrefix(a) + t
    ensures (a + t)[0] == '-' <==> a != "" && a[0] == '-'
  {
    if a == "" { assert a + t == t; }
  }

  function DigitsOr(negative: bool, digits: string, v: nat): nat {
    var k := HexPrefix(digits);
    if k == 0 then v else Cut32(negative, Value(digits[..k]))
  }

  lemma DigitsOrConcat(negative: bool, a: string, t: string, v: nat)
    requires t != "" && !IsHex(t[0])
    ensures DigitsOr(negative, a + t, v) == DigitsOr(negative, a, v)
  {
    DigitsConcat(a, t);
    assert (a + t)[..HexPrefix(a)] == a[..HexPrefix(a)];
  }

  lemma ScanSplit(s: string, v: nat)
    ensures var u := SkipSpace(s);
      ScanOr(s, v) == DigitsOr(u != "" && u[0] == '-', SkipPrefix(SkipSign(u)), v)
  {
  }

  /** Nothing after the terminator is looked at. */
  lemma ScanStops(a: string, t: string, v: nat)
    requires t != "" && t[0] == '\0'
    ensures ScanOr(a + t, v) == ScanOr(a, v)
  {
    var u := SkipSpace(a);
    ScanSplit(a, v);
    ScanSplit(a + t, v);
    SpaceConcat(a, t);
    PrefixConcat(u, t);
    PrefixConcat(SkipSign(u), t);
    DigitsOrConcat(u != "" && u[0] == '-', SkipPrefix(SkipSign(u)), t, v);
  }

  // ---------------------------------------------------------------- the uninitialised variable

  /** A scan that finds a number does not look at the variable. */
  predicate Finds(text: string) { ScanHex(text).Some? }

  lemma SameFromFirst(text: string, i: nat, v0: nat, v1: nat)
    requires 8 * i + 8 <= |text| && Finds(Group(text, 0))
    ensures GroupValue(HEX, text, i, v0) == GroupValue(HEX, text, i, v1)
  {
    if i > 0 { SameFromFirst(text, i - 1, v0, v1); }
  }

  /** If the first group holds no number, the first word is what the variable held. */
  lemma FirstWord(e: Endian, text: string, b: seq<Byte>)
    requires |text| >= 32 && !Finds(Group(text, 0)) && |b| == 4
    ensures TextGid(e, text, Join(b))[..4] == b
  {
    WordBytesBack(e, b);
    assert GroupValue(HEX, text, 0, Join(b)) == Join(b);
  }

  /** What wire_gid_to_gid stores is determined by its text if and only if the first group holds a number. */
  lemma GidIsDeterminedIff(e: Endian, text: string)
    requires |text| >= 32
    ensures (forall v0: nat, v1: nat :: TextGid(e, text, v0) == TextGid(e, text, v1)) <==> Finds(Group(text, 0))
  {
    if Finds(Group(text, 0)) {
      forall v0: nat, v1: nat ensures TextGid(e, text, v0) == TextGid(e, text, v1) {
        forall i | 0 <= i < 4 ensures GroupValue(HEX, text, i, v0) == GroupValue(HEX, text, i, v1) {
          SameFromFirst(text, i, v0, v1);
        }
      }
    } else {
      FirstWord(e, text, [0, 0, 0, 0]);
      FirstWord(e, text, [0, 0, 0, 1]);
    }
  }

  // ---------------------------------------------------------------- whole records

  ghost predicate SameDest(e: Endian, msg: string, a: Dest, b: Dest, g: string, h: string, v: nat, w: nat)
    requires Readable(msg) && |g| == |h| == GID_TEXT
  {
    ParseText(e, msg, a, g, v).dest == ParseText(e, msg, b, h, w).dest
  }

  /** The GID text reaches into the last group, and its first group holds a number. */
  predicate Conclusive(msg: string) {
    match ScanDest(msg, Scanned(0, 0, 0, None)).gidText
    case None => false
    case Some(text) => |text| >= 24 && Finds(text[..8])
  }

  /** If there is a GID text, all the numbers were assigned. */
  lemma AllAssigned(msg: string, d: Scanned)
    requires d.gidText == None && ScanDest(msg, Scanned(0, 0, 0, None)).gidText.Some?
    ensures ScanDest(msg, d) == ScanDest(msg, Scanned(0, 0, 0, None))
  {
    match ScanHex(msg)
    case Some((lid, r)) =>
      if AfterColon(r).Some? { AllButOne(AfterColon(r).value, d.(lid := lid), Scanned(lid, 0, 0, None)); }
    case None =>
  }

  lemma AllButOne(s: string, d: Scanned, d0: Scanned)
    requires d.gidText == None == d0.gidText && d.lid == d0.lid && ScanNumbers(s, d0).gidText.Some?
    ensures ScanNumbers(s, d) == ScanNumbers(s, d0)
  {
  }

  /** What the scan of a group depends on. */
  ghost predicate StopsAtNul(scan: Scan) {
    forall a: string, t: string, v: nat :: t != "" && t[0] == '\0' ==> scan(a + t, v) == scan(a, v)
  }

  ghost predicate Ignores(scan: Scan, text: string) { forall v: nat, w: nat :: scan(text, v) == scan(text, w) }

  lemma HexScan()
    ensures StopsAtNul(HEX) && forall text: string :: Finds(text) ==> Ignores(HEX, text)
  {
    forall a: string, t: string, v: nat | t != "" && t[0] == '\0' ensures HEX(a + t, v) == HEX(a, v) {
      ScanStops(a, t, v);
    }
  }

  /** The part of a GID text that is in a group. */
  function Piece(text: string, i: nat): string
    requires 24 <= |text| <= 32 && i < 4
  {
    if i < 3 then text[8 * i..8 * i + 8] else text[24..]
  }

  /** The last group ends with the text, even where the buffer goes on with what it held. */
  lemma StoredGroup(text: string, g: string, i: nat) returns (tail: string)
    requires 24 <= |text| < GID_TEXT == |g| && i < 4
    ensures Group(Stored(g, Some(text)), i) == Piece(text, i) + tail && (tail != "" ==> tail[0] == '\0')
  {
    var buf := Stored(g, Some(text));
    tail := if i == 3 then buf[|text|..32] else "";
    if i < 3 {
      assert Group(buf, i) == text[8 * i..8 * i + 8] + "";
    } else {
      assert Group(buf, 3) == text[24..] + tail;
    }
  }

  lemma StoredScan(scan: Scan, text: string, g: string, i: nat, v: nat)
    requires 24 <= |text| < GID_TEXT == |g| && i < 4 && StopsAtNul(scan)
    ensures scan(Group(Stored(g, Some(text)), i), v) == scan(Piece(text, i), v)
  {
    var tail := StoredGroup(text, g, i);
    if tail == "" { assert Piece(text, i) + tail == Piece(text, i); }
  }

  lemma StoredGroups(scan: Scan, text: string, g: string, h: string, i: nat, v: nat, w: nat)
    requires 24 <= |text| < GID_TEXT == |g| == |h| && i < 4 && StopsAtNul(scan) && Ignores(scan, text[..8])
    ensures GroupValue(scan, Stored(g, Some(text)), i, v) == GroupValue(scan, Stored(h, Some(text)), i, w)
  {
    if i > 0 { StoredGroups(scan, text, g, h, i - 1, v, w); }
    StoredScan(scan, text, g, i, if i == 0 then v else GroupValue(scan, Stored(g, Some(text)), i - 1, v));
    StoredScan(scan, text, h, i, if i == 0 then w else GroupValue(scan, Stored(h, Some(text)), i - 1, w));
    assert Piece(text, 0) == text[..8];
  }

  lemma ConclusiveIsEnough(e: Endian, msg: string, a: Dest, b: Dest, g: string, h: string, v: nat, w: nat)
    requires Readable(msg) && |g| == |h| == GID_TEXT && Conclusive(msg)
    ensures SameDest(e, msg, a, b, g, h, v, w)
  {
    AllAssigned(msg, Scanned(a.lid, a.qpn, a.psn, None));
    AllAssigned(msg, Scanned(b.lid, b.qpn, b.psn, None));
    var text := ScanDest(msg, Scanned(0, 0, 0, None)).gidText.value;
    HexScan();
    forall i | 0 <= i < 4
      ensures GroupValue(HEX, Stored(g, Some(text)), i, v) == GroupValue(HEX, Stored(h, Some(text)), i, w)
    {
      StoredGroups(HEX, text, g, h, i, v, w);
    }
  }

  /** What the buffer held, if the previous GID was `gid`. */
  function Held(gid: seq<Byte>): (g: string)
    requires |gid| == 16
    ensures |g| == GID_TEXT
  {
    HexBytes(gid) + "\0"
  }

  /** A short text leaves the last group as it was. */
  lemma LastGroupStays(text: Option<string>, gid: seq<Byte>)
    requires |gid| == 16 && (text.Some? ==> |text.value| < 24)
    ensures Group(Stored(Held(gid), text), 3) == HexBytes(gid)[24..32]
  {
    assert Group(Stored(Held(gid), text), 3) == Held(gid)[24..32];
  }

  lemma LastPart(a: seq<Byte>, b: seq<Byte>, c: seq<Byte>, d: seq<Byte>)
    requires |a| == |b| == |c| == |d| == 4
    ensures |a + b + c + d| == 16 && (a + b + c + d)[12] == d[0]
  {
  }

  lemma LastByte(e: Endian, buf: string, v: nat, n: nat)
    requires |buf| >= 32 && GroupValue(HEX, buf, 3, v) == n
    ensures TextGid(e, buf, v)[12] == WordBytes(e, n)[0]
  {
    LastPart(WordBytes(e, GroupValue(HEX, buf, 0, v)), WordBytes(e, GroupValue(HEX, buf, 1, v)),
             WordBytes(e, GroupValue(HEX, buf, 2, v)), WordBytes(e, n));
  }

  lemma LastWord(e: Endian, buf: string, gid: seq<Byte>, v: nat)
    requires |gid| == 16 && |buf| >= 32 && Group(buf, 3) == HexBytes(gid)[24..32]
    ensures TextGid(e, buf, v)[12] == gid[12]
  {
    var b, n := gid[12..16], Join(gid[12..16]);
    assert ScanHex(Group(buf, 3)) == Some((n, "")) && WordBytes(e, n)[0] == b[0] by {
      GroupOfGid(e, gid, 3);
      WordRoundTrip(e, e, b);
    }
    LastValue(buf, v, n);
    LastByte(e, buf, v, n);
  }

  lemma LastValue(buf: string, v: nat, n: nat)
    requires |buf| >= 32 && ScanHex(Group(buf, 3)) == Some((n, ""))
    ensures GroupValue(HEX, buf, 3, v) == n
  {
    assert HEX(Group(buf, 3), GroupValue(HEX, buf, 2, v)) == n;
  }

  function Repeated(x: Byte): (gid: seq<Byte>)
    ensures |gid| == 16
  {
    seq(16, _ => x)
  }

  /** With a short text, or none, two buffers give different destinations. */
  lemma ShortTextDiffers(e: Endian, text: Option<string>, v: nat)
    requires text.Some? ==> |text.value| < 24
    ensures TextGid(e, Stored(Held(Repeated(0)), text), v) != TextGid(e, Stored(Held(Repeated(1)), text), v)
  {
    TextOverOld(e, text, Repeated(0), v);
    TextOverOld(e, text, Repeated(1), v);
  }

  lemma TextOverOld(e: Endian, text: Option<string>, gid: seq<Byte>, v: nat)
    requires |gid| == 16 && (text.Some? ==> |text.value| < 24)
    ensures TextGid(e, Stored(Held(gid), text), v)[12] == gid[12]
  {
    LastGroupStays(text, gid);
    LastWord(e, Stored(Held(gid), text), gid, v);
  }

  /** With a text that starts without a number, two values of the variable do. */
  lemma NoNumberDiffers(e: Endian, text: string, g: string) returns (v: nat, w: nat)
    requires 24 <= |text| < GID_TEXT == |g| && !Finds(text[..8])
    ensures TextGid(e, Stored(g, Some(text)), v) != TextGid(e, Stored(g, Some(text)), w)
  {
    var buf := Stored(g, Some(text));
    assert Group(buf, 0) == text[..8];
    GidIsDeterminedIff(e, buf);
    v, w :| TextGid(e, buf, v) != TextGid(e, buf, w);
  }

  lemma InconclusiveDiffers(e: Endian, msg: string, a: Dest) returns (g: string, h: string, v: nat, w: nat)
    requires Readable(msg) && !Conclusive(msg)
    ensures |g| == |h| == GID_TEXT && !SameDest(e, msg, a, a, g, h, v, w)
  {
    ScannedText(msg, Scanned(a.lid, a.qpn, a.psn, None));
    var text := ScanDest(msg, Scanned(0, 0, 0, None)).gidText;
    g, h, v, w := Held(Repeated(0)), Held(Repeated(1)), 0, 0;
    if text.Some? && |text.value| >= 24 {
      h := g;
      v, w := NoNumberDiffers(e, text.value, g);
    } else {
      ShortTextDiffers(e, text, 0);
    }
  }

  /**
   The destination parsed from a received text depends on the text only, and on nothing that the variables and
   the buffer held, if and only if the text is conclusive.
   */
  lemma OnlyTheTextCountsIff(e: Endian, msg: string)
    requires Readable(msg)
    ensures (forall a: Dest, b: Dest, g: string, h: string, v: nat, w: nat :: |g| == |h| == GID_TEXT ==>
               SameDest(e, msg, a, b, g, h, v, w))
            <==> Conclusive(msg)
  {
    if Conclusive(msg) {
      forall a: Dest, b: Dest, g: string, h: string, v: nat, w: nat | |g| == |h| == GID_TEXT
        ensures SameDest(e, msg, a, b, g, h, v, w)
      {
        ConclusiveIsEnough(e, msg, a, b, g, h, v, w);
      }
    } else {
      var a := Dest(0, 0, 0, []);
      var g, h, v, w := InconclusiveDiffers(e, msg, a);
      assert !SameDest(e, msg, a, a, g, h, v, w);
    }
  }

  // ---------------------------------------------------------------- two texts that can be received

  /** A GID text without a digit: every word of the result is the uninitialised variable. */
  lemma NoDigits(e: Endian, b: seq<Byte>)
    requires |b| == 4
    ensures TextGid(e, seq(GID_TEXT, _ => 'z'), Join(b)) == b + b + b + b
  {
    var text := seq(GID_TEXT, _ => 'z');
    WordBytesBack(e, b);
    forall i | 0 <= i < 4 ensures !Finds(Group(text, i)) { }
    assert GroupValue(HEX, text, 0, Join(b)) == Join(b);
    assert GroupValue(HEX, text, 1, Join(b)) == Join(b);
    assert GroupValue(HEX, text, 2, Join(b)) == Join(b);
    assert GroupValue(HEX, text, 3, Join(b)) == Join(b);
  }

  /** "1:2:3:", in a message of the size of a record. */
  const NO_GID: string := "1" + (":" + ("2" + (":" + ("3" + (":" + NULS)))))

  const NULS: string := seq(46, _ => '\0')

  lemma NoGidIsScanned(d: Scanned)
    requires d.gidText == None
    ensures ScanDest(NO_GID, d) == Scanned(1, 2, 3, None)
  {
    OneDigit('1', "2" + (":" + ("3" + (":" + NULS))));
    TwoNumbers(d.(lid := 1));
  }

  lemma TwoNumbers(d: Scanned)
    requires d.gidText == None
    ensures ScanNumbers("2" + (":" + ("3" + (":" + NULS))), d) == d.(qpn := 2, psn := 3)
  {
    OneDigit('2', "3" + (":" + NULS));
    OneNumber(d.(qpn := 2));
  }

  lemma OneNumber(d: Scanned)
    requires d.gidText == None
    ensures ScanLast("3" + (":" + NULS), d) == d.(psn := 3)
  {
    OneDigit('3', NULS);
    assert NULS[0] == '\0' && SkipSpace(NULS) == NULS && Word(NULS) == "";
  }

  /** A record without a GID gets the GID of the record before it. */
  lemma NoGid(e: Endian, gid: seq<Byte>, before: Dest, v0: nat)
    requires |gid| == 16
    ensures |NO_GID| == RECORD && Readable(NO_GID)
    ensures ParseText(e, NO_GID, before, Held(gid), v0).dest == Dest(1, 2, 3, gid)
  {
    assert NO_GID[6] == '\0';
    NoGidIsScanned(Scanned(0, 0, 0, None));
    NoGidIsScanned(Scanned(before.lid, before.qpn, before.psn, None));
    GidRoundTrip(e, gid, "\0", v0);
  }

  lemma OneDigit(c: char, rest: string)
    requires '0' <= c <= '9'
    ensures ScanHex([c] + (":" + rest)) == Some((DigitValue(c), ":" + rest)) && AfterColon(":" + rest) == Some(rest)
  {
    ScanDigits([c], ":" + rest);
    assert Value([c]) == DigitValue(c) by { assert [c][..0] == ""; }
  }
}
