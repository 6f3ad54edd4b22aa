/**
 The address records that the RDMA examples exchange over TCP: "%04x:%06x:%06x:%s" with the GID as 32
 hexadecimal digits (RDMA/examples/srq_pingpong.c and pingpong.c).
 */
module DestFormat {

  datatype Option<+T> = None | Some(value: T)

  type Byte = x: nat | x < 256

  const TWO32: nat := 0x1_0000_0000
  const TWO64: nat := 0x1_0000_0000_0000_0000

  /** What an int or a uint32_t holds, read as an unsigned number. */
  type Word32 = x: nat | x < TWO32

  datatype Endian = Little | Big

  /** struct pingpong_dest; the GID is its 16 raw bytes. */
  datatype Dest = Dest(lid: Word32, qpn: Word32, psn: Word32, gid: seq<Byte>)

  /** 16-bit LIDs, 24-bit queue pair and packet sequence numbers, 128-bit GIDs. */
  ghost predicate InRange(d: Dest) {
    d.lid < 0x1_0000 && d.qpn < 0x100_0000 && d.psn < 0x100_0000 && |d.gid| == 16
  }

  // ---------------------------------------------------------------- hexadecimal numbers

  function Digit(d: nat): char
    requires d < 16
  {
    if d < 10 then ('0' as int + d) as char else ('a' as int + (d - 10)) as char
  }

  predicate IsHex(c: char) { '0' <= c <= '9' || 'a' <= c <= 'f' || 'A' <= c <= 'F' }

  function DigitValue(c: char): nat
    requires IsHex(c)
  {
    if c <= '9' then c as int - '0' as int
    else if c <= 'F' then c as int - 'A' as int + 10
    else c as int - 'a' as int + 10
  }

  /** printf("%0<w>x", n): at least `w` digits. */
  function PrintHex(n: nat, w: nat): (s: string)
    ensures |s| >= w && forall i :: 0 <= i < |s| ==> IsHex(s[i])
    decreases w, n
  {
    if w == 0 then (if n == 0 then "" else PrintHex(n / 16, 0) + [Digit(n % 16)])
    else PrintHex(n / 16, w - 1) + [Digit(n % 16)]
  }

  function Pow16(w: nat): (r: nat)
    ensures r >= 1
  {
    if w == 0 then 1 else 16 * Pow16(w - 1)
  }

  /** A number of at most `w` digits takes exactly `w` characters. */
  lemma {:induction false} PrintHexWidth(n: nat, w: nat)
    ensures |PrintHex(n, w)| == w <==> n < Pow16(w)
    decreases w
  {
    if w == 0 {
      if n > 0 { assert |PrintHex(n, 0)| >= 1; }
    } else {
      PrintHexWidth(n / 16, w - 1);
    }
  }

  /** The value of a string of digits. */
  function Value(s: string): nat
    requires forall i :: 0 <= i < |s| ==> IsHex(s[i])
  {
    if s == "" then 0 else 16 * Value(s[..|s| - 1]) + DigitValue(s[|s| - 1])
  }

  lemma {:induction false} ValueOfPrint(n: nat, w: nat)
    ensures Value(PrintHex(n, w)) == n
    decreases w, n
  {
    if !(w == 0 && n == 0) {
      var init := PrintHex(n / 16, if w == 0 then 0 else w - 1);
      assert PrintHex(n, w)[..|PrintHex(n, w)| - 1] == init;
      ValueOfPrint(n / 16, if w == 0 then 0 else w - 1);
    }
  }

  /** How many digits a string starts with. */
  function HexPrefix(s: string): (k: nat)
    ensures k <= |s| && (forall i :: 0 <= i < k ==> IsHex(s[i])) && (k < |s| ==> !IsHex(s[k]))
  {
    if s == "" || !IsHex(s[0]) then 0 else 1 + HexPrefix(s[1..])
  }

  predicate IsSpace(c: char) { c == ' ' || '\t' <= c <= '\r' }

  function SkipSpace(s: string): string { if s != "" && IsSpace(s[0]) then SkipSpace(s[1..]) else s }

  function SkipSign(s: string): string { if s != "" && (s[0] == '-' || s[0] == '+') then s[1..] else s }

  predicate Prefixed(s: string) { |s| >= 2 && s[0] == '0' && (s[1] == 'x' || s[1] == 'X') }

  /** The number as it is stored: strtoul saturates at 64 bits and negates, and 32 bits are kept. */
  function Cut32(negative: bool, n: nat): Word32 {
    (if n >= TWO64 then TWO64 - 1 else if negative then TWO64 - n else n) % 0x1_0000_0000
  }

  lemma WordIsKept(n: Word32)
    ensures Cut32(false, n) == n
  {
  }

  function SkipPrefix(s: string): string { if Prefixed(s) then s[2..] else s }

  /** The digits at the start of a text, and the rest. */
  function TakeDigits(negative: bool, s: string): Option<(Word32, string)> {
    var k := HexPrefix(s);
    if k == 0 then None else Some((Cut32(negative, Value(s[..k])), s[k..]))
  }

  /** sscanf("%x") skips white space and takes a sign and a prefix; the value and the rest of the input. */
  function ScanHex(s: string): Option<(Word32, string)> {
    var t := SkipSpace(s);
    TakeDigits(t != "" && t[0] == '-', SkipPrefix(SkipSign(t)))
  }

  lemma {:induction false} PrefixOfDigits(digits: string, rest: string)
    requires forall i :: 0 <= i < |digits| ==> IsHex(digits[i])
    requires rest == "" || !IsHex(rest[0])
    ensures HexPrefix(digits + rest) == |digits|
  {
    if digits == "" {
      assert digits + rest == rest;
    } else {
      assert (digits + rest)[1..] == digits[1..] + rest;
      PrefixOfDigits(digits[1..], rest);
    }
  }

  /** What may follow a number without being taken for a part of it. */
  predicate Ends(rest: string) { rest == "" || !(IsHex(rest[0]) || rest[0] == 'x' || rest[0] == 'X') }

  predicate Hex(s: string) { s != "" && forall i :: 0 <= i < |s| ==> IsHex(s[i]) }

  lemma TakesDigits(negative: bool, digits: string, rest: string)
    requires Hex(digits) && (rest == "" || !IsHex(rest[0]))
    ensures TakeDigits(negative, digits + rest) == Some((Cut32(negative, Value(digits)), rest))
  {
    PrefixOfDigits(digits, rest);
    assert (digits + rest)[..|digits|] == digits && (digits + rest)[|digits|..] == rest;
  }

  /** Printed digits are neither white space nor a sign nor a prefix. */
  lemma PlainDigits(digits: string, rest: string)
    requires Hex(digits) && Ends(rest)
    ensures var s := digits + rest; SkipSpace(s) == s && SkipSign(s) == s && SkipPrefix(s) == s && s[0] != '-'
  {
    var s := digits + rest;
    assert s[0] == digits[0] && IsHex(s[0]);
    if |digits| >= 2 { assert s[1] == digits[1] && IsHex(s[1]); } else { assert s[1..] == rest; }
  }

  lemma ScanDigits(digits: string, rest: string)
    requires digits != "" && Ends(rest) && forall i :: 0 <= i < |digits| ==> IsHex(digits[i])
    ensures ScanHex(digits + rest) == Some((Cut32(false, Value(digits)), rest))
  {
    PlainDigits(digits, rest);
    TakesDigits(false, digits, rest);
  }

  /** Reading back a printed number that something follows which is not a part of it. */
  lemma ScanPrinted(n: Word32, w: nat, rest: string)
    requires w >= 1 && Ends(rest)
    ensures ScanHex(PrintHex(n, w) + rest) == Some((n, rest))
  {
    ScanDigits(PrintHex(n, w), rest);
    ValueOfPrint(n, w);
    WordIsKept(n);
  }

  // ---------------------------------------------------------------- GIDs

  /** The word whose bytes, most significant first, are `b`. */
  function Join(b: seq<Byte>): nat
    requires |b| == 4
  {
    0x100_0000 * (b[0] as int) + 0x1_0000 * (b[1] as int) + 0x100 * (b[2] as int) + b[3]
  }

  function Split(v: nat): (b: seq<Byte>)
    ensures |b| == 4
  {
    [v / 0x100_0000 % 256, v / 0x1_0000 % 256, v / 0x100 % 256, v % 256]
  }

  function Reverse4(b: seq<Byte>): (r: seq<Byte>)
    requires |b| == 4
    ensures |r| == 4
  {
    [b[3], b[2], b[1], b[0]]
  }

  /** A 32-bit word in memory. */
  function Load(e: Endian, b: seq<Byte>): nat
    requires |b| == 4
  {
    match e case Big => Join(b) case Little => Join(Reverse4(b))
  }

  function Store(e: Endian, v: nat): (b: seq<Byte>)
    ensures |b| == 4
  {
    match e case Big => Split(v) case Little => Reverse4(Split(v))
  }

  /** htobe32 and be32toh: swap the bytes on a little-endian machine. */
  function Swap(e: Endian, v: nat): nat {
    match e case Big => v case Little => Join(Reverse4(Split(v)))
  }

  /** One turn of the loop of gid_to_wire_gid. */
  function WireWord(e: Endian, b: seq<Byte>): string
    requires |b| == 4
  {
    PrintHex(Swap(e, Load(e, b)), 8)
  }

  /** One turn of the loop of wire_gid_to_gid. */
  function WordBytes(e: Endian, v: nat): seq<Byte> { Store(e, Swap(e, v)) }

  lemma SplitJoin(b: seq<Byte>)
    requires |b| == 4
    ensures Split(Join(b)) == b
  {
    var v := Join(b);
    assert v % 256 == b[3];
    assert v / 0x100 == 0x1_0000 * (b[0] as int) + 0x100 * (b[1] as int) + b[2];
    assert v / 0x1_0000 == 0x100 * (b[0] as int) + b[1];
    assert v / 0x100_0000 == b[0];
  }

  lemma StoreLoad(e: Endian, b: seq<Byte>)
    requires |b| == 4
    ensures Store(e, Load(e, b)) == b
  {
    SplitJoin(b);
    SplitJoin(Reverse4(b));
  }

  lemma SwapLoad(e: Endian, b: seq<Byte>)
    requires |b| == 4
    ensures Swap(e, Load(e, b)) == Join(b)
  {
    StoreLoad(e, b);
  }

  /** Whatever the byte order of the reader, it stores the bytes that the big-endian value stands for. */
  lemma WordBytesBack(e: Endian, b: seq<Byte>)
    requires |b| == 4
    ensures WordBytes(e, Join(b)) == b
  {
    SplitJoin(b);
    StoreLoad(e, b);
    assert Reverse4(Reverse4(b)) == b;
  }

  /** The hexadecimal digits of the bytes, in memory order. */
  function HexBytes(b: seq<Byte>): (s: string)
    ensures |s| == 2 * |b|
  {
    if b == [] then "" else HexBytes(b[..|b| - 1]) + TwoDigits(b[|b| - 1])
  }

  function TwoDigits(x: Byte): string { [Digit(x / 16), Digit(x % 16)] }

  lemma PrintByte(x: nat, b: Byte, w: nat)
    ensures PrintHex(x * 256 + b, w + 2) == PrintHex(x, w) + TwoDigits(b)
  {
    var n := x * 256 + b;
    assert n % 16 == b % 16 && n / 16 == x * 16 + b / 16;
    assert n / 16 % 16 == b / 16 && n / 16 / 16 == x;
  }

  lemma HexOfFour(b: seq<Byte>)
    requires |b| == 4
    ensures HexBytes(b) == TwoDigits(b[0]) + TwoDigits(b[1]) + TwoDigits(b[2]) + TwoDigits(b[3])
  {
    assert b[..3][..2] == b[..2] && b[..2][..1] == b[..1] && b[..1][..0] == [];
    assert HexBytes(b[..1]) == TwoDigits(b[0]);
    assert HexBytes(b[..2]) == HexBytes(b[..1]) + TwoDigits(b[1]);
    assert HexBytes(b[..3]) == HexBytes(b[..2]) + TwoDigits(b[2]);
  }

  lemma PrintTwo(a: Byte, b: Byte)
    ensures PrintHex(0x100 * (a as int) + b, 4) == TwoDigits(a) + TwoDigits(b)
  {
    PrintByte(a, b, 2);
    PrintByte(0, a, 0);
  }

  lemma PrintFour(b: seq<Byte>)
    requires |b| == 4
    ensures PrintHex(Join(b), 8) == TwoDigits(b[0]) + TwoDigits(b[1]) + TwoDigits(b[2]) + TwoDigits(b[3])
  {
    var high: nat := 0x100 * (b[0] as int) + b[1];
    var upper: nat := 0x100 * high + b[2];
    assert Join(b) == upper * 256 + b[3];
    PrintByte(upper, b[3], 6);
    assert upper == high * 256 + b[2];
    PrintByte(high, b[2], 4);
    PrintTwo(b[0], b[1]);
  }

  /** The printed word is its four bytes in memory order, on either kind of machine. */
  lemma WireWordIsRaw(e: Endian, b: seq<Byte>)
    requires |b| == 4
    ensures WireWord(e, b) == HexBytes(b) && |WireWord(e, b)| == 8
  {
    SwapLoad(e, b);
    HexOfFour(b);
    PrintFour(b);
  }

  lemma {:induction false} HexBytesConcat(a: seq<Byte>, b: seq<Byte>)
    ensures HexBytes(a + b) == HexBytes(a) + HexBytes(b)
  {
    if b == [] {
      assert a + b == a;
    } else {
      assert (a + b)[..|a + b| - 1] == a + b[..|b| - 1];
      HexBytesConcat(a, b[..|b| - 1]);
    }
  }

  /** A word printed on one machine and read on another gives the same bytes. */
  lemma WordRoundTrip(writer: Endian, reader: Endian, b: seq<Byte>)
    requires |b| == 4
    ensures ScanHex(WireWord(writer, b)) == Some((Join(b), ""))
    ensures WordBytes(reader, Join(b)) == b
  {
    SwapLoad(writer, b);
    var w := WireWord(writer, b);
    assert w + "" == w;
    ScanPrinted(Join(b), 8, "");
    WordBytesBack(reader, b);
  }

  // ---------------------------------------------------------------- records

  const RECORD := 52   // sizeof "0000:000000:000000:" plus 32 digits and the terminator

  function PrintDest(d: Dest): string {
    PrintHex(d.lid, 4) + ":" + PrintHex(d.qpn, 6) + ":" + PrintHex(d.psn, 6) + ":" + HexBytes(d.gid)
  }

  /** What goes over the wire: the text and its terminator. */
  function Record(d: Dest): string { PrintDest(d) + "\0" }

  /** sscanf ends a %s at the terminator or at white space. */
  function Word(s: string): string {
    if s == "" || s[0] == '\0' || IsSpace(s[0]) then "" else [s[0]] + Word(s[1..])
  }

  function AfterColon(s: string): Option<string> {
    if s != "" && s[0] == ':' then Some(s[1..]) else None
  }

  /** The variables after the call; `gidText` is what was stored for %s, if anything. */
  datatype Scanned = Scanned(lid: Word32, qpn: Word32, psn: Word32, gidText: Option<string>)

  /** sscanf(s, "%x:%x:%x:%s", ...): the conversions before the first failing one are assigned. */
  function ScanDest(s: string, d: Scanned): Scanned {
    match ScanHex(s)
    case None => d
    case Some((lid, r0)) =>
      match AfterColon(r0)
      case None => d.(lid := lid)
      case Some(s1) => ScanNumbers(s1, d.(lid := lid))
  }

  function ScanNumbers(s: string, d: Scanned): Scanned {
    match ScanHex(s)
    case None => d
    case Some((qpn, r1)) =>
      match AfterColon(r1)
      case None => d.(qpn := qpn)
      case Some(s2) => ScanLast(s2, d.(qpn := qpn))
  }

  function ScanLast(s: string, d: Scanned): Scanned {
    match ScanHex(s)
    case None => d
    case Some((psn, r2)) =>
      match AfterColon(r2)
      case None => d.(psn := psn)
      case Some(s3) =>
        var w := Word(SkipSpace(s3));
        if w == "" then d.(psn := psn) else d.(psn := psn, gidText := Some(w))
  }

  /** A record has a fixed size exactly when the numbers fit their fields. */
  lemma RecordSize(d: Dest)
    requires |d.gid| == 16
    ensures InRange(d) ==> |PrintDest(d)| == 51 && |Record(d)| == RECORD
    ensures |Record(d)| >= RECORD
    ensures |Record(d)| == RECORD ==> InRange(d)
  {
    PrintHexWidth(d.lid, 4);
    PrintHexWidth(d.qpn, 6);
    PrintHexWidth(d.psn, 6);
    assert Pow16(4) == 0x1_0000 by { assert Pow16(2) == 256; }
    assert Pow16(6) == 0x100_0000;
  }

  lemma {:induction false} WordOfHex(digits: string, rest: string)
    requires forall i :: 0 <= i < |digits| ==> IsHex(digits[i])
    requires rest != "" && rest[0] == '\0'
    ensures Word(digits + rest) == digits
  {
    if digits == "" {
      assert digits + rest == rest;
    } else {
      assert (digits + rest)[1..] == digits[1..] + rest;
      WordOfHex(digits[1..], rest);
    }
  }

  lemma FieldBack(n: Word32, w: nat, rest: string)
    requires w >= 1
    ensures ScanHex(PrintHex(n, w) + (":" + rest)) == Some((n, ":" + rest))
    ensures AfterColon(":" + rest) == Some(rest)
  {
    ScanPrinted(n, w, ":" + rest);
    assert (":" + rest)[1..] == rest;
  }

  lemma {:induction false} HexBytesAreHex(b: seq<Byte>)
    ensures forall i :: 0 <= i < |HexBytes(b)| ==> IsHex(HexBytes(b)[i])
  {
    if b != [] { HexBytesAreHex(b[..|b| - 1]); }
  }

  /** Parsing a record, whatever was in the variables and whatever follows it, gives back what was printed. */
  lemma ScanRecord(d: Dest, junk: string, before: Scanned)
    requires |d.gid| == 16
    ensures ScanDest(Record(d) + junk, before) == Scanned(d.lid, d.qpn, d.psn, Some(HexBytes(d.gid)))
  {
    var s2 := PrintHex(d.psn, 6) + (":" + (HexBytes(d.gid) + ("\0" + junk)));
    var s1 := PrintHex(d.qpn, 6) + (":" + s2);
    assert Record(d) + junk == PrintHex(d.lid, 4) + (":" + s1);
    FieldBack(d.lid, 4, s1);
    FieldBack(d.qpn, 6, s2);
    ScanEnd(d.psn, d.gid, "\0" + junk, before.(lid := d.lid, qpn := d.qpn));
  }

  /** The last number and the GID. */
  lemma ScanEnd(psn: Word32, gid: seq<Byte>, tail: string, d: Scanned)
    requires gid != [] && tail != "" && tail[0] == '\0'
    ensures ScanLast(PrintHex(psn, 6) + (":" + (HexBytes(gid) + tail)), d)
         == d.(psn := psn, gidText := Some(HexBytes(gid)))
  {
    var s3 := HexBytes(gid) + tail;
    FieldBack(psn, 6, s3);
    HexBytesAreHex(gid);
    WordOfHex(HexBytes(gid), tail);
    assert s3[0] == HexBytes(gid)[0] && SkipSpace(s3) == s3;
  }

  // ---------------------------------------------------------------- whole GIDs

  const GID_TEXT: nat := 33   // char gid[33]

  /** sscanf("%x") of one variable: it keeps its value where there is no number. */
  function ScanOr(text: string, v: nat): nat { match ScanHex(text) case None => v case Some((n, _)) => n }

  function Group(text: string, i: nat): string
    requires 8 * i + 8 <= |text|
  {
    text[8 * i..8 * i + 8]
  }

  /** What a scan of a text leaves in a variable, given what it held. */
  type Scan = (string, nat) -> nat

  const HEX: Scan := (text, v) => ScanOr(text, v)

  /** The variable after the i-th group of eight characters. */
  function GroupValue(scan: Scan, text: string, i: nat, v0: nat): nat
    requires 8 * i + 8 <= |text|
  {
    scan(Group(text, i), if i == 0 then v0 else GroupValue(scan, text, i - 1, v0))
  }

  /** wire_gid_to_gid; `v0` is what its uninitialised variable holds. */
  function TextGid(e: Endian, text: string, v0: nat): (gid: seq<Byte>)
    requires |text| >= 32
    ensures |gid| == 16
  {
    WordBytes(e, GroupValue(HEX, text, 0, v0)) + WordBytes(e, GroupValue(HEX, text, 1, v0))
    + WordBytes(e, GroupValue(HEX, text, 2, v0)) + WordBytes(e, GroupValue(HEX, text, 3, v0))
  }

  /** The i-th word of a GID prints as the i-th group of eight digits, whatever the byte order. */
  lemma GroupOfGid(e: Endian, gid: seq<Byte>, i: nat)
    requires |gid| == 16 && i < 4
    ensures HexBytes(gid)[8 * i..8 * i + 8] == WireWord(e, gid[4 * i..4 * i + 4])
  {
    var before, word, after := gid[..4 * i], gid[4 * i..4 * i + 4], gid[4 * i + 4..];
    assert gid == before + word + after;
    HexBytesConcat(before + word, after);
    HexBytesConcat(before, word);
    WireWordIsRaw(e, word);
    assert HexBytes(gid) == HexBytes(before) + HexBytes(word) + HexBytes(after);
  }

  lemma GroupRoundTrip(reader: Endian, gid: seq<Byte>, rest: string, i: nat, v0: nat)
    requires |gid| == 16 && i < 4
    ensures WordBytes(reader, GroupValue(HEX, HexBytes(gid) + rest, i, v0)) == gid[4 * i..4 * i + 4]
  {
    var text := HexBytes(gid) + rest;
    assert Group(text, i) == HexBytes(gid)[8 * i..8 * i + 8];
    GroupOfGid(reader, gid, i);
    WordRoundTrip(reader, reader, gid[4 * i..4 * i + 4]);
  }

  /** A GID printed on one machine is read back on a machine of either byte order. */
  lemma GidRoundTrip(reader: Endian, gid: seq<Byte>, rest: string, v0: nat)
    requires |gid| == 16
    ensures TextGid(reader, HexBytes(gid) + rest, v0) == gid
  {
    var text := HexBytes(gid) + rest;
    forall i | 0 <= i < 4 ensures WordBytes(reader, GroupValue(HEX, text, i, v0)) == gid[4 * i..4 * i + 4] {
      GroupRoundTrip(reader, gid, rest, i, v0);
    }
    FourWords(reader, text, v0, gid);
  }

  lemma FourWords(e: Endian, text: string, v0: nat, gid: seq<Byte>)
    requires |text| >= 32 && |gid| == 16
    requires forall i :: 0 <= i < 4 ==> WordBytes(e, GroupValue(HEX, text, i, v0)) == gid[4 * i..4 * i + 4]
    ensures TextGid(e, text, v0) == gid
  {
    FourParts(gid, TextGid(e, text, v0), WordBytes(e, GroupValue(HEX, text, 0, v0)),
              WordBytes(e, GroupValue(HEX, text, 1, v0)), WordBytes(e, GroupValue(HEX, text, 2, v0)),
              WordBytes(e, GroupValue(HEX, text, 3, v0)));
  }

  lemma FourParts(gid: seq<Byte>, all: seq<Byte>, a: seq<Byte>, b: seq<Byte>, c: seq<Byte>, d: seq<Byte>)
    requires |gid| == 16 && all == a + b + c + d
    requires a == gid[0..4] && b == gid[4..8] && c == gid[8..12] && d == gid[12..16]
    ensures all == gid
  {
  }

  // ---------------------------------------------------------------- whole records

  /** What C demands of a text: it is terminated, and what %s takes fits the buffer. */
  predicate Readable(msg: string) {
    '\0' in msg && match ScanDest(msg, Scanned(0, 0, 0, None)).gidText case None => true case Some(w) => |w| < GID_TEXT
  }

  /** What %s stores in the buffer. */
  function Stored(gidBuf: string, word: Option<string>): (buf: string)
    requires word.Some? ==> |word.value| < |gidBuf|
    ensures |buf| == |gidBuf|
  {
    match word case None => gidBuf case Some(w) => w + "\0" + gidBuf[|w| + 1..]
  }

  datatype Parsed = Parsed(dest: Dest, gidBuf: string)

  /** sscanf and wire_gid_to_gid on any text, with what the variables and the buffer held before. */
  function ParseText(e: Endian, msg: string, before: Dest, gidBuf: string, v0: nat): (r: Parsed)
    requires Readable(msg) && |gidBuf| == GID_TEXT
    ensures |r.gidBuf| == GID_TEXT && |r.dest.gid| == 16
  {
    ScannedText(msg, Scanned(before.lid, before.qpn, before.psn, None));
    var s := ScanDest(msg, Scanned(before.lid, before.qpn, before.psn, None));
    var buf := Stored(gidBuf, s.gidText);
    Parsed(Dest(s.lid, s.qpn, s.psn, TextGid(e, buf, v0)), buf)
  }

  /** What %s takes does not depend on the variables. */
  lemma ScannedText(msg: string, d: Scanned)
    requires d.gidText == None
    ensures ScanDest(msg, d).gidText == ScanDest(msg, Scanned(0, 0, 0, None)).gidText
  {
    match ScanHex(msg)
    case Some((lid, r)) =>
      if AfterColon(r).Some? { NumbersText(AfterColon(r).value, d.(lid := lid), Scanned(lid, 0, 0, None)); }
    case None =>
  }

  lemma NumbersText(s: string, d: Scanned, d0: Scanned)
    requires d.gidText == d0.gidText == None
    ensures ScanNumbers(s, d).gidText == ScanNumbers(s, d0).gidText
  {
  }

  /** A printed record is readable, and parsing it on any machine gives the destination that was printed. */
  lemma RecordRoundTrip(reader: Endian, d: Dest, junk: string, before: Dest, gidBuf: string, v0: nat)
    requires |d.gid| == 16 && |gidBuf| == GID_TEXT
    ensures Readable(Record(d) + junk)
    ensures ParseText(reader, Record(d) + junk, before, gidBuf, v0).dest == d
  {
    var msg := Record(d) + junk;
    assert msg[|PrintDest(d)|] == '\0';
    ScanRecord(d, junk, Scanned(0, 0, 0, None));
    ScanRecord(d, junk, Scanned(before.lid, before.qpn, before.psn, None));
    GidRoundTrip(reader, d.gid, "\0" + gidBuf[33..], v0);
    assert Stored(gidBuf, Some(HexBytes(d.gid))) == HexBytes(d.gid) + ("\0" + gidBuf[33..]);
  }
}
