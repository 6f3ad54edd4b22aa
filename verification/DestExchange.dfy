/**
 The exchange of address records over a TCP connection: the send and read loops of pp_client_exch_dest and
 pp_server_exch_dest (RDMA/examples/srq_pingpong.c) and the GID loops of RDMA/examples/pingpong.c.
 */
module DestExchange {
  import opened DestFormat
  import opened DestText

  const MAX_QP := 256

  function Stream(dests: seq<Dest>): string {
    if dests == [] then "" else Stream(dests[..|dests| - 1]) + Record(dests[|dests| - 1])
  }

  ghost predicate AllInRange(dests: seq<Dest>) { forall d <- dests :: InRange(d) }

  lemma {:induction false} StreamPrefix(dests: seq<Dest>, i: nat)
    requires i <= |dests|
    ensures Stream(dests[..i]) <= Stream(dests)
  {
    if i == |dests| {
      assert dests[..i] == dests;
    } else {
      assert dests[..|dests| - 1][..i] == dests[..i];
      StreamPrefix(dests[..|dests| - 1], i);
    }
  }

  lemma StreamStep(dests: seq<Dest>, i: nat)
    requires i < |dests|
    ensures Stream(dests[..i + 1]) == Stream(dests[..i]) + Record(dests[i])
    ensures Stream(dests[..i]) + Record(dests[i]) <= Stream(dests)
  {
    assert dests[..i + 1][..i] == dests[..i];
    StreamPrefix(dests, i + 1);
  }

  lemma {:induction false} StreamLength(dests: seq<Dest>)
    requires AllInRange(dests)
    ensures |Stream(dests)| == 52 * |dests|
  {
    if dests != [] {
      assert dests[|dests| - 1] in dests;
      RecordSize(dests[|dests| - 1]);
      StreamLength(dests[..|dests| - 1]);
    }
  }

  /** One of the two streams continues the other. */
  ghost predicate Agree(a: string, b: string) { a <= b || b <= a }

  lemma PartArrived(arrived: string, all: string, before: string, part: string, at: nat, n: nat)
    requires Agree(arrived, all) && before + part <= all
    requires at == |before| && n == |part| && at + n <= |arrived|
    ensures arrived[at..][..n] == part
  {
    assert arrived[..at + n] == before + part;
  }

  /** A record that arrived whole is the record that was sent. */
  lemma ArrivedRecord(arrived: string, dests: seq<Dest>, i: nat)
    requires AllInRange(dests) && i < |dests| && Agree(arrived, Stream(dests))
    requires 52 * i + RECORD <= |arrived|
    ensures arrived[52 * i..][..RECORD] == Record(dests[i])
  {
    StreamLength(dests[..i]);
    StreamStep(dests, i);
    assert dests[i] in dests;
    RecordSize(dests[i]);
    PartArrived(arrived, Stream(dests), Stream(dests[..i]), Record(dests[i]), 52 * i, RECORD);
  }

  type Part = n: nat | n >= 1 witness 1

  /** read(2): what is there when it is called, at most `max`; without further notice that is everything. */
  function ReadSize(arrivals: seq<Part>, there: nat, max: nat): (r: nat)
    requires there > 0 && max > 0
    ensures 1 <= r <= max && r <= there
  {
    var now := if arrivals == [] || arrivals[0] > there then there else arrivals[0];
    if now <= max then now else max
  }

  /** write(2): the socket takes everything unless it is said otherwise; a negative entry is an error. */
  function Taken(accepts: seq<int>, n: nat): (w: int)
    ensures -1 <= w <= n
  {
    if accepts == [] || accepts[0] >= n then n else if accepts[0] < 0 then -1 else accepts[0]
  }

  function Rest<T>(script: seq<T>): seq<T> { if script == [] then [] else script[1..] }

  /** A connected socket, with what its next reads find and its next writes accept. */
  class Connection {
    var incoming: string      // what will still arrive before the connection breaks
    var outgoing: string      // what has been accepted for sending
    var arrivals: seq<Part>   // how much of `incoming` is there, one entry for each read
    var accepts: seq<int>     // one entry for each write

    method Read(buf: array<char>, at: nat, max: nat) returns (r: int)
      requires at + max <= buf.Length && max > 0
      modifies this`incoming, this`arrivals, buf
      ensures old(incoming) == "" ==> r == -1 && incoming == "" && buf[..] == old(buf[..])
      ensures old(incoming) != "" ==>
        && r == ReadSize(old(arrivals), |old(incoming)|, max) && incoming == old(incoming)[r..]
        && buf[..at] == old(buf[..at]) && buf[at..at + r] == old(incoming)[..r]
        && buf[at + r..] == old(buf[at + r..])
      ensures arrivals == Rest(old(arrivals))
    {
      var script := arrivals;
      arrivals := Rest(arrivals);
      if incoming == "" { return -1; }
      r := ReadSize(script, |incoming|, max);
      forall k | 0 <= k < r { buf[at + k] := incoming[k]; }
      assert buf[at..at + r] == incoming[..r];
      incoming := incoming[r..];
    }

    method Write(data: string) returns (r: int)
      modifies this`outgoing, this`accepts
      ensures r == Taken(old(accepts), |data|)
      ensures outgoing == old(outgoing) + if r < 0 then "" else data[..r]
      ensures accepts == Rest(old(accepts))
    {
      r := Taken(accepts, |data|);
      accepts := Rest(accepts);
      outgoing := outgoing + if r < 0 then "" else data[..r];
    }
  }

  /** The read loop: succeeds exactly when a whole record arrives, however it is cut into pieces. */
  method ReadRecord(c: Connection, msg: array<char>) returns (ok: bool)
    requires msg.Length == RECORD
    modifies c`incoming, c`arrivals, msg
    ensures ok <==> |old(c.incoming)| >= RECORD
    ensures ok ==> msg[..] == old(c.incoming)[..RECORD] && c.incoming == old(c.incoming)[RECORD..]
    ensures !ok ==> c.incoming == ""
  {
    var n := 0;
    while n < RECORD
      invariant 0 <= n <= RECORD && n <= |old(c.incoming)|
      invariant msg[..n] == old(c.incoming)[..n] && c.incoming == old(c.incoming)[n..]
    {
      var r := c.Read(msg, n, RECORD - n);
      if r < 0 { return false; }
      assert msg[..n + r] == msg[..n] + msg[n..n + r];
      n := n + r;
    }
    assert msg[..] == msg[..RECORD];
    return true;
  }

  /** sprintf into the middle of a buffer. */
  method Sprintf(buf: array<char>, at: nat, text: string)
    requires at + |text| < buf.Length
    modifies buf
    ensures buf[..] == old(buf[..at]) + text + "\0" + old(buf[at + |text| + 1..])
  {
    forall k | 0 <= k < |text| { buf[at + k] := text[k]; }
    buf[at + |text|] := '\0';
  }

  /** The digits of a GID are its bytes in memory order on every machine. */
  method GidToWireGid(e: Endian, gid: seq<Byte>, wgid: array<char>)
    requires |gid| == 16 && wgid.Length == GID_TEXT
    modifies wgid
    ensures wgid[..] == HexBytes(gid) + "\0" == Digits(gid) + "\0"
  {
    HexBytesAreDigits(gid);
    for i := 0 to 4
      invariant wgid[..8 * i] == HexBytes(gid)[..8 * i]
      invariant i > 0 ==> wgid[8 * i] == '\0'
    {
      var word := Load(e, gid[4 * i..4 * i + 4]);
      var text := PrintHex(Swap(e, word), 8);
      WireWordIsRaw(e, gid[4 * i..4 * i + 4]);
      GroupOfGid(e, gid, i);
      Sprintf(wgid, 8 * i, text);
      assert HexBytes(gid)[..8 * i + 8] == HexBytes(gid)[..8 * i] + HexBytes(gid)[8 * i..8 * i + 8];
    }
    assert wgid[..] == wgid[..32] + [wgid[32]] && HexBytes(gid)[..32] == HexBytes(gid);
  }

  /** memcpy from the four words to the GID. */
  method CopyWords(e: Endian, words: array<nat>) returns (gid: seq<Byte>)
    requires words.Length == 4
    ensures gid == Store(e, words[0]) + Store(e, words[1]) + Store(e, words[2]) + Store(e, words[3])
  {
    gid := Store(e, words[0]);
    for i := 1 to 4
      invariant gid == Store(e, words[0]) + (if i > 1 then Store(e, words[1]) else [])
                     + (if i > 2 then Store(e, words[2]) else []) + (if i > 3 then Store(e, words[3]) else [])
    {
      gid := gid + Store(e, words[i]);
    }
  }

  /** The loop scans four groups of eight characters; `v0` is what v32 holds at the start. */
  method ScanGroups(scan: Scan, be32toh: nat -> nat, wgid: string, v0: nat) returns (words: array<nat>)
    requires |wgid| >= 32
    ensures fresh(words) && words.Length == 4
    ensures forall j :: 0 <= j < 4 ==> words[j] == be32toh(GroupValue(scan, wgid, j, v0))
  {
    words := new nat[4];
    var v := v0;
    for i := 0 to 4
      invariant v == if i == 0 then v0 else GroupValue(scan, wgid, i - 1, v0)
      invariant forall j :: 0 <= j < i ==> words[j] == be32toh(GroupValue(scan, wgid, j, v0))
    {
      v := scan(Group(wgid, i), v);
      words[i] := be32toh(v);
    }
  }

  method WireGidToGid(e: Endian, wgid: string, v0: nat) returns (gid: seq<Byte>)
    requires |wgid| >= 32
    ensures gid == TextGid(e, wgid, v0)
  {
    var words := ScanGroups(HEX, (v: nat) => Swap(e, v), wgid, v0);
    gid := CopyWords(e, words);
  }

  method StoreWord(buf: array<char>, word: Option<string>)
    requires word.Some? ==> |word.value| < buf.Length
    modifies buf
    ensures buf[..] == Stored(old(buf[..]), word)
  {
    match word {
      case Some(w) =>
        Sprintf(buf, 0, w);
        assert old(buf[..])[..0] == "";
      case None =>
    }
  }

  /** One record of the receive loop: sscanf into the table and the buffer, and wire_gid_to_gid. */
  method ParseRecord(e: Endian, msg: array<char>, before: Dest, gid: array<char>, v0: nat) returns (d: Dest)
    requires Readable(msg[..]) && gid.Length == GID_TEXT && gid != msg
    modifies gid
    ensures Parsed(d, gid[..]) == ParseText(e, msg[..], before, old(gid[..]), v0)
  {
    ghost var text := msg[..];
    ScannedText(text, Scanned(before.lid, before.qpn, before.psn, None));
    var s := ScanDest(msg[..], Scanned(before.lid, before.qpn, before.psn, None));
    StoreWord(gid, s.gidText);
    var raw := WireGidToGid(e, gid[..], v0);
    d := Dest(s.lid, s.qpn, s.psn, raw);
  }

  // ---------------------------------------------------------------- the receive loops

  /** How many records of a table arrive whole. */
  function Whole(bytes: nat): nat { if bytes >= 52 * MAX_QP then MAX_QP else bytes / 52 }

  lemma OneMoreWhole(bytes: nat, i: nat)
    requires i < MAX_QP && 52 * i <= bytes
    ensures if bytes - 52 * i >= RECORD then i + 1 <= Whole(bytes) else i == Whole(bytes)
  {
  }

  function RecordOf(arrived: string, i: nat): string
    requires 52 * i + RECORD <= |arrived|
  {
    arrived[52 * i..][..RECORD]
  }

  ghost predicate AllReadable(arrived: string) {
    forall i: nat :: i < MAX_QP && 52 * i + RECORD <= |arrived| ==> Readable(RecordOf(arrived, i))
  }

  datatype Table = Table(rem: seq<Dest>, gidBuf: string)

  /** How one text is parsed, given what the table entry, the buffer and v32 held before. */
  type Parser = (string, Dest, string, nat) -> Parsed

  /** sscanf and wire_gid_to_gid; C says nothing about texts that are not readable. */
  function ParserOf(e: Endian): Parser {
    (msg: string, before: Dest, gidBuf: string, v0: nat) =>
      if Readable(msg) && |gidBuf| == GID_TEXT then ParseText(e, msg, before, gidBuf, v0) else Parsed(before, gidBuf)
  }

  /** The table and the buffer after `k` records; `junk` is what v32 happens to hold in each round. */
  ghost function Filled(f: Parser, arrived: string, t: Table, junk: seq<nat>, k: nat): (r: Table)
    requires |t.rem| == |junk| == MAX_QP && k <= MAX_QP && 52 * k <= |arrived|
    ensures |r.rem| == MAX_QP
  {
    if k == 0 then t
    else
      var r := Filled(f, arrived, t, junk, k - 1);
      var p := f(RecordOf(arrived, k - 1), r.rem[k - 1], r.gidBuf, junk[k - 1]);
      Table(r.rem[k - 1 := p.dest], p.gidBuf)
  }

  /** One turn of the receive loops. */
  method ReceiveOne(e: Endian, msg: array<char>, rem: array<Dest>, gid: array<char>, v0: nat, i: nat)
    requires i < rem.Length && gid.Length == GID_TEXT && gid != msg && Readable(msg[..])
    modifies rem, gid
    ensures var p := ParserOf(e)(old(msg[..]), old(rem[i]), old(gid[..]), v0);
            rem[..] == old(rem[..])[i := p.dest] && gid[..] == p.gidBuf
  {
    ghost var before := rem[..];
    var d := ParseRecord(e, msg, rem[i], gid, v0);
    assert rem[..] == before;
    rem[i] := d;
    assert rem[..] == before[i := d];
  }

  function ReadableText(): string -> bool { (msg: string) => Readable(msg) }

  /** One round of the loop over the table. */
  method ReceiveRound(c: Connection, e: Endian, msg: array<char>, rem: array<Dest>, gid: array<char>, v0: nat, i: nat,
                      ghost f: Parser, ghost readable: string -> bool)
    returns (ok: bool)
    requires f == ParserOf(e) && readable == ReadableText()
    requires msg.Length == RECORD && i < rem.Length && gid.Length == GID_TEXT && gid != msg
    requires |c.incoming| >= RECORD ==> readable(c.incoming[..RECORD])
    modifies c`incoming, c`arrivals, msg, rem, gid
    ensures ok <==> |old(c.incoming)| >= RECORD
    ensures ok ==> c.incoming == old(c.incoming)[RECORD..]
    ensures ok ==> var p := f(old(c.incoming)[..RECORD], old(rem[i]), old(gid[..]), v0);
                   rem[..] == old(rem[..])[i := p.dest] && gid[..] == p.gidBuf
    ensures !ok ==> c.incoming == "" && rem[..] == old(rem[..]) && gid[..] == old(gid[..])
  {
    ok := ReadRecord(c, msg);
    if ok { ReceiveOne(e, msg, rem, gid, v0, i); }
  }

  lemma NextRound(f: Parser, arrived: string, t: Table, junk: seq<nat>, k: nat, before: Table, after: Table)
    requires |t.rem| == |junk| == MAX_QP && k < MAX_QP && 52 * k + RECORD <= |arrived|
    requires before == Filled(f, arrived, t, junk, k)
    requires var p := f(RecordOf(arrived, k), before.rem[k], before.gidBuf, junk[k]);
      after == Table(before.rem[k := p.dest], p.gidBuf)
    ensures after == Filled(f, arrived, t, junk, k + 1)
  {
  }

  /**
   The receive loops, on any stream: exactly the records that arrive whole are parsed into the table, however
   the stream is cut; a failing read leaves the rest as it was allocated, and the caller gets the table all the same.
   */
  method ReceiveAll(c: Connection, e: Endian, rem: array<Dest>, gid: array<char>, junk: seq<nat>)
    requires rem.Length == |junk| == MAX_QP && gid.Length == GID_TEXT && AllReadable(c.incoming)
    modifies c`incoming, c`arrivals, rem, gid
    ensures Table(rem[..], gid[..])
         == Filled(ParserOf(e), old(c.incoming), Table(old(rem[..]), old(gid[..])), junk, Whole(|old(c.incoming)|))
    ensures c.incoming == if Whole(|old(c.incoming)|) == MAX_QP then old(c.incoming)[52 * MAX_QP..] else ""
  {
    ReceiveLoop(c, e, rem, gid, junk, ParserOf(e), ReadableText());
  }

  /** The same for an abstract parser. */
  method ReceiveLoop(c: Connection, e: Endian, rem: array<Dest>, gid: array<char>, junk: seq<nat>,
                     ghost f: Parser, ghost readable: string -> bool)
    requires rem.Length == |junk| == MAX_QP && gid.Length == GID_TEXT
    requires f == ParserOf(e) && readable == ReadableText()
    requires forall i: nat :: i < MAX_QP && 52 * i + RECORD <= |c.incoming| ==> readable(RecordOf(c.incoming, i))
    modifies c`incoming, c`arrivals, rem, gid
    ensures Table(rem[..], gid[..])
         == Filled(f, old(c.incoming), Table(old(rem[..]), old(gid[..])), junk, Whole(|old(c.incoming)|))
    ensures c.incoming == if Whole(|old(c.incoming)|) == MAX_QP then old(c.incoming)[52 * MAX_QP..] else ""
  {
    ghost var arrived, start := c.incoming, Table(rem[..], gid[..]);
    var msg := new char[RECORD];
    for i := 0 to MAX_QP
      invariant i <= Whole(|arrived|) && 52 * i <= |arrived| && c.incoming == arrived[52 * i..]
      invariant Table(rem[..], gid[..]) == Filled(f, arrived, start, junk, i)
    {
      ghost var before := Table(rem[..], gid[..]);
      assert 52 * i + RECORD <= |arrived| ==> readable(RecordOf(arrived, i));
      OneMoreWhole(|arrived|, i);
      var ok := ReceiveRound(c, e, msg, rem, gid, junk[i], i, f, readable);
      if !ok { return; }
      NextRound(f, arrived, start, junk, i, before, Table(rem[..], gid[..]));
    }
  }

  // ---------------------------------------------------------------- what the peer sent

  /** `f` reads `d` from `msg`, whatever the variables held. */
  ghost predicate ReadsAs(f: Parser, msg: string, d: Dest) {
    forall before: Dest, gidBuf: string, v0: nat :: |gidBuf| == GID_TEXT ==>
      f(msg, before, gidBuf, v0).dest == d && |f(msg, before, gidBuf, v0).gidBuf| == GID_TEXT
  }

  lemma RecordReadsAs(e: Endian, d: Dest)
    requires |d.gid| == 16
    ensures Readable(Record(d)) && ReadsAs(ParserOf(e), Record(d), d)
  {
    assert Record(d) + "" == Record(d);
    RecordRoundTrip(e, d, "", d, seq(GID_TEXT, _ => '\0'), 0);
    forall before: Dest, gidBuf: string, v0: nat | |gidBuf| == GID_TEXT
      ensures ParserOf(e)(Record(d), before, gidBuf, v0).dest == d
      ensures |ParserOf(e)(Record(d), before, gidBuf, v0).gidBuf| == GID_TEXT
    {
      RecordRoundTrip(e, d, "", before, gidBuf, v0);
    }
  }

  /** The whole records of a stream read as these destinations. */
  ghost predicate AllReadAs(f: Parser, arrived: string, dests: seq<Dest>) {
    forall i: nat :: i < |dests| && 52 * i + RECORD <= |arrived| ==> ReadsAs(f, RecordOf(arrived, i), dests[i])
  }

  /** A stream that starts like the peer's records is readable and reads as what the peer sent. */
  lemma PeerStream(e: Endian, arrived: string, dests: seq<Dest>)
    requires |dests| == MAX_QP && AllInRange(dests) && Agree(arrived, Stream(dests))
    ensures AllReadable(arrived) && AllReadAs(ParserOf(e), arrived, dests)
  {
    forall i: nat | i < MAX_QP && 52 * i + RECORD <= |arrived|
      ensures Readable(RecordOf(arrived, i)) && ReadsAs(ParserOf(e), RecordOf(arrived, i), dests[i])
    {
      ArrivedRecord(arrived, dests, i);
      assert dests[i] in dests;
      RecordReadsAs(e, dests[i]);
    }
  }

  lemma OneMoreRight(dests: seq<Dest>, rem: seq<Dest>, k: nat)
    requires k < |dests| == |rem|
    ensures (dests[..k] + rem[k..])[k := dests[k]] == dests[..k + 1] + rem[k + 1..]
  {
  }

  /** The records that arrive whole fill the table. */
  lemma {:induction false} FilledAs(f: Parser, arrived: string, t: Table, junk: seq<nat>, k: nat, dests: seq<Dest>)
    requires |dests| == |junk| == |t.rem| == MAX_QP && |t.gidBuf| == GID_TEXT && AllReadAs(f, arrived, dests)
    requires k <= MAX_QP && 52 * k <= |arrived|
    ensures var r := Filled(f, arrived, t, junk, k); r.rem == dests[..k] + t.rem[k..] && |r.gidBuf| == GID_TEXT
  {
    if k == 0 {
      assert dests[..0] + t.rem[0..] == t.rem;
    } else {
      FilledAs(f, arrived, t, junk, k - 1, dests);
      assert ReadsAs(f, RecordOf(arrived, k - 1), dests[k - 1]);
      OneMoreRight(dests, t.rem, k - 1);
    }
  }

  /** The table that the caller gets when `arrived` is all that comes. */
  ghost function Received(f: Parser, arrived: string, t: Table, junk: seq<nat>): seq<Dest>
    requires |t.rem| == |junk| == MAX_QP
  {
    Filled(f, arrived, t, junk, Whole(|arrived|)).rem
  }

  /** From a peer, the whole records are right and the rest of the table is untouched. */
  lemma ReceivedFromPeer(e: Endian, arrived: string, t: Table, junk: seq<nat>, dests: seq<Dest>)
    requires |dests| == |junk| == |t.rem| == MAX_QP && AllInRange(dests) && |t.gidBuf| == GID_TEXT
    requires Agree(arrived, Stream(dests))
    ensures var k := Whole(|arrived|); Received(ParserOf(e), arrived, t, junk) == dests[..k] + t.rem[k..]
  {
    PeerStream(e, arrived, dests);
    FilledAs(ParserOf(e), arrived, t, junk, Whole(|arrived|), dests);
  }

  /** A table with nothing right in it. */
  function WrongTable(dests: seq<Dest>): (rem: seq<Dest>)
    ensures |rem| == |dests| && forall i :: 0 <= i < |dests| ==> rem[i] != dests[i]
  {
    seq(|dests|, i requires 0 <= i < |dests| => dests[i].(lid := if dests[i].lid == 0 then 1 else 0))
  }

  /**
   The whole table is what the peer sent, whatever was in it before, if and only if all 256 records have
   arrived.  The source does not tell its caller whether they have.
   */
  lemma TableIsCompleteIff(e: Endian, arrived: string, gidBuf: string, junk: seq<nat>, dests: seq<Dest>)
    requires |dests| == |junk| == MAX_QP && AllInRange(dests) && Agree(arrived, Stream(dests))
    requires |gidBuf| == GID_TEXT
    ensures (forall rem: seq<Dest> :: |rem| == MAX_QP ==>
               Received(ParserOf(e), arrived, Table(rem, gidBuf), junk) == dests)
            <==> |arrived| >= 52 * 256
  {
    if |arrived| >= 52 * MAX_QP {
      forall rem: seq<Dest> | |rem| == MAX_QP
        ensures Received(ParserOf(e), arrived, Table(rem, gidBuf), junk) == dests
      {
        ReceivedFromPeer(e, arrived, Table(rem, gidBuf), junk, dests);
        assert dests[..MAX_QP] + rem[MAX_QP..] == dests;
      }
    } else {
      IncompleteTable(e, arrived, gidBuf, junk, dests, WrongTable(dests));
    }
  }

  lemma IncompleteTable(e: Endian, arrived: string, gidBuf: string, junk: seq<nat>, dests: seq<Dest>, rem: seq<Dest>)
    requires |dests| == |junk| == |rem| == MAX_QP && AllInRange(dests) && Agree(arrived, Stream(dests))
    requires |gidBuf| == GID_TEXT && |arrived| < 52 * MAX_QP && forall i :: 0 <= i < MAX_QP ==> rem[i] != dests[i]
    ensures Received(ParserOf(e), arrived, Table(rem, gidBuf), junk) != dests
  {
    var k := Whole(|arrived|);
    ReceivedFromPeer(e, arrived, Table(rem, gidBuf), junk, dests);
    assert (dests[..k] + rem[k..])[k] == rem[k];
  }

  /** One byte short: the last entry is what the allocator left there, all the others are right. */
  lemma OneByteShort(e: Endian, t: Table, junk: seq<nat>, dests: seq<Dest>) returns (arrived: string)
    requires |dests| == |junk| == |t.rem| == MAX_QP && AllInRange(dests) && |t.gidBuf| == GID_TEXT
    ensures |arrived| == 52 * 256 - 1 && arrived <= Stream(dests)
    ensures Received(ParserOf(e), arrived, t, junk) == dests[..MAX_QP - 1] + [t.rem[MAX_QP - 1]]
  {
    StreamLength(dests);
    arrived := Stream(dests)[..52 * MAX_QP - 1];
    ReceivedFromPeer(e, arrived, t, junk, dests);
    assert t.rem[MAX_QP - 1..] == [t.rem[MAX_QP - 1]];
  }

  /** One turn of the send loops: succeeds exactly when the socket takes the whole record. */
  method SendRecord(c: Connection, e: Endian, d: Dest, gid: array<char>, ghost text: string) returns (ok: bool)
    requires InRange(d) && gid.Length == GID_TEXT && text == Record(d)
    modifies c`outgoing, c`accepts, gid
    ensures |text| == RECORD && ok == TakesWhole(old(c.accepts))
    ensures c.outgoing == old(c.outgoing) + PartOf(text, old(c.accepts))
    ensures c.accepts == Rest(old(c.accepts))
  {
    GidToWireGid(e, d.gid, gid);
    HexBytesAreHex(d.gid);
    WordOfHex(HexBytes(d.gid), "\0");
    var msg := PrintHex(d.lid, 4) + ":" + PrintHex(d.qpn, 6) + ":" + PrintHex(d.psn, 6) + ":" + Word(gid[..]) + "\0";
    assert msg == text;
    RecordSize(d);
    var r := c.Write(msg);
    ok := r == RECORD;
  }

  /** The next write takes a whole record. */
  predicate TakesWhole(accepts: seq<int>) { accepts == [] || accepts[0] >= RECORD }

  /** What the next write takes of a text. */
  function PartOf(text: string, accepts: seq<int>): string {
    var w := Taken(accepts, |text|);
    if w < 0 then "" else text[..w]
  }

  /** How many bytes of `n` records are taken: the whole ones, and a part of the first that is not taken whole. */
  function SentBytes(accepts: seq<int>, n: nat): (b: nat)
    ensures b <= 52 * n
  {
    if n == 0 then 0
    else if TakesWhole(accepts) then RECORD + SentBytes(Rest(accepts), n - 1)
    else if accepts[0] < 0 then 0 else accepts[0]
  }

  lemma {:induction false} AllTakenIff(accepts: seq<int>, n: nat)
    ensures SentBytes(accepts, n) == 52 * n <==> forall i :: 0 <= i < n && i < |accepts| ==> accepts[i] >= RECORD
  {
    if n > 0 && TakesWhole(accepts) {
      AllTakenIff(Rest(accepts), n - 1);
      if accepts != [] {
        if forall i :: 0 <= i < n - 1 && i < |Rest(accepts)| ==> Rest(accepts)[i] >= RECORD {
          forall i | 0 <= i < n && i < |accepts| ensures accepts[i] >= RECORD {
            if i > 0 { assert accepts[i] == Rest(accepts)[i - 1]; }
          }
        } else {
          var i :| 0 <= i < n - 1 && i < |Rest(accepts)| && Rest(accepts)[i] < RECORD;
          assert accepts[i + 1] == Rest(accepts)[i];
        }
      }
    }
  }

  lemma NextText(all: string, at: nat, text: string, accepts: seq<int>)
    requires at + RECORD <= |all| && text == all[at..at + RECORD]
    ensures TakesWhole(accepts) ==> all[..at] + PartOf(text, accepts) == all[..at + RECORD]
    ensures !TakesWhole(accepts) ==>
      all[..at] + PartOf(text, accepts) == all[..at + if accepts[0] < 0 then 0 else accepts[0]]
  {
  }

  lemma RecordInStream(mine: seq<Dest>, i: nat)
    requires AllInRange(mine) && i < |mine|
    ensures |Stream(mine)| == 52 * |mine| && Stream(mine)[52 * i..52 * i + RECORD] == Record(mine[i])
  {
    StreamLength(mine);
    ArrivedRecord(Stream(mine), mine, i);
  }

  /**
   The send loops: all records exactly if the socket takes each of them whole.  Otherwise they stop at the first that
   it does not; what the peer can get is a beginning of the stream.
   */
  method SendAll(c: Connection, e: Endian, mine: seq<Dest>) returns (ok: bool)
    requires |mine| == MAX_QP && AllInRange(mine)
    modifies c`outgoing, c`accepts
    ensures ok <==> forall i :: 0 <= i < 256 && i < |old(c.accepts)| ==> old(c.accepts)[i] >= RECORD
    ensures |Stream(mine)| == 52 * MAX_QP
    ensures c.outgoing == old(c.outgoing) + Stream(mine)[..SentBytes(old(c.accepts), MAX_QP)]
    ensures ok ==> c.outgoing == old(c.outgoing) + Stream(mine)
  {
    AllTakenIff(c.accepts, MAX_QP);
    StreamLength(mine);
    forall i: nat | i < |mine| ensures Stream(mine)[52 * i..52 * i + RECORD] == RecordAt(mine)(i) {
      RecordInStream(mine, i);
    }
    ok := SendLoop(c, e, mine, Stream(mine), RecordAt(mine));
  }

  function RecordAt(mine: seq<Dest>): nat -> string { (i: nat) => if i < |mine| then Record(mine[i]) else "" }

  /** One turn: `all` is out up to `at`, and `total` is what will be out in the end. */
  method SendNext(c: Connection, e: Endian, d: Dest, gid: array<char>, ghost text: string,
                  ghost out: string, ghost all: string, ghost at: nat, ghost n: nat, ghost total: nat)
    returns (ok: bool)
    requires InRange(d) && gid.Length == GID_TEXT && text == Record(d) && n > 0
    requires at + RECORD <= |all| && all[at..at + RECORD] == text
    requires c.outgoing == out + all[..at] && total == at + SentBytes(c.accepts, n)
    modifies c`outgoing, c`accepts, gid
    ensures ok ==> c.outgoing == out + all[..at + RECORD] && total == at + RECORD + SentBytes(c.accepts, n - 1)
    ensures !ok ==> total < at + RECORD && c.outgoing == out + all[..total]
  {
    NextText(all, at, text, c.accepts);
    ok := SendRecord(c, e, d, gid, text);
  }

  method SendLoop(c: Connection, e: Endian, mine: seq<Dest>, ghost all: string, ghost record: nat -> string)
    returns (ok: bool)
    requires AllInRange(mine) && |all| == 52 * |mine|
    requires forall i: nat :: i < |mine| ==> record(i) == Record(mine[i])
    requires forall i: nat :: i < |mine| ==> all[52 * i..52 * i + RECORD] == record(i)
    modifies c`outgoing, c`accepts
    ensures ok <==> SentBytes(old(c.accepts), |mine|) == 52 * |mine|
    ensures c.outgoing == old(c.outgoing) + all[..SentBytes(old(c.accepts), |mine|)]
  {
    var gid := new char[GID_TEXT];
    ghost var total, out := SentBytes(c.accepts, |mine|), c.outgoing;
    for i := 0 to |mine|
      invariant c.outgoing == out + all[..52 * i] && total == 52 * i + SentBytes(c.accepts, |mine| - i)
    {
      assert mine[i] in mine;
      ok := SendNext(c, e, mine[i], gid, record(i), out, all, 52 * i, |mine| - i, total);
      if !ok { return; }
    }
    return true;
  }
}
