/** The buffered rot13 server of LibEvent/try1_server.cpp, one connection at a time. */
module Echo {
  import opened Runs

  const MAX_LINE: nat := 16384

  // ---------------------------------------------------------------- rot13

  function Rot13Char(c: char): char {
    if 'a' <= c <= 'm' || 'A' <= c <= 'M' then (c as int + 13) as char
    else if 'n' <= c <= 'z' || 'N' <= c <= 'Z' then (c as int - 13) as char
    else c
  }

  function Rot13(s: string): string { seq(|s|, i requires 0 <= i < |s| => Rot13Char(s[i])) }

  /** `r` is 13 letters after `c` in the circle of its alphabet, or `c` itself if that is no letter. */
  predicate Rotated(c: char, r: char) {
    if 'a' <= c <= 'z' then 'a' <= r <= 'z' && r as int - 'a' as int == (c as int - 'a' as int + 13) % 26
    else if 'A' <= c <= 'Z' then 'A' <= r <= 'Z' && r as int - 'A' as int == (c as int - 'A' as int + 13) % 26
    else r == c
  }

  lemma Rot13IsRotation(c: char)
    ensures forall r :: r == Rot13Char(c) <==> Rotated(c, r)
  {
  }

  lemma Rot13CharTwice(c: char)
    ensures Rot13Char(Rot13Char(c)) == c
    ensures Rot13Char(c) == '\n' <==> c == '\n'
  {
  }

  /** The client that applies rot13 again gets its own text back. */
  lemma Rot13Twice(s: string)
    ensures Rot13(Rot13(s)) == s
  {
    forall i | 0 <= i < |s| ensures Rot13(Rot13(s))[i] == s[i] { Rot13CharTwice(s[i]); }
  }

  // ---------------------------------------------------------------- the connection

  datatype Conn = Conn(
    buffer: seq<char>, used: nat, written: nat, upto: nat,
    armed: bool,                  // the write event is added
    open: bool,
    // history
    received: string,             // every byte that recv returned
    accepted: string,             // those that found room in the buffer
    sent: string,                 // every byte that send took
    mark: nat)                    // bytes accepted when the last newline was seen

  function Fresh(): Conn {
    Conn(seq(MAX_LINE, _ => '\0'), 0, 0, 0, false, true, [], [], [], 0)
  }

  /** The body of the for loop of do_read: a full buffer drops the byte, but a newline still counts. */
  function ReadByte(e: Conn, b: char): Conn {
    var e' := if e.used < |e.buffer|
              then e.(buffer := e.buffer[e.used := Rot13Char(b)], used := e.used + 1, accepted := e.accepted + [b])
              else e;
    var e'' := e'.(received := e.received + [b]);
    if b == '\n' then e''.(armed := true, upto := e'.used, mark := |e'.accepted|) else e''
  }

  function ReadBytes(e: Conn, bytes: string): (e': Conn)
    ensures |e'.buffer| == |e.buffer|
  {
    if bytes == [] then e
    else ReadByte(ReadBytes(e, bytes[..|bytes| - 1]), bytes[|bytes| - 1])
  }

  datatype Step =
    | Recv(bytes: string)     // recv returned these bytes
    | Close                   // recv or send ended the connection
    | Send(n: nat)            // send took `n` bytes
    | WriteDone               // the end of do_write, with nothing left to send

  predicate Enabled(e: Conn, a: Step) {
    e.open &&
    match a
    case Recv(bytes) => 1 <= |bytes| <= 1024
    case Close => true
    case Send(n) => e.armed && 1 <= n && e.written + n <= e.upto && e.upto <= |e.buffer|
    case WriteDone => e.armed && e.written >= e.upto
  }

  function Apply(e: Conn, a: Step): Conn
    requires Enabled(e, a)
  {
    match a
    case Recv(bytes) => ReadBytes(e, bytes)
    case Close => e.(open := false)
    case Send(n) => e.(sent := e.sent + e.buffer[e.written..e.written + n], written := e.written + n)
    case WriteDone =>
      var e' := if e.written == e.used then e.(written := 1, upto := 1, used := 1) else e;
      e'.(armed := false)
  }

  function Next(e: Conn, a: Step): Conn { if Enabled(e, a) then Apply(e, a) else e }

  function Server(): Machine<Conn, Step> {
    Machine(Fresh(), (e, a) => Enabled(e, a), (e, a) => Next(e, a))
  }

  // ---------------------------------------------------------------- invariant

  predicate NoNewlineFrom(s: string, at: nat) { forall i :: at <= i < |s| ==> s[i] != '\n' }

  predicate NewlineBefore(s: string, at: nat)
    requires at <= |s|
  {
    at > 0 ==> s[at - 1] == '\n'
  }

  /** Nothing is lost, duplicated or reordered between the input and the output. */
  ghost predicate BufferInv(e: Conn) {
    && |e.buffer| == MAX_LINE
    && e.written <= e.upto <= e.used <= MAX_LINE
    && (e.written < e.upto ==> e.armed)
    && Rot13(e.accepted) == e.sent + e.buffer[e.written..e.used]
    && |e.accepted| <= |e.received| && (|e.accepted| == |e.received| ==> e.accepted == e.received)
  }

  /** No accepted newline comes after the mark, and unless bytes were dropped there is one before it. */
  ghost predicate MarkInv(e: Conn) {
    && e.mark <= |e.accepted| && NoNewlineFrom(e.accepted, e.mark)
    && (e.accepted == e.received ==> NewlineBefore(e.accepted, e.mark))
  }

  /** Where the mark and the counters stand. */
  ghost predicate PlaceInv(e: Conn) {
    && e.written <= e.upto <= e.used
    && |e.sent| + (e.used - e.written) == |e.accepted|
    && e.mark == |e.sent| + (e.upto - e.written)
    && (e.written > 0 ==> e.sent != "") && (e.armed ==> e.upto >= 1)
    && (e.used == 0 <==> e.accepted == "")
  }

  ghost predicate Inv(e: Conn) { BufferInv(e) && MarkInv(e) && PlaceInv(e) }

  lemma Rot13Snoc(s: string, b: char)
    ensures Rot13(s + [b]) == Rot13(s) + [Rot13Char(b)]
  {
  }

  lemma ReadByteBuffer(e: Conn, b: char)
    requires BufferInv(e)
    ensures BufferInv(ReadByte(e, b))
  {
    var e' := ReadByte(e, b);
    if e.used < MAX_LINE {
      Rot13Snoc(e.accepted, b);
      assert e'.buffer[e'.written..e'.used] == e.buffer[e.written..e.used] + [Rot13Char(b)];
    }
  }

  lemma ReadByteMark(e: Conn, b: char)
    requires MarkInv(e) && |e.accepted| <= |e.received|
    ensures MarkInv(ReadByte(e, b))
  {
    var e' := ReadByte(e, b);
    if e'.accepted == e'.received {
      assert e'.received == e.received + [b] && e'.accepted == e.accepted + [b];
      assert e.accepted == e'.accepted[..|e.accepted|] && e.received == e'.received[..|e.received|];
    }
  }

  lemma ReadByteInv(e: Conn, b: char)
    requires Inv(e)
    ensures Inv(ReadByte(e, b))
  {
    ReadByteBuffer(e, b);
    ReadByteMark(e, b);
    ReadBytePlace(e, b);
  }

  lemma ReadBytePlace(e: Conn, b: char)
    requires PlaceInv(e) && |e.buffer| == MAX_LINE
    ensures PlaceInv(ReadByte(e, b))
  {
  }

  lemma {:induction false} ReadBytesInv(e: Conn, bytes: string)
    requires Inv(e)
    ensures Inv(ReadBytes(e, bytes))
  {
    if bytes != [] {
      ReadBytesInv(e, bytes[..|bytes| - 1]);
      ReadByteInv(ReadBytes(e, bytes[..|bytes| - 1]), bytes[|bytes| - 1]);
    }
  }

  lemma StepInv(e: Conn, a: Step)
    requires Inv(e) && Enabled(e, a)
    ensures Inv(Apply(e, a))
  {
    match a
    case Recv(bytes) => ReadBytesInv(e, bytes);
    case Close =>
    case Send(n) =>
      assert e.buffer[e.written..e.used] == e.buffer[e.written..e.written + n] + e.buffer[e.written + n..e.used];
    case WriteDone =>
  }

  lemma InvInEveryRun(e: Conn)
    requires Reachable(Server(), e)
    ensures Inv(e)
  {
    var m := Server();
    var inv := (e: Conn) => Inv(e);
    assert inv(m.init);
    forall e, a | inv(e) && m.enabled(e, a) ensures inv(m.apply(e, a)) { StepInv(e, a); }
    ReachableKeeps(m, inv, e);
  }

  // ---------------------------------------------------------------- what the client sees

  lemma EveryByteRotated(accepted: string, sent: string, left: string)
    requires Rot13(accepted) == sent + left
    ensures |sent| + |left| == |accepted|
    ensures forall i :: 0 <= i < |accepted| ==> Rotated(accepted[i], if i < |sent| then sent[i] else left[i - |sent|])
  {
    assert |Rot13(accepted)| == |accepted|;
    forall i | 0 <= i < |accepted| ensures Rotated(accepted[i], if i < |sent| then sent[i] else left[i - |sent|]) {
      Rot13IsRotation(accepted[i]);
      assert Rot13(accepted)[i] == Rot13Char(accepted[i]);
    }
  }

  /**
   In every reachable state the output, followed by what is buffered, is the accepted input with every letter
   moved 13 places; so rot13 of the output is a prefix of the accepted input.
   */
  lemma OutputIsRot13OfInput(e: Conn)
    requires Reachable(Server(), e)
    ensures e.written <= e.upto <= e.used <= |e.buffer| == 16384
    ensures e.sent + e.buffer[e.written..e.used] == Rot13(e.accepted)
    ensures |e.sent| + e.used - e.written == |e.accepted|
    ensures forall i :: 0 <= i < |e.accepted| ==>
      Rotated(e.accepted[i], if i < |e.sent| then e.sent[i] else e.buffer[e.written + i - |e.sent|])
    ensures Rot13(e.sent) <= e.accepted
  {
    InvInEveryRun(e);
    assert |Rot13(e.accepted)| == |e.accepted|;
    var n := |e.sent|;
    EveryByteRotated(e.accepted, e.sent, e.buffer[e.written..e.used]);
    assert Rot13(e.accepted)[..n] == e.sent;
    forall i | 0 <= i < n ensures Rot13(e.sent)[i] == e.accepted[i] {
      assert e.sent[i] == Rot13(e.accepted)[i];
      Rot13CharTwice(e.accepted[i]);
    }
  }

  /**
   Output is pending only while the write event is armed.  When it is not, what has been sent is what was
   accepted up to the mark, and no newline was accepted after the mark.
   */
  lemma DisarmedMeansFlushed(e: Conn)
    requires Reachable(Server(), e)
    ensures e.written < e.upto ==> e.armed
    ensures e.mark <= |e.accepted| && NoNewlineFrom(e.accepted, e.mark)
    ensures !e.armed ==> e.sent == Rot13(e.accepted[..e.mark])
  {
    InvInEveryRun(e);
    assert |Rot13(e.accepted)| == |e.accepted|;
    if !e.armed {
      assert Rot13(e.accepted)[..e.mark] == e.sent;
      assert Rot13(e.accepted)[..e.mark] == Rot13(e.accepted[..e.mark]);
    }
  }

  /** Once a byte was accepted byte 0 is not free again, not even when everything has been sent. */
  lemma ByteZeroIsUsedOnce(e: Conn)
    requires Reachable(Server(), e)
    ensures e.used == 0 <==> e.accepted == ""
    ensures Enabled(e, WriteDone) && e.written == e.used ==> Apply(e, WriteDone).used == 1
  {
    InvInEveryRun(e);
  }

  // ---------------------------------------------------------------- the mark

  /** As long as no byte was dropped the mark is just after the last newline received. */
  lemma MarkAfterLastNewline(e: Conn)
    requires Reachable(Server(), e) && e.accepted == e.received
    ensures e.mark <= |e.received|
    ensures NewlineBefore(e.received, e.mark) && NoNewlineFrom(e.received, e.mark)
  {
    InvInEveryRun(e);
  }

  /**
   Reading a newline puts the mark just after a newline exactly if there is room for it, or the last byte
   that found room was one.
   */
  lemma NewlineAtMarkIff(e: Conn)
    requires Reachable(Server(), e)
    ensures var e' := ReadByte(e, '\n');
      && e'.mark == |e'.accepted| > 0
      && (NewlineBefore(e'.accepted, e'.mark) <==>
          e.used < MAX_LINE || (e.accepted != "" && e.accepted[|e.accepted| - 1] == '\n'))
  {
    InvInEveryRun(e);
    assert |Rot13(e.accepted)| == |e.accepted|;
  }

  function Taken(bytes: string, room: nat): string { if |bytes| <= room then bytes else bytes[..room] }

  lemma TakeOneMore(init: string, b: char, room: nat)
    ensures Taken(init + [b], room) == Taken(init, room) + if |init| < room then [b] else []
  {
    if |init| >= room { assert (init + [b])[..room] == init[..room]; }
  }

  lemma OneByte(e: Conn, b: char)
    ensures var e' := ReadByte(e, b); var got := if e.used < |e.buffer| then [b] else [];
      e'.accepted == e.accepted + got && e'.used == e.used + |got| && e'.received == e.received + [b]
  {
  }

  /** Nothing is dropped while there is room, and everything is while there is none. */
  lemma {:induction false} DropsOnlyWhenFull(e: Conn, bytes: string, room: nat)
    requires |e.buffer| == MAX_LINE && room == MAX_LINE - e.used
    ensures ReadBytes(e, bytes).accepted == e.accepted + Taken(bytes, room)
    ensures ReadBytes(e, bytes).used == e.used + |Taken(bytes, room)|
    ensures ReadBytes(e, bytes).received == e.received + bytes
  {
    if bytes != [] {
      var init, b := bytes[..|bytes| - 1], bytes[|bytes| - 1];
      DropsOnlyWhenFull(e, init, room);
      OneByte(ReadBytes(e, init), b);
      assert init + [b] == bytes;
      TakeOneMore(init, b, room);
    }
  }

  /** The mark after a chunk: where it was if the chunk has no newline, else after its last one, at `k`. */
  lemma MarkIsLastNewline(e: Conn, bytes: string, k: nat)
    requires Inv(e)
    ensures '\n' !in bytes ==> ReadBytes(e, bytes).mark == e.mark && ReadBytes(e, bytes).armed == e.armed
    ensures k < |bytes| && bytes[k] == '\n' && NoNewlineFrom(bytes, k + 1) ==>
      var e', taken := ReadBytes(e, bytes), Taken(bytes[..k + 1], MAX_LINE - e.used);
      e'.armed && e'.mark == |e.accepted| + |taken| && e'.upto == e.used + |taken|
  {
    if '\n' !in bytes { NoNewlineNoMark(e, bytes); }
    if k < |bytes| && bytes[k] == '\n' && NoNewlineFrom(bytes, k + 1) {
      assert bytes == bytes[..k + 1] + bytes[k + 1..];
      ReadConcat(e, bytes[..k + 1], bytes[k + 1..]);
      NoNewlineNoMark(ReadBytes(e, bytes[..k + 1]), bytes[k + 1..]);
      FinalNewline(e, bytes[..k + 1]);
    }
  }

  lemma {:induction false} NoNewlineNoMark(e: Conn, bytes: string)
    requires '\n' !in bytes
    ensures var e' := ReadBytes(e, bytes); e'.mark == e.mark && e'.armed == e.armed && e'.upto == e.upto
  {
    if bytes != [] { NoNewlineNoMark(e, bytes[..|bytes| - 1]); }
  }

  lemma FinalNewline(e: Conn, bytes: string)
    requires Inv(e) && bytes != [] && bytes[|bytes| - 1] == '\n'
    ensures var e', taken := ReadBytes(e, bytes), Taken(bytes, MAX_LINE - e.used);
      e'.armed && e'.mark == |e.accepted| + |taken| && e'.upto == e.used + |taken|
  {
    DropsOnlyWhenFull(e, bytes, MAX_LINE - e.used);
  }

  lemma {:induction false} ReadConcat(e: Conn, a: string, b: string)
    ensures ReadBytes(e, a + b) == ReadBytes(ReadBytes(e, a), b)
  {
    if b == [] {
      assert a + b == a;
    } else {
      assert (a + b)[..|a + b| - 1] == a + b[..|b| - 1];
      ReadConcat(e, a, b[..|b| - 1]);
    }
  }

  // ---------------------------------------------------------------- a dropped newline

  const CHUNK: nat := 1024
  const CHUNKS: nat := 16

  function As(n: nat): string { seq(n, _ => 'a') }

  /** After `k` full reads without a newline. */
  lemma {:induction false} Filled(k: nat) returns (e: Conn)
    requires k <= CHUNKS
    ensures Reachable(Server(), e) && e.open && e.used == CHUNK * k && e.accepted == As(CHUNK * k)
  {
    if k == 0 {
      InitReachable(Server());
      e := Fresh();
    } else {
      var before := Filled(k - 1);
      InvInEveryRun(before);
      DropsOnlyWhenFull(before, As(CHUNK), MAX_LINE - before.used);
      StaysOpen(before, As(CHUNK));
      StepReachable(Server(), before, Recv(As(CHUNK)));
      e := ReadBytes(before, As(CHUNK));
      assert As(CHUNK * (k - 1)) + As(CHUNK) == As(CHUNK * k);
    }
  }

  lemma {:induction false} StaysOpen(e: Conn, bytes: string)
    ensures ReadBytes(e, bytes).open == e.open
  {
    if bytes != [] { StaysOpen(e, bytes[..|bytes| - 1]); }
  }

  lemma ReadOne(e: Conn, b: char)
    ensures ReadBytes(e, [b]) == ReadByte(e, b)
  {
    assert [b][..0] == [];
  }

  /** A newline that finds the buffer full is dropped, but all the bytes before it are released. */
  lemma DroppedNewline() returns (e: Conn)
    ensures Reachable(Server(), e) && e.mark == |e.accepted| == MAX_LINE && e.armed
    ensures !NewlineBefore(e.accepted, e.mark)
  {
    var full := Filled(CHUNKS);
    InvInEveryRun(full);
    assert |Rot13(full.accepted)| == |full.accepted|;
    StepReachable(Server(), full, Recv(['\n']));
    ReadOne(full, '\n');
    e := ReadByte(full, '\n');
  }
}
