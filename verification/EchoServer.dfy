/** struct fd_state and the callbacks do_read and do_write, proved against module Echo. */
module EchoServer {
  import opened Echo
  import opened Runs

  /** What send returns when it takes something. */
  type Sent = n: nat | n >= 1 witness 1

  /** How a callback's loop of system calls ends. */
  datatype Ending = WouldBlock | EndOfStream | Failure | Complete

  class FdState {
    const buffer: array<char>
    var bufferUsed: nat
    var nWritten: nat
    var writeUpto: nat
    var writeArmed: bool
    var open: bool
    ghost var received: string
    ghost var accepted: string
    ghost var sent: string
    ghost var mark: nat

    ghost function State(): Conn
      reads this, buffer
    {
      Conn(buffer[..], bufferUsed, nWritten, writeUpto, writeArmed, open, received, accepted, sent, mark)
    }

    constructor ()
      ensures State() == Fresh() && fresh(buffer)
    {
      buffer := new char[MAX_LINE](_ => '\0');
      bufferUsed, nWritten, writeUpto, writeArmed, open := 0, 0, 0, false, true;
      received, accepted, sent, mark := [], [], [], 0;
      new;
      assert buffer[..] == Fresh().buffer;
    }

    /** Takes the bytes of one recv, one after the other. */
    method TakeBytes(buf: string)
      modifies this, buffer
      ensures State() == ReadBytes(old(State()), buf)
    {
      ghost var start := State();
      var i := 0;
      while i < |buf|
        invariant 0 <= i <= |buf|
        invariant State() == ReadBytes(start, buf[..i])
      {
        ghost var before := State();
        assert buf[..i + 1][..i] == buf[..i];
        TakeByte(buf[i]);
        i := i + 1;
      }
      assert buf[..i] == buf;
    }

    method TakeByte(b: char)
      modifies this, buffer
      ensures State() == ReadByte(old(State()), b)
      ensures old(bufferUsed) < buffer.Length ==>
        && bufferUsed == old(bufferUsed) + 1 && Rotated(b, buffer[old(bufferUsed)])
        && (forall i :: 0 <= i < buffer.Length && i != old(bufferUsed) ==> buffer[i] == old(buffer[i]))
      ensures old(bufferUsed) >= buffer.Length ==> bufferUsed == old(bufferUsed) && buffer[..] == old(buffer[..])
      ensures nWritten == old(nWritten)
      ensures b == '\n' ==> writeArmed && writeUpto == bufferUsed
      ensures b != '\n' ==> writeArmed == old(writeArmed) && writeUpto == old(writeUpto)
    {
      Rot13IsRotation(b);
      if bufferUsed < buffer.Length {
        buffer[bufferUsed] := Rot13Char(b);
        bufferUsed := bufferUsed + 1;
        accepted := accepted + [b];
      }
      received := received + [b];
      if b == '\n' {
        writeArmed := true;
        writeUpto := bufferUsed;
        mark := |accepted|;
      }
      assert buffer[..] == ReadByte(old(State()), b).buffer;
    }

    /** do_read: `chunks` is what recv returns until it blocks, ends or fails. */
    method DoRead(chunks: seq<string>, ending: Ending) returns (ghost run: seq<Step>)
      requires open && forall c :: c in chunks ==> 1 <= |c| <= 1024
      modifies this, buffer
      ensures Leads(Server(), old(State()), run, State())
      ensures run == Receives(chunks) + if ending == WouldBlock then [] else [Close]
      ensures open <==> ending == WouldBlock
    {
      ghost var start := State();
      var i := 0;
      while i < |chunks|
        invariant 0 <= i <= |chunks| && open
        invariant Leads(Server(), start, Receives(chunks[..i]), State())
      {
        ghost var before := State();
        assert chunks[..i + 1] == chunks[..i] + [chunks[i]];
        assert chunks[..i + 1][..i] == chunks[..i];
        TakeBytes(chunks[i]);
        StaysOpen(before, chunks[i]);
        Snoc(start, Receives(chunks[..i]), before, Recv(chunks[i]));
        i := i + 1;
      }
      assert chunks[..i] == chunks;
      run := Receives(chunks);
      if ending != WouldBlock {
        Snoc(start, run, State(), Close);
        run := run + [Close];
        open := false;
      } else {
        assert run + [] == run;
      }
    }

    /** send took `result` bytes. */
    method TakeSent(result: nat)
      requires nWritten + result <= buffer.Length
      modifies this`nWritten, this`sent
      ensures nWritten == old(nWritten) + result && sent == old(sent) + buffer[old(nWritten)..nWritten]
    {
      sent := sent + buffer[nWritten..nWritten + result];
      nWritten := nWritten + result;
    }

    /** Reuses the buffer when it is used up, and disarms the write event. */
    method EndWrite()
      requires Enabled(State(), WriteDone)
      modifies this`nWritten, this`writeUpto, this`bufferUsed, this`writeArmed
      ensures State() == Apply(old(State()), WriteDone)
    {
      if nWritten == bufferUsed {
        nWritten, writeUpto, bufferUsed := 1, 1, 1;
      }
      writeArmed := false;
    }

    /**
     do_write: sends until everything up to the last newline is out, or send refuses.  `results` is what send
     returns, at most as much as it is given; after them it would block, unless it fails.
     */
    method DoWrite(results: seq<Sent>, fails: bool) returns (ghost run: seq<Step>, ending: Ending)
      requires open && writeArmed && nWritten <= writeUpto <= bufferUsed <= buffer.Length
      modifies this
      ensures Leads(Server(), old(State()), run, State())
      ensures var todo := old(writeUpto - nWritten);
        && ending == EndingOf(results, todo, fails)
        && run == Sends(results, todo) + LastSteps(ending)
      ensures open <==> ending != Failure
      ensures ending == Complete ==> CompleteWrite(run) && !writeArmed
    {
      ghost var start := State();
      SendLoop(results);
      run := Sends(results, old(writeUpto - nWritten));
      SendsLead(start, results);
      assert State() == SentTo(start, nWritten);
      ghost var last;
      last, ending := Conclude(fails);
      RunConcat(Server(), start, run, last);
      run := run + last;
    }

    /** What do_write does when send takes nothing more, or nothing is left. */
    method Conclude(fails: bool) returns (ghost last: seq<Step>, ending: Ending)
      requires open && writeArmed && nWritten <= writeUpto <= bufferUsed <= buffer.Length
      modifies this
      ensures Leads(Server(), old(State()), last, State())
      ensures last == LastSteps(ending)
      ensures ending == if old(nWritten) == old(writeUpto) then Complete else if fails then Failure else WouldBlock
      ensures open <==> ending != Failure
      ensures ending == Complete ==> !writeArmed
    {
      ghost var before := State();
      if nWritten < writeUpto {
        if !fails { return [], WouldBlock; }
        open := false;
        ending := Failure;
      } else {
        EndWrite();
        ending := Complete;
      }
      last := LastSteps(ending);
      OneStep(before, last[0]);
    }

    /** The loop of do_write, as long as send takes something. */
    method SendLoop(results: seq<Sent>)
      requires nWritten <= writeUpto <= buffer.Length
      modifies this`nWritten, this`sent
      ensures old(nWritten) <= nWritten <= writeUpto
      ensures writeUpto - nWritten == Unsent(results, old(writeUpto - nWritten))
      ensures sent == old(sent) + buffer[old(nWritten)..nWritten]
    {
      ghost var todo := writeUpto - nWritten;
      var i := 0;
      while nWritten < writeUpto && i < |results|
        invariant old(nWritten) <= nWritten <= writeUpto && 0 <= i <= |results|
        invariant sent == old(sent) + buffer[old(nWritten)..nWritten]
        invariant Unsent(results, todo) == Unsent(results[i..], writeUpto - nWritten)
      {
        assert results[i..][1..] == results[i + 1..];
        TakeSent(if results[i] <= writeUpto - nWritten then results[i] else writeUpto - nWritten);
        i := i + 1;
      }
    }
  }

  /** The connection when everything before `to` is sent. */
  ghost function SentTo(e: Conn, to: nat): Conn
    requires e.written <= to <= |e.buffer|
  {
    e.(sent := e.sent + e.buffer[e.written..to], written := to)
  }

  lemma SentFurther(e: Conn, a: nat, b: nat)
    requires e.written <= a <= b <= |e.buffer|
    ensures SentTo(SentTo(e, a), b) == SentTo(e, b)
  {
    SplitAt(e.buffer, e.written, a, b);
  }

  /** The sends of the loop are a run of the protocol. */
  lemma {:induction false} SendsLead(e: Conn, results: seq<Sent>)
    requires e.open && e.armed && e.written <= e.upto <= |e.buffer|
    ensures var left := Unsent(results, e.upto - e.written);
      left <= e.upto - e.written && Leads(Server(), e, Sends(results, e.upto - e.written), SentTo(e, e.upto - left))
    decreases |results|
  {
    if results == [] || e.written == e.upto {
      assert SentTo(e, e.written) == e;
    } else {
      var left := e.upto - e.written;
      var n := if results[0] <= left then results[0] else left;
      var e' := Next(e, Send(n));
      assert e' == SentTo(e, e.written + n);
      SendsLead(e', results[1..]);
      SentFurther(e, e.written + n, e.upto - Unsent(results, left));
      Prepend(Server(), e, Send(n), Sends(results[1..], left - n), SentTo(e, e.upto - Unsent(results, left)));
    }
  }

  /** The sends of do_write, when `todo` bytes are to go. */
  ghost function Sends(results: seq<Sent>, todo: nat): (run: seq<Step>)
    ensures AllSends(run)
  {
    if results == [] || todo == 0 then []
    else
      var n := if results[0] <= todo then results[0] else todo;
      [Send(n)] + Sends(results[1..], todo - n)
  }

  /** What they leave to be sent. */
  ghost function Unsent(results: seq<Sent>, todo: nat): nat {
    if results == [] || todo == 0 then todo
    else Unsent(results[1..], if results[0] <= todo then todo - results[0] else 0)
  }

  ghost function EndingOf(results: seq<Sent>, todo: nat, fails: bool): Ending {
    if Unsent(results, todo) == 0 then Complete else if fails then Failure else WouldBlock
  }

  function LastSteps(ending: Ending): seq<Step> {
    match ending case Complete => [WriteDone] case Failure => [Close] case _ => []
  }

  lemma OneStep(e: Conn, a: Step)
    requires Enabled(e, a)
    ensures Leads(Server(), e, [a], Apply(e, a))
  {
    assert Exec(Server(), e, [a]) == Apply(e, a);
  }

  function Sum(results: seq<Sent>): nat { if results == [] then 0 else results[0] + Sum(results[1..]) }

  /** do_write completes if and only if send takes as much as there is to send. */
  lemma {:induction false} CompleteIff(results: seq<Sent>, todo: nat, fails: bool)
    ensures EndingOf(results, todo, fails) == Complete <==> Sum(results) >= todo
  {
    if results != [] && todo > 0 {
      CompleteIff(results[1..], if results[0] <= todo then todo - results[0] else 0, fails);
    }
  }

  ghost predicate AllSends(run: seq<Step>) { forall i :: 0 <= i < |run| ==> run[i].Send? }

  /** do_write ran to its end. */
  ghost predicate CompleteWrite(run: seq<Step>) {
    run != [] && run[|run| - 1] == WriteDone && AllSends(run[..|run| - 1])
  }

  lemma SplitAt(s: string, a: nat, b: nat, c: nat)
    requires a <= b <= c <= |s|
    ensures s[a..c] == s[a..b] + s[b..c]
  {
  }

  /** However the sends are cut up, a complete do_write puts out exactly the bytes up to the last newline. */
  lemma {:induction false} CompleteWriteSendsAll(e: Conn, run: seq<Step>)
    requires e.written <= e.upto <= |e.buffer|
    requires ValidRun(Server(), e, run) && CompleteWrite(run)
    ensures Exec(Server(), e, run).sent == e.sent + e.buffer[e.written..e.upto]
    decreases |run|
  {
    if |run| == 1 {
      assert run[1..] == [];
    } else {
      var n := run[0].n;
      assert run[1..][..|run| - 2] == run[..|run| - 1][1..];
      CompleteWriteSendsAll(Next(e, run[0]), run[1..]);
      SplitAt(e.buffer, e.written, e.written + n, e.upto);
    }
  }

  function Receives(chunks: seq<string>): seq<Step> {
    if chunks == [] then [] else Receives(chunks[..|chunks| - 1]) + [Recv(chunks[|chunks| - 1])]
  }

  /** A run can be extended by one step. */
  lemma Snoc(s: Conn, run: seq<Step>, t: Conn, a: Step)
    requires Leads(Server(), s, run, t) && Enabled(t, a)
    ensures Leads(Server(), s, run + [a], Apply(t, a))
  {
    assert Exec(Server(), t, [a]) == Apply(t, a);
    RunConcat(Server(), s, run, [a]);
  }
}
