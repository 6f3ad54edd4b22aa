/**
 sock_sync_data of RDMA/rdma1.cpp, with which the syncs and the exchange of connection data are made.  Every
 read goes to the start of the buffer and may take a whole `xfer_size`, however much has come before.
 */
module RdmaSocket {
  import opened DestExchange

  function Total(cuts: seq<nat>): nat {
    if cuts == [] then 0 else Total(cuts[..|cuts| - 1]) + cuts[|cuts| - 1]
  }

  ghost predicate Sized(cuts: seq<nat>, n: nat) { forall i :: 0 <= i < |cuts| ==> 1 <= cuts[i] <= n }

  /** The sizes of the reads: each brings between 1 and `n` bytes and is made because less than `n` had come. */
  ghost predicate Reads(cuts: seq<nat>, n: nat) {
    && Sized(cuts, n)
    && (cuts != [] ==> Total(cuts[..|cuts| - 1]) < n)
  }

  /** The loop ends after these reads. */
  ghost predicate Complete(cuts: seq<nat>, n: nat) { Reads(cuts, n) && Total(cuts) >= n }

  /** The buffer after these reads. */
  ghost function AfterReads(remote: string, incoming: string, cuts: seq<nat>): (buf: string)
    requires Total(cuts) <= |incoming| && Sized(cuts, |remote|)
    ensures |buf| == |remote|
  {
    if cuts == [] then remote
    else
      var init, k := cuts[..|cuts| - 1], cuts[|cuts| - 1];
      incoming[Total(init)..Total(cuts)] + AfterReads(remote, incoming, init)[k..]
  }

  /** What the caller wants: the first `n` bytes in the buffer, and nothing else taken off the socket. */
  ghost predicate Received(remote: string, incoming: string, cuts: seq<nat>, n: nat)
    requires Total(cuts) <= |incoming| && n <= |incoming| && Sized(cuts, |remote|)
  {
    AfterReads(remote, incoming, cuts) == incoming[..n] && incoming[Total(cuts)..] == incoming[n..]
  }

  lemma AfterSnoc(remote: string, incoming: string, cuts: seq<nat>, r: nat)
    requires Sized(cuts, |remote|) && 1 <= r <= |remote| && Total(cuts) + r <= |incoming|
    ensures Sized(cuts + [r], |remote|) && Total(cuts + [r]) == Total(cuts) + r
    ensures AfterReads(remote, incoming, cuts + [r])
         == incoming[Total(cuts)..Total(cuts) + r] + AfterReads(remote, incoming, cuts)[r..]
  {
    var now := cuts + [r];
    assert now[..|now| - 1] == cuts;
  }

  lemma Overwrites(before: string, after: string, part: string)
    requires |after| == |before| && |part| <= |before|
    requires after[0..0 + |part|] == part && after[|part|..] == before[|part|..]
    ensures after == part + before[|part|..]
  {
  }

  /** What the function returns when write has accepted `w` bytes (-1 for an error) and these reads were made. */
  ghost function Result(w: int, cuts: seq<nat>, n: nat): int {
    if w < 0 || 0 < w < n then w else if Complete(cuts, n) then 0 else -1
  }

  /** A short or failed write ends the function before it reads. */
  ghost predicate Possible(w: int, cuts: seq<nat>, n: nat) {
    -1 <= w <= n && Reads(cuts, n) && (w == -1 || 0 < w < n ==> cuts == [])
  }

  function Later<T>(script: seq<T>, k: nat): seq<T> { if k <= |script| then script[k..] else [] }

  /** Each read has taken what it found, or a whole `n`, of the `there` bytes that come. */
  ghost predicate AsFound(cuts: seq<nat>, arrivals: seq<Part>, there: nat, n: nat)
    requires n > 0
  {
    cuts == [] ||
    var init, k := cuts[..|cuts| - 1], |cuts| - 1;
    && AsFound(init, arrivals, there, n) && Total(init) < there
    && cuts[k] == ReadSize(Later(arrivals, k), there - Total(init), n)
  }

  lemma FoundSnoc(cuts: seq<nat>, arrivals: seq<Part>, there: nat, n: nat, r: nat)
    requires n > 0 && AsFound(cuts, arrivals, there, n) && Total(cuts) < there
    requires r == ReadSize(Later(arrivals, |cuts|), there - Total(cuts), n)
    ensures AsFound(cuts + [r], arrivals, there, n)
  {
    assert (cuts + [r])[..|cuts|] == cuts;
  }

  /** The reads end where enough has come, or nothing more does; so there is only one way they can go. */
  lemma {:induction false} OneWay(a: seq<nat>, b: seq<nat>, arrivals: seq<Part>, there: nat, n: nat)
    requires n > 0 && |a| <= |b| && AsFound(a, arrivals, there, n) && AsFound(b, arrivals, there, n)
    ensures a <= b
  {
    if |b| > |a| {
      OneWay(a, b[..|b| - 1], arrivals, there, n);
    } else if a != [] {
      OneWay(a[..|a| - 1], b[..|b| - 1], arrivals, there, n);
      SameLast(a, b, a[..|a| - 1], arrivals, there, n);
    }
  }

  lemma SameLast(a: seq<nat>, b: seq<nat>, init: seq<nat>, arrivals: seq<Part>, there: nat, n: nat)
    requires n > 0 && |a| == |b| > 0 && a[..|a| - 1] == init && b[..|b| - 1] == init
    requires AsFound(a, arrivals, there, n) && AsFound(b, arrivals, there, n)
    ensures a == b
  {
    assert a == init + [a[|a| - 1]] && b == init + [b[|b| - 1]];
  }

  /**
   The function writes `local` once and reads until enough has come.  Its result, the buffer and both sides of the
   socket are determined by what the socket takes and by how much each read finds.
   */
  method SockSyncData(c: Connection, local: string, remote: array<char>)
    returns (rc: int, ghost w: int, ghost cuts: seq<nat>)
    requires |local| > 0 && remote.Length == |local|
    modifies c, remote
    ensures w == Taken(old(c.accepts), |local|) && c.accepts == Rest(old(c.accepts))
    ensures AsFound(cuts, old(c.arrivals), |old(c.incoming)|, |local|)
    ensures Possible(w, cuts, |local|) && rc == Result(w, cuts, |local|) && Total(cuts) <= |old(c.incoming)|
    ensures remote[..] == AfterReads(old(remote[..]), old(c.incoming), cuts)
    ensures c.incoming == old(c.incoming)[Total(cuts)..]
    ensures c.outgoing == old(c.outgoing) + if w < 0 then "" else local[..w]
    ensures old(c.accepts) == [] || old(c.accepts)[0] >= |local| ==> c.outgoing == old(c.outgoing) + local
    // a failing read means that nothing is left
    ensures rc == -1 && w != -1 ==> c.incoming == ""
  {
    var size := |local|;
    assert local[..size] == local;
    cuts := [];
    rc := c.Write(local);
    w := rc;
    if rc >= size { rc := 0; }
    if rc == 0 { rc, cuts := ReadLoop(c, remote, size); }
  }

  /** One turn of the loop. */
  method ReadOnce(c: Connection, remote: array<char>, ghost start: string, ghost all: string, ghost cuts: seq<nat>)
    returns (r: int)
    requires remote.Length > 0 && |start| == remote.Length
    requires Reads(cuts, remote.Length) && Total(cuts) <= |all| && c.incoming == all[Total(cuts)..]
    requires Total(cuts) < remote.Length && remote[..] == AfterReads(start, all, cuts)
    modifies c`incoming, c`arrivals, remote
    ensures c.arrivals == Rest(old(c.arrivals))
    ensures r == if Total(cuts) == |all| then -1 else ReadSize(old(c.arrivals), |all| - Total(cuts), remote.Length)
    ensures r == -1 ==> c.incoming == "" && remote[..] == old(remote[..])
    ensures r != -1 ==>
      && Reads(cuts + [r], remote.Length) && Total(cuts + [r]) == Total(cuts) + r <= |all|
      && c.incoming == all[Total(cuts + [r])..] && remote[..] == AfterReads(start, all, cuts + [r])
  {
    ghost var before, at := remote[..], Total(cuts);
    r := c.Read(remote, 0, remote.Length);
    if r > 0 {
      assert (cuts + [r])[..|cuts|] == cuts;
      AfterSnoc(start, all, cuts, r);
      Overwrites(before, remote[..], all[at..][..r]);
      assert all[at..][..r] == all[at..at + r] && all[at..][r..] == all[at + r..];
    }
  }

  /** The loop of reads. */
  method ReadLoop(c: Connection, remote: array<char>, size: nat) returns (rc: int, ghost cuts: seq<nat>)
    requires remote.Length == size > 0
    modifies c`incoming, c`arrivals, remote
    ensures AsFound(cuts, old(c.arrivals), |old(c.incoming)|, size)
    ensures Reads(cuts, size) && Total(cuts) <= |old(c.incoming)|
    ensures remote[..] == AfterReads(old(remote[..]), old(c.incoming), cuts)
    ensures c.incoming == old(c.incoming)[Total(cuts)..]
    ensures rc == if Complete(cuts, size) then 0 else -1
    ensures rc == -1 ==> c.incoming == ""
  {
    ghost var all, start, script := c.incoming, remote[..], c.arrivals;
    rc, cuts := 0, [];
    var total := 0;
    while rc == 0 && total < size
      invariant total == Total(cuts) <= |all| && Reads(cuts, size) && c.incoming == all[total..]
      invariant remote[..] == AfterReads(start, all, cuts)
      invariant AsFound(cuts, script, |all|, size) && (rc == 0 ==> c.arrivals == Later(script, |cuts|))
      invariant rc != 0 ==> rc == -1 && total < size && c.incoming == ""
      decreases if rc == 0 then 1 else 0, size - total
    {
      var r := ReadOnce(c, remote, start, all, cuts);
      if r > 0 {
        FoundSnoc(cuts, script, |all|, size, r);
        total := total + r;
        cuts := cuts + [r];
      } else {
        rc := r;
      }
    }
  }

  // ---------------------------------------------------------------- the callers' tests

  /** Everything was written and enough was read. */
  ghost predicate Exchanged(w: int, cuts: seq<nat>, n: nat) { w == n && Complete(cuts, n) }

  lemma OneRead(n: nat)
    requires n >= 1
    ensures Complete([n], n) && Total([n]) == n
  {
    assert [n][..0] == [];
  }

  /**
   connect_qp takes a result that is not negative for success.  For given results of write that test is right,
   whatever is read, if and only if write took everything or failed.
   */
  lemma NegativeTestIsRightIff(w: int, n: nat)
    requires n >= 1 && -1 <= w <= n
    ensures (forall cuts :: Possible(w, cuts, n) ==> (Result(w, cuts, n) >= 0 <==> Exchanged(w, cuts, n)))
            <==> w == n || w == -1
  {
    OneRead(n);
    assert Possible(w, if 0 < w < n || w == -1 then [] else [n], n);
  }

  /** The syncs take 0 for success, which is right if and only if write has taken something or failed. */
  lemma ZeroTestIsRightIff(w: int, n: nat)
    requires n >= 1 && -1 <= w <= n
    ensures (forall cuts :: Possible(w, cuts, n) ==> (Result(w, cuts, n) == 0 <==> Exchanged(w, cuts, n)))
            <==> w != 0
  {
    OneRead(n);
    if w == 0 { assert Possible(w, [n], n); }
  }

  /** 10 of the 34 bytes of connection data are written: nothing is read, and connect_qp goes on. */
  lemma ShortWrite(remote: string, incoming: string)
    requires |remote| == CON_DATA
    ensures Possible(10, [], CON_DATA) && Result(10, [], CON_DATA) >= 0
    ensures AfterReads(remote, incoming, []) == remote
  {
  }

  // ---------------------------------------------------------------- when the result is right

  lemma OneReadIsRight(remote: string, incoming: string, cuts: seq<nat>, n: nat)
    requires 1 <= n == |remote| && Complete(cuts, n) && |cuts| == 1 && Total(cuts) <= |incoming|
    ensures Received(remote, incoming, cuts, n)
  {
    assert cuts[..0] == [];
    assert AfterReads(remote, incoming, cuts[..0]) == remote;
  }

  /** With two or more reads there is something to read that ends up wrong, even if nothing too much is taken. */
  lemma SplitIsWrong(remote: string, cuts: seq<nat>, n: nat) returns (incoming: string)
    requires n >= 1 && |remote| == n && Complete(cuts, n) && |cuts| >= 2
    ensures |incoming| == Total(cuts) && AfterReads(remote, incoming, cuts) != incoming[..n]
  {
    var init, k := cuts[..|cuts| - 1], cuts[|cuts| - 1];
    FirstCut(init, n);
    incoming := seq(Total(cuts), i => if i < Total(init) then 'A' else 'B');
    assert AfterReads(remote, incoming, cuts)[0] == incoming[Total(init)];
  }

  lemma FirstCut(cuts: seq<nat>, n: nat)
    requires Sized(cuts, n)
    ensures cuts != [] ==> Total(cuts) >= 1
  {
  }

  /** For given sizes of the reads the result is right, whatever comes, if and only if there was one read. */
  lemma RightIffOneRead(remote: string, cuts: seq<nat>, n: nat)
    requires n >= 1 && |remote| == n && Complete(cuts, n)
    ensures (forall incoming: string :: |incoming| >= Total(cuts) ==> Received(remote, incoming, cuts, n))
            <==> |cuts| == 1
  {
    if |cuts| == 1 {
      forall incoming: string | |incoming| >= Total(cuts) ensures Received(remote, incoming, cuts, n) {
        OneReadIsRight(remote, incoming, cuts, n);
      }
    } else if cuts != [] {
      var incoming := SplitIsWrong(remote, cuts, n);
      assert !Received(remote, incoming, cuts, n);
    }
  }

  /** A transfer is right for every way of cutting every stream if and only if it is one of a single byte. */
  lemma AlwaysRightIffOneByte(remote: string, n: nat)
    requires n >= 1 && |remote| == n
    ensures (forall incoming: string, cuts: seq<nat> ::
               Complete(cuts, n) && Total(cuts) <= |incoming| ==> Received(remote, incoming, cuts, n))
            <==> n == 1
  {
    if n == 1 {
      forall incoming: string, cuts: seq<nat> | Complete(cuts, n) && Total(cuts) <= |incoming|
        ensures Received(remote, incoming, cuts, n)
      {
        SingleByte(cuts);
        OneReadIsRight(remote, incoming, cuts, n);
      }
    } else {
      var cuts := [1, n - 1];
      assert cuts[..1] == [1] && [1][..0] == [];
      var incoming := SplitIsWrong(remote, cuts, n);
      assert Complete(cuts, n) && !Received(remote, incoming, cuts, n);
    }
  }

  lemma SingleByte(cuts: seq<nat>)
    requires Complete(cuts, 1)
    ensures |cuts| == 1
  {
    assert cuts != [];
    FirstCut(cuts[..|cuts| - 1], 1);
  }

  lemma TwoReads(remote: string, incoming: string, a: nat, b: nat)
    requires 1 <= a < |remote| && 1 <= b <= |remote| && a + b <= |incoming|
    ensures Reads([a, b], |remote|) && Total([a, b]) == a + b
    ensures AfterReads(remote, incoming, [a, b]) == incoming[a..a + b] + (incoming[..a] + remote[a..])[b..]
  {
    AfterSnoc(remote, incoming, [], a);
    assert [] + [a] == [a] && [a] + [b] == [a, b];
    AfterSnoc(remote, incoming, [a], b);
    assert [a, b][..1] == [a];
  }

  const CON_DATA: nat := 34   // sizeof(struct cm_con_data_t)

  /**
   The connection data, cut after 20 bytes, when the peer's sync Q is already there: the end of the data
   overwrites its start, and the second read also takes the sync.
   */
  lemma CutConnectionData(remote: string, data: string)
    requires |remote| == |data| == CON_DATA
    ensures Complete([20, 15], CON_DATA) && Total([20, 15]) == |data + "Q"|
    ensures AfterReads(remote, data + "Q", [20, 15]) == data[20..] + "Q" + data[15..20] + remote[20..]
  {
    var all := data + "Q";
    TwoReads(remote, all, 20, 15);
    assert all[..20] == data[..20] && all[20..35] == data[20..] + "Q";
    assert (data[..20] + remote[20..])[15..] == data[15..20] + remote[20..];
  }
}
