/** The completion timestamps of RDMA/examples/rc_pingpong.c: a wrapping clock, summed up in 64 bits. */
module RcTimestamps {
  import opened Arithmetic

  const TWO32: nat := 0x1_0000_0000
  const TWO64: nat := 0x1_0000_0000_0000_0000

  /** struct ts_params. */
  datatype TsParams = TsParams(maxDelta: nat, minDelta: nat, total: nat, prev: nat, last: bool, count: nat)

  /** The initial values that main sets. */
  const START := TsParams(0, 0xffffffff, 0, 0, false, 0)

  /** The difference of two readings; the arithmetic is that of uint64_t. */
  function Delta(mask: nat, prev: nat, now: nat): nat {
    if now >= prev then now - prev else (mask - prev + now + 1) % TWO64
  }

  /** A completed receive, with timestamps in use. */
  function Record(mask: nat, ts: TsParams, now: nat): TsParams {
    if !ts.last then ts.(prev := now, last := true)
    else
      var d := Delta(mask, ts.prev, now);
      TsParams(if ts.maxDelta > d then ts.maxDelta else d, if ts.minDelta < d then ts.minDelta else d,
               (ts.total + d) % TWO64, now, true, (ts.count + 1) % TWO32)
  }

  function RecordAll(mask: nat, ts: TsParams, readings: seq<nat>): TsParams {
    if readings == [] then ts
    else Record(mask, RecordAll(mask, ts, readings[..|readings| - 1]), readings[|readings| - 1])
  }

  // ---------------------------------------------------------------- one difference

  lemma ModStep(x: nat, y: nat, m: nat)
    requires m >= 1 && x <= y
    ensures (y - x) % m == if y % m >= x % m then y % m - x % m else y % m + m - x % m
  {
    var a, b := x / m, y / m;
    assert x == a * m + x % m && y == b * m + y % m;
    if b < a { MulGap(b, a, m); }
    assert (b - a) * m == b * m - a * m;
    if y % m >= x % m {
      ModUnique(m, y - x, b - a, y % m - x % m);
    } else {
      assert (b - a - 1) * m == (b - a) * m - m;
      ModUnique(m, y - x, b - a - 1, y % m + m - x % m);
    }
  }

  /** A clock of mask + 1 ticks measures elapsed time up to whole turns of the clock, across a wrap. */
  lemma DeltaIsElapsed(mask: nat, x: nat, y: nat)
    requires mask < TWO64 && x <= y
    ensures Delta(mask, x % (mask + 1), y % (mask + 1)) == (y - x) % (mask + 1)
  {
    ModStep(x, y, mask + 1);
  }

  /** So a difference is right exactly when less than one turn has passed. */
  lemma DeltaIsExactIff(mask: nat, x: nat, y: nat)
    requires mask < TWO64 && x <= y
    ensures Delta(mask, x % (mask + 1), y % (mask + 1)) == y - x <==> y - x <= mask
  {
    DeltaIsElapsed(mask, x, y);
    ModSmall(y - x, mask + 1);
  }

  // ---------------------------------------------------------------- a whole run

  /** What the NIC reports at real time `times[i]`. */
  function Readings(mask: nat, times: seq<nat>): seq<nat> {
    seq(|times|, i requires 0 <= i < |times| => times[i] % (mask + 1))
  }

  ghost predicate Ordered(times: seq<nat>) { forall i :: 0 <= i < |times| - 1 ==> times[i] <= times[i + 1] }

  /** Consecutive receives are less than one turn of the clock apart. */
  ghost predicate Close(mask: nat, times: seq<nat>) {
    forall i :: 0 <= i < |times| - 1 ==> Gap(times, i) <= mask
  }

  ghost function Gap(times: seq<nat>, i: nat): int
    requires i + 1 < |times|
  {
    times[i + 1] as int - times[i] as int
  }

  lemma ReadingsPrefix(mask: nat, times: seq<nat>)
    requires times != []
    ensures var n := |times| - 1;
      Readings(mask, times)[..n] == Readings(mask, times[..n]) && Readings(mask, times)[n] == times[n] % (mask + 1)
  {
  }

  /** Whatever the readings are, one difference less than readings is counted. */
  lemma {:induction false} CountOfReadings(mask: nat, readings: seq<nat>)
    ensures var ts := RecordAll(mask, START, readings);
      && (ts.last <==> readings != [])
      && ts.count == if readings == [] then 0 else (|readings| - 1) % TWO32
  {
    if |readings| >= 1 {
      CountOfReadings(mask, readings[..|readings| - 1]);
      if |readings| >= 2 { AddMod(|readings| - 2, 1, TWO32); }
    }
  }

  /** The total is last minus first real time, in 64 bits; the number of differences is one less than the receives. */
  lemma {:induction false} TotalIsElapsedTime(mask: nat, times: seq<nat>)
    requires mask < TWO64 && times != [] && Ordered(times) && Close(mask, times)
    ensures var n := |times| - 1; var ts := RecordAll(mask, START, Readings(mask, times));
      && ts.last && ts.prev == times[n] % (mask + 1)
      && times[0] <= times[n] && ts.total == (times[n] - times[0]) % TWO64
      && ts.count == n % TWO32
    decreases |times|
  {
    var n := |times| - 1;
    ReadingsPrefix(mask, times);
    if n == 0 {
      assert RecordAll(mask, START, Readings(mask, times)[..0]) == START;
    } else {
      var init := times[..n];
      assert Gap(times, n - 1) <= mask;
      forall i | 0 <= i < |init| - 1 ensures Gap(init, i) <= mask { assert Gap(times, i) <= mask; }
      TotalIsElapsedTime(mask, init);
      DeltaIsExactIff(mask, times[n - 1], times[n]);
      TotalStep(mask, RecordAll(mask, START, Readings(mask, init)), times[n] % (mask + 1), times[n] - times[n - 1],
                times[n - 1] - times[0], n - 1);
    }
  }

  /** One more reading, `d` ticks after the last. */
  lemma TotalStep(mask: nat, ts: TsParams, now: nat, d: nat, elapsed: nat, count: nat)
    requires ts.last && Delta(mask, ts.prev, now) == d
    requires ts.total == elapsed % TWO64 && ts.count == count % TWO32
    ensures Record(mask, ts, now).total == (elapsed + d) % TWO64
    ensures Record(mask, ts, now).count == (count + 1) % TWO32
  {
    AddMod(elapsed, d, TWO64);
    AddMod(count, 1, TWO32);
  }

  lemma AddMod(x: nat, y: nat, m: nat)
    requires m >= 1
    ensures (x % m + y) % m == (x + y) % m
  {
    var q := (x % m + y) / m;
    assert x + y == (x / m + q) * m + (x % m + y) % m by { assert (x / m + q) * m == (x / m) * m + q * m; }
    ModUnique(m, x + y, x / m + q, (x % m + y) % m);
  }

  /** The sum is the true elapsed time as long as that fits in 64 bits, and only then. */
  lemma TotalIsExactIff(mask: nat, times: seq<nat>)
    requires mask < TWO64 && times != [] && Ordered(times) && Close(mask, times)
    ensures times[0] <= times[|times| - 1]
    ensures RecordAll(mask, START, Readings(mask, times)).total == times[|times| - 1] - times[0]
            <==> times[|times| - 1] - times[0] < TWO64
  {
    TotalIsElapsedTime(mask, times);
    ModSmall(times[|times| - 1] - times[0], TWO64);
  }

  lemma CountIsExact(mask: nat, times: seq<nat>)
    requires mask < TWO64 && times != [] && Ordered(times) && Close(mask, times) && |times| <= TWO32
    ensures RecordAll(mask, START, Readings(mask, times)).count == |times| - 1
  {
    TotalIsElapsedTime(mask, times);
    ModSmall(|times| - 1, TWO32);
  }

  // ---------------------------------------------------------------- minimum and maximum

  /**
   The maximum is the largest gap.  The minimum starts at 0xffffffff, so it is the smallest gap only if
   some gap is at most that; otherwise it stays there, below every gap.
   */
  lemma {:induction false} MinAndMax(mask: nat, times: seq<nat>)
    requires mask < TWO64 && times != [] && Ordered(times) && Close(mask, times)
    ensures var ts := RecordAll(mask, START, Readings(mask, times));
      && (forall i :: 0 <= i < |times| - 1 ==> ts.minDelta <= Gap(times, i) <= ts.maxDelta)
      && (if |times| == 1 then ts.maxDelta == 0 else exists i :: 0 <= i < |times| - 1 && Gap(times, i) == ts.maxDelta)
      && (ts.minDelta == 0xffffffff || exists i :: 0 <= i < |times| - 1 && Gap(times, i) == ts.minDelta)
      && ts.minDelta <= 0xffffffff
    decreases |times|
  {
    var n := |times| - 1;
    ReadingsPrefix(mask, times);
    if n == 0 {
      assert RecordAll(mask, START, Readings(mask, times)[..0]) == START;
    } else {
      var init := times[..n];
      forall i | 0 <= i < n - 1 ensures Gap(init, i) == Gap(times, i) <= mask { }
      assert Gap(times, n - 1) <= mask;
      MinAndMax(mask, init);
      LastDelta(mask, times);
      var before := RecordAll(mask, START, Readings(mask, init));
      MinAndMaxStep(times, before, Record(mask, before, times[n] % (mask + 1)));
    }
  }

  /** The reading before the last was recorded, so the last difference is the last gap. */
  lemma LastDelta(mask: nat, times: seq<nat>)
    requires mask < TWO64 && |times| >= 2 && Ordered(times) && Close(mask, times)
    ensures var n := |times| - 1; var before := RecordAll(mask, START, Readings(mask, times[..n]));
      before.last && Delta(mask, before.prev, times[n] % (mask + 1)) == Gap(times, n - 1)
  {
    var n := |times| - 1;
    var init := times[..n];
    assert Gap(times, n - 1) <= mask;
    forall i | 0 <= i < |init| - 1 ensures Gap(init, i) <= mask { assert Gap(times, i) <= mask; }
    TotalIsElapsedTime(mask, init);
    DeltaIsExactIff(mask, times[n - 1], times[n]);
  }

  lemma MinAndMaxStep(times: seq<nat>, before: TsParams, after: TsParams)
    requires |times| >= 2
    requires var n := |times| - 1; var init := times[..n];
      && (forall i :: 0 <= i < n - 1 ==> Gap(init, i) == Gap(times, i))
      && (forall i :: 0 <= i < n - 1 ==> before.minDelta <= Gap(init, i) <= before.maxDelta)
      && (if n == 1 then before.maxDelta == 0 else exists i :: 0 <= i < n - 1 && Gap(init, i) == before.maxDelta)
      && (before.minDelta == 0xffffffff || exists i :: 0 <= i < n - 1 && Gap(init, i) == before.minDelta)
    requires var d := Gap(times, |times| - 2);
      && d >= 0
      && after.maxDelta == (if before.maxDelta > d then before.maxDelta else d)
      && after.minDelta == (if before.minDelta < d then before.minDelta else d)
    ensures forall i :: 0 <= i < |times| - 1 ==> after.minDelta <= Gap(times, i) <= after.maxDelta
    ensures exists i :: 0 <= i < |times| - 1 && Gap(times, i) == after.maxDelta
    ensures after.minDelta == 0xffffffff || exists i :: 0 <= i < |times| - 1 && Gap(times, i) == after.minDelta
  {
    var n := |times| - 1;
    var init := times[..n];
    forall i | 0 <= i < n ensures after.minDelta <= Gap(times, i) <= after.maxDelta {
      if i < n - 1 { assert Gap(init, i) == Gap(times, i); }
    }
    assert Gap(times, n - 1) == Gap(times, |times| - 2);
    if before.maxDelta > Gap(times, n - 1) {
      var i :| 0 <= i < n - 1 && Gap(init, i) == before.maxDelta;
      assert Gap(times, i) == after.maxDelta;
    }
    if before.minDelta < Gap(times, n - 1) && before.minDelta != 0xffffffff {
      var i :| 0 <= i < n - 1 && Gap(init, i) == before.minDelta;
      assert Gap(times, i) == after.minDelta;
    }
  }

  /** The printed minimum is the smallest gap exactly when some gap is at most 0xffffffff. */
  lemma MinIsExactIff(mask: nat, times: seq<nat>)
    requires mask < TWO64 && |times| >= 2 && Ordered(times) && Close(mask, times)
    ensures (exists i :: 0 <= i < |times| - 1 && Gap(times, i) == RecordAll(mask, START, Readings(mask, times)).minDelta)
            <==> (exists i :: 0 <= i < |times| - 1 && Gap(times, i) <= 0xffffffff)
  {
    MinAndMax(mask, times);
  }

  /** Two receives 2^32 ticks apart: the minimum that is printed is the initial value. */
  lemma WrongMin()
    ensures var times := [0, TWO32];
      && Ordered(times) && Close(TWO64 - 1, times) && Gap(times, 0) == TWO32
      && RecordAll(TWO64 - 1, START, Readings(TWO64 - 1, times)).minDelta == 0xffffffff
  {
    MinAndMax(TWO64 - 1, [0, TWO32]);
  }

  /** The average lies between minimum and maximum: count * min <= total <= count * max. */
  lemma {:induction false} AverageInRange(times: seq<nat>, lo: int, hi: int)
    requires times != [] && forall i :: 0 <= i < |times| - 1 ==> lo <= Gap(times, i) <= hi
    ensures (|times| - 1) * lo <= times[|times| - 1] - times[0] <= (|times| - 1) * hi
    decreases |times|
  {
    var n := |times| - 1;
    if n > 0 {
      var init := times[..n];
      forall i | 0 <= i < |init| - 1 ensures lo <= Gap(init, i) <= hi { assert lo <= Gap(times, i) <= hi; }
      AverageInRange(init, lo, hi);
      assert lo <= Gap(times, n - 1) <= hi;
      assert n * lo == (n - 1) * lo + lo && n * hi == (n - 1) * hi + hi;
    }
  }

  /** The average that main prints is between the minimum and the maximum it prints. */
  lemma PrintedAverageInRange(mask: nat, times: seq<nat>)
    requires mask < TWO64 && times != [] && Ordered(times) && Close(mask, times)
    requires times[|times| - 1] - times[0] < TWO64 && |times| <= TWO32
    ensures var ts := RecordAll(mask, START, Readings(mask, times));
      ts.count * ts.minDelta <= ts.total <= ts.count * ts.maxDelta
  {
    TotalIsExactIff(mask, times);
    CountIsExact(mask, times);
    MinAndMax(mask, times);
    var ts := RecordAll(mask, START, Readings(mask, times));
    AverageInRange(times, ts.minDelta, ts.maxDelta);
  }
}
