/** The motor history in its own form: four cyclic arrays written by update_statistics and copied by
    generate_html_file. Each method here is a task that runs without interference; HistoryRing covers
    the interleavings. */
module MotorHistory {
  import opened Division
  import opened HistoryRing

  const TICK_RANGE: nat := 0x1_0000_0000
  const SUM_RANGE: nat := 0x1_0000_0000_0000_0000

  class History {
    const size: nat
    const cyclicSize: nat
    const desired: array<int>
    const position: array<int>
    const duty: array<int>
    const stamp: array<int>
    var startIndex: nat
    ghost var samples: seq<Record>

    ghost predicate Valid()
      reads this, desired, position, duty, stamp
    {
      && 0 < size < cyclicSize
      && desired.Length == position.Length == duty.Length == stamp.Length == cyclicSize
      && desired != position && desired != duty && desired != stamp
      && position != duty && position != stamp && duty != stamp
      && Inv(size, cyclicSize, Quiet())
    }

    /** The state of HistoryRing between two samples. */
    ghost function Quiet(): State
      reads this, desired, position, duty, stamp
    {
      State(Memory(desired[..], position[..], duty[..], stamp[..], startIndex),
            Idle, map[], samples, |samples|)
    }

    constructor (size: nat, cyclicSize: nat)
      requires 0 < size < cyclicSize
      ensures Valid() && samples == [] && this.size == size
      ensures fresh(desired) && fresh(position) && fresh(duty) && fresh(stamp)
    {
      this.size, this.cyclicSize := size, cyclicSize;
      desired := new int[cyclicSize](_ => 0);
      position := new int[cyclicSize](_ => 0);
      duty := new int[cyclicSize](_ => 0);
      stamp := new int[cyclicSize](_ => 0);
      startIndex, samples := 0, [];
      new;
      assert desired[..] == position[..] == duty[..] == stamp[..] == Zeros(cyclicSize);
      InitKeeps(size, cyclicSize);
    }

    /** The stores of one turn of update_statistics. */
    method Append(desiredPosition: int, actualPosition: int, pwmDuty: int, time: int)
      requires Valid()
      modifies this`startIndex, this`samples, desired, position, duty, stamp
      ensures Valid()
      ensures samples == old(samples) + [Record(desiredPosition, actualPosition, pwmDuty, time)]
    {
      ghost var rec := Record(desiredPosition, actualPosition, pwmDuty, time);
      InvInBounds(size, cyclicSize, Quiet());
      SampledKeeps(size, cyclicSize, Quiet(), rec);
      ghost var expected := Sampled(size, cyclicSize, Quiet().mem, rec);
      var i := (startIndex + size) % cyclicSize;
      desired[i] := desiredPosition;
      position[i] := actualPosition;
      duty[i] := pwmDuty;
      stamp[i] := time;
      startIndex := (startIndex + 1) % cyclicSize;
      samples := samples + [rec];
      assert Quiet().mem == expected;
    }

    /** One turn of the copying loop. */
    method CopyEntry(i: nat, k: nat, xActual: array<real>, yActual: array<real>, yDesired: array<real>,
                     yPwm: array<real>)
      requires i < desired.Length == position.Length == duty.Length == stamp.Length
      requires k < xActual.Length == yActual.Length == yDesired.Length == yPwm.Length
      requires xActual != yActual && xActual != yDesired && xActual != yPwm
      requires yActual != yDesired && yActual != yPwm && yDesired != yPwm
      modifies xActual, yActual, yDesired, yPwm
      ensures yDesired[..] == old(yDesired[..])[k := desired[i] as real]
      ensures yActual[..] == old(yActual[..])[k := position[i] as real]
      ensures yPwm[..] == old(yPwm[..])[k := duty[i] as real]
      ensures xActual[..] == old(xActual[..])[k := stamp[i] as real]
    {
      yDesired[k] := desired[i] as real;
      yActual[k] := position[i] as real;
      yPwm[k] := duty[i] as real;
      xActual[k] := stamp[i] as real;
    }

    /** The copying loop of generate_html_file, in exact arithmetic, where w is what the slots from the
        start index hold. */
    method CopySlots(xActual: array<real>, yActual: array<real>, yDesired: array<real>, yPwm: array<real>,
                     ghost w: seq<Record>, ghost since: nat)
      requires 0 < size < cyclicSize && startIndex == Slot(since, cyclicSize) && |w| == size
      requires desired.Length == position.Length == duty.Length == stamp.Length == cyclicSize
      requires forall k | 0 <= k < size ::
                 w[k] == Record(desired[Slot(since + k, cyclicSize)], position[Slot(since + k, cyclicSize)],
                                duty[Slot(since + k, cyclicSize)], stamp[Slot(since + k, cyclicSize)])
      requires xActual.Length == yActual.Length == yDesired.Length == yPwm.Length == size
      requires xActual != yActual && xActual != yDesired && xActual != yPwm
      requires yActual != yDesired && yActual != yPwm && yDesired != yPwm
      modifies xActual, yActual, yDesired, yPwm
      ensures yDesired[..] == Values(w, 0) && yActual[..] == Values(w, 1)
      ensures yPwm[..] == Values(w, 2) && xActual[..] == Values(w, 3)
    {
      var s := startIndex;
      var i := s;
      var copied := 0;
      LoopTest(size, cyclicSize, since, 0);
      while i != (s + size) % cyclicSize
        invariant 0 <= copied <= size && i == Slot(since + copied, cyclicSize)
        invariant i == (s + size) % cyclicSize <==> copied == size
        invariant yDesired[..copied] == Values(w, 0)[..copied] && yActual[..copied] == Values(w, 1)[..copied]
        invariant yPwm[..copied] == Values(w, 2)[..copied] && xActual[..copied] == Values(w, 3)[..copied]
        decreases size - copied
      {
        assert w[copied] == Record(desired[i], position[i], duty[i], stamp[i]);
        CopyEntry(i, copied, xActual, yActual, yDesired, yPwm);
        NextSlot(size, cyclicSize, since, copied);
        i := (i + 1) % cyclicSize;
        copied := copied + 1;
      }
    }

    /** The copy that generate_html_file makes of the window. */
    method CopyWindow(xActual: array<real>, yActual: array<real>, yDesired: array<real>, yPwm: array<real>)
      requires Valid()
      requires xActual.Length == yActual.Length == yDesired.Length == yPwm.Length == size
      requires xActual != yActual && xActual != yDesired && xActual != yPwm
      requires yActual != yDesired && yActual != yPwm && yDesired != yPwm
      modifies xActual, yActual, yDesired, yPwm
      ensures var w := LastRecords(size, samples);
              && yDesired[..] == Values(w, 0) && yActual[..] == Values(w, 1)
              && yPwm[..] == Values(w, 2) && xActual[..] == Values(w, 3)
    {
      InvInBounds(size, cyclicSize, Quiet());
      WindowInSlots(size, cyclicSize, Quiet());
      CopySlots(xActual, yActual, yDesired, yPwm, LastRecords(size, samples), |samples|);
    }
  }

  /** One column of a window as floats: 0 the desired position, 1 the position, 2 the duty, 3 the stamp. */
  function Values(w: seq<Record>, column: nat): (r: seq<real>)
    requires column < COLUMNS
    ensures |r| == |w|
  {
    seq(|w|, k requires 0 <= k < |w| => Field(w[k], column) as real)
  }

  lemma NextSlot(n: nat, c: nat, since: nat, k: nat)
    requires 0 < n < c && k < n
    ensures (Slot(since + k, c) + 1) % c == Slot(since + k + 1, c)
    ensures Slot(since + k + 1, c) == (Slot(since, c) + n) % c <==> k + 1 == n
  {
    SlotPlus(since + k, 1, c);
    assert Slot(since + (k + 1), c) == (Slot(since, c) + n) % c <==> k + 1 == n by {
      LoopTest(n, c, since, k + 1);
    }
  }

  /** What the slot of the m-th log record holds. */
  ghost function RecordAt(mem: Memory, m: nat, c: nat): Record
    requires c > 0 && mem.Sized(c)
  {
    var p := Slot(m, c);
    Record(mem.desired[p], mem.position[p], mem.duty[p], mem.stamp[p])
  }

  lemma WindowInSlots(n: nat, c: nat, s: State)
    requires 0 < n < c && Inv(n, c, s) && s.writer.Idle? && s.mem.Sized(c)
    ensures forall k | 0 <= k < n :: LastRecords(n, s.begun)[k] == RecordAt(s.mem, s.published + k, c)
  {
    forall k | 0 <= k < n
      ensures LastRecords(n, s.begun)[k] == RecordAt(s.mem, s.published + k, c)
    {
      SlotContents(n, c, s, k);
    }
  }

  /** Between two samples, the slots from the start index hold the last n records. */
  lemma SlotContents(n: nat, c: nat, s: State, k: nat)
    requires 0 < n < c && Inv(n, c, s) && s.writer.Idle? && k < n && s.mem.Sized(c)
    ensures RecordAt(s.mem, s.published + k, c) == LastRecords(n, s.begun)[k]
  {
    var m := s.published + k;
    var r := LogAt(n, s.begun, m);
    forall j: nat | j < COLUMNS
      ensures s.mem.Column(j)[Slot(m, c)] == Field(r, j)
    {
      assert ColumnHolds(n, c, s.mem.Column(j), j, s.begun, StoredUpTo(n, s, j));
    }
    assert s.mem.Column(0)[Slot(m, c)] == r.desired && s.mem.Column(1)[Slot(m, c)] == r.position;
    assert s.mem.Column(2)[Slot(m, c)] == r.duty && s.mem.Column(3)[Slot(m, c)] == r.stamp;
    LastRecordsAt(n, s.begun, |s.begun|, k);
    assert s.begun[..|s.begun|] == s.begun;
  }

  // ---------------------------------------------------------------- time stamps

  /** What one turn of update_statistics reads: the 32-bit clock and the shared motor values. */
  datatype Input = Input(clock: nat, desired: int, position: int, duty: int)

  /** prev_timestamp before the turn that follows the given ones. */
  function Previous(first: nat, inputs: seq<Input>): nat {
    if inputs == [] then first else inputs[|inputs| - 1].clock
  }

  /** timestamp64 after the given turns: a 64-bit sum of 32-bit differences. */
  function Elapsed(first: nat, inputs: seq<Input>): nat {
    if inputs == [] then 0
    else
      var m := |inputs| - 1;
      (Elapsed(first, inputs[..m])
       + (inputs[m].clock - Previous(first, inputs[..m])) % TICK_RANGE) % SUM_RANGE
  }

  /** The stored 32-bit number of milliseconds, with the 64-bit product and the 32-bit truncation. */
  function Stamp(elapsed: nat, freq: nat): nat
    requires freq > 0
  {
    elapsed * 1000 % SUM_RANGE / freq % TICK_RANGE
  }

  function Samples(first: nat, freq: nat, inputs: seq<Input>): (rs: seq<Record>)
    requires freq > 0
    ensures |rs| == |inputs|
  {
    if inputs == [] then []
    else
      var m := |inputs| - 1;
      Samples(first, freq, inputs[..m])
      + [Record(inputs[m].desired, inputs[m].position, inputs[m].duty, Stamp(Elapsed(first, inputs), freq))]
  }

  /** Record r holds what turn i has read, each value in its own column, and the time stamp of that turn. */
  ghost predicate IsSample(r: Record, first: nat, freq: nat, inputs: seq<Input>, i: nat)
    requires freq > 0 && i < |inputs|
  {
    && r.desired == inputs[i].desired && r.position == inputs[i].position && r.duty == inputs[i].duty
    && r.stamp == Stamp(Elapsed(first, inputs[..i + 1]), freq)
  }

  lemma {:induction false} SampleIsInput(first: nat, freq: nat, inputs: seq<Input>, i: nat)
    requires freq > 0 && i < |inputs|
    ensures IsSample(Samples(first, freq, inputs)[i], first, freq, inputs, i)
  {
    var m := |inputs| - 1;
    if i < m {
      SampleIsInput(first, freq, inputs[..m], i);
      assert inputs[..m][..i + 1] == inputs[..i + 1];
    } else {
      assert inputs[..i + 1] == inputs;
    }
  }

  ghost predicate AreSamples(rs: seq<Record>, first: nat, freq: nat, inputs: seq<Input>)
    requires freq > 0
  {
    |rs| == |inputs| && forall i | 0 <= i < |inputs| :: IsSample(rs[i], first, freq, inputs, i)
  }

  lemma SamplesAreInputs(first: nat, freq: nat, inputs: seq<Input>)
    requires freq > 0
    ensures AreSamples(Samples(first, freq, inputs), first, freq, inputs)
  {
    forall i | 0 <= i < |inputs|
      ensures IsSample(Samples(first, freq, inputs)[i], first, freq, inputs, i)
    {
      SampleIsInput(first, freq, inputs, i);
    }
  }

  /** update_statistics, for as many turns of its endless loop as there are inputs. */
  method UpdateStatistics(h: History, first: nat, freq: nat, inputs: seq<Input>)
    requires h.Valid() && freq > 0
    modifies h`startIndex, h`samples, h.desired, h.position, h.duty, h.stamp
    ensures h.Valid() && h.samples == old(h.samples) + Samples(first, freq, inputs)
    ensures AreSamples(h.samples[|old(h.samples)|..], first, freq, inputs)
  {
    var prevTimestamp := first;
    var timestamp64 := 0;
    for k := 0 to |inputs|
      invariant h.Valid() && h.samples == old(h.samples) + Samples(first, freq, inputs[..k])
      invariant prevTimestamp == Previous(first, inputs[..k])
      invariant timestamp64 == Elapsed(first, inputs[..k])
    {
      assert inputs[..k + 1][..k] == inputs[..k];
      var curTimestamp := inputs[k].clock;
      timestamp64 := (timestamp64 + (curTimestamp - prevTimestamp) % TICK_RANGE) % SUM_RANGE;
      prevTimestamp := curTimestamp;
      h.Append(inputs[k].desired, inputs[k].position, inputs[k].duty,
               timestamp64 * 1000 % SUM_RANGE / freq % TICK_RANGE);
    }
    assert inputs[..|inputs|] == inputs;
    SamplesAreInputs(first, freq, inputs);
    assert h.samples[|old(h.samples)|..] == Samples(first, freq, inputs);
  }

  /** The clock readings are those of a tick counter with true values t0, ticks[0], ticks[1], ... */
  ghost predicate Clocked(t0: nat, ticks: seq<nat>, first: nat, inputs: seq<Input>) {
    && |ticks| == |inputs|
    && first == t0 % TICK_RANGE
    && forall i | 0 <= i < |inputs| :: inputs[i].clock == ticks[i] % TICK_RANGE
  }

  function Before(t0: nat, ticks: seq<nat>, i: nat): nat
    requires i <= |ticks|
  {
    if i == 0 then t0 else ticks[i - 1]
  }

  ghost predicate NonDecreasing(t0: nat, ticks: seq<nat>) {
    forall i: nat | i < |ticks| :: Before(t0, ticks, i) <= ticks[i]
  }

  /** No gap between two readings is as long as the range of the counter. */
  ghost predicate ShortGaps(t0: nat, ticks: seq<nat>) {
    forall i: nat | i < |ticks| :: ticks[i] - Before(t0, ticks, i) < TICK_RANGE
  }

  lemma ClockedPrefix(t0: nat, ticks: seq<nat>, first: nat, inputs: seq<Input>)
    requires Clocked(t0, ticks, first, inputs) && NonDecreasing(t0, ticks) && ticks != []
    ensures var m := |ticks| - 1;
            && Clocked(t0, ticks[..m], first, inputs[..m])
            && NonDecreasing(t0, ticks[..m])
            && Before(t0, ticks[..m], m) == Before(t0, ticks, m) <= ticks[m]
            && Previous(first, inputs[..m]) == Before(t0, ticks, m) % TICK_RANGE
            && (ShortGaps(t0, ticks)
                <==> ShortGaps(t0, ticks[..m]) && ticks[m] - Before(t0, ticks, m) < TICK_RANGE)
  {
    var m := |ticks| - 1;
    forall i: nat | i < m
      ensures Before(t0, ticks[..m], i) == Before(t0, ticks, i) && ticks[..m][i] == ticks[i]
    {
    }
  }

  /** One accumulation step, from clock a to clock b. */
  lemma WrappedDifference(e: nat, a: nat, b: nat) returns (d: nat)
    requires a <= b && e + (b - a) < SUM_RANGE
    ensures (e + (b % TICK_RANGE - a % TICK_RANGE) % TICK_RANGE) % SUM_RANGE == e + d
    ensures d <= b - a && (d == b - a <==> b - a < TICK_RANGE)
  {
    d := (b - a) % TICK_RANGE;
    assert (b % TICK_RANGE - a % TICK_RANGE) % TICK_RANGE == d;
  }

  lemma ElapsedStep(first: nat, inputs: seq<Input>, a: nat, b: nat) returns (d: nat)
    requires inputs != [] && a <= b
    requires Previous(first, inputs[..|inputs| - 1]) == a % TICK_RANGE
    requires inputs[|inputs| - 1].clock == b % TICK_RANGE
    requires Elapsed(first, inputs[..|inputs| - 1]) + (b - a) < SUM_RANGE
    ensures Elapsed(first, inputs) == Elapsed(first, inputs[..|inputs| - 1]) + d
    ensures d <= b - a && (d == b - a <==> b - a < TICK_RANGE)
  {
    d := WrappedDifference(Elapsed(first, inputs[..|inputs| - 1]), a, b);
  }

  /** The sum never exceeds the true elapsed ticks, across any number of wraps of the counter, and
      equals them if and only if no gap is as long as the range of the counter. */
  lemma {:induction false} ElapsedIsExact(t0: nat, ticks: seq<nat>, first: nat, inputs: seq<Input>)
    requires Clocked(t0, ticks, first, inputs) && NonDecreasing(t0, ticks)
    requires Before(t0, ticks, |ticks|) - t0 < SUM_RANGE
    ensures t0 + Elapsed(first, inputs) <= Before(t0, ticks, |ticks|)
    ensures t0 + Elapsed(first, inputs) == Before(t0, ticks, |ticks|) <==> ShortGaps(t0, ticks)
  {
    if ticks != [] {
      var m := |ticks| - 1;
      ClockedPrefix(t0, ticks, first, inputs);
      ElapsedIsExact(t0, ticks[..m], first, inputs[..m]);
      var d := ElapsedStep(first, inputs, Before(t0, ticks, m), ticks[m]);
    }
  }

  lemma InRangeStays(p: nat, range: nat)
    requires p < range
    ensures p % range == p
  {
    ModUnique(p, 0, p, range);
  }

  lemma StampIsMilliseconds(elapsed: nat, freq: nat)
    requires 0 < freq <= TICK_RANGE && elapsed * 1000 / freq < TICK_RANGE
    ensures Stamp(elapsed, freq) == elapsed * 1000 / freq
  {
    var p := elapsed * 1000;
    assert p % SUM_RANGE == p by {
      DivBound(p, freq, TICK_RANGE);
      InRangeStays(p, SUM_RANGE);
    }
    var q, r := Split(p, freq);
    assert q >= 0 by {
      DivMonotone(0, p, freq);
      ModUnique(0, 0, 0, freq);
    }
    InRangeStays(q, TICK_RANGE);
  }

  ghost predicate StampsSorted(w: seq<Record>) {
    forall i, j | 0 <= i <= j < |w| :: w[i].stamp <= w[j].stamp
  }

  lemma {:induction false} TicksAreOrdered(t0: nat, ticks: seq<nat>, i: nat, j: nat)
    requires NonDecreasing(t0, ticks) && i <= j <= |ticks|
    ensures Before(t0, ticks, i) <= Before(t0, ticks, j)
    decreases j
  {
    if i < j {
      TicksAreOrdered(t0, ticks, i, j - 1);
      assert Before(t0, ticks, j - 1) <= ticks[j - 1];
    }
  }

  lemma PrefixIsTimed(t0: nat, ticks: seq<nat>, first: nat, inputs: seq<Input>, k: nat)
    requires Clocked(t0, ticks, first, inputs) && NonDecreasing(t0, ticks) && ShortGaps(t0, ticks)
    requires k <= |ticks|
    ensures Clocked(t0, ticks[..k], first, inputs[..k]) && NonDecreasing(t0, ticks[..k])
    ensures ShortGaps(t0, ticks[..k]) && Before(t0, ticks[..k], k) == Before(t0, ticks, k)
  {
    forall j: nat | j < k
      ensures ticks[..k][j] == ticks[j] && Before(t0, ticks[..k], j) == Before(t0, ticks, j)
    {
    }
  }

  lemma ElapsedAt(t0: nat, ticks: seq<nat>, first: nat, inputs: seq<Input>, i: nat)
    requires Clocked(t0, ticks, first, inputs) && NonDecreasing(t0, ticks) && ShortGaps(t0, ticks)
    requires Before(t0, ticks, |ticks|) - t0 < SUM_RANGE && i < |ticks|
    ensures t0 + Elapsed(first, inputs[..i + 1]) == ticks[i] <= Before(t0, ticks, |ticks|)
  {
    TicksAreOrdered(t0, ticks, i + 1, |ticks|);
    PrefixIsTimed(t0, ticks, first, inputs, i + 1);
    ElapsedIsExact(t0, ticks[..i + 1], first, inputs[..i + 1]);
  }

  /** The number of true elapsed milliseconds at tick t. */
  function Milliseconds(t0: nat, t: nat, freq: nat): int
    requires freq > 0
  {
    (t - t0) * 1000 / freq
  }

  lemma StampFits(t0: nat, t: nat, last: nat, freq: nat, elapsed: nat)
    requires t0 + elapsed == t <= last && 0 < freq <= TICK_RANGE && Milliseconds(t0, last, freq) < TICK_RANGE
    ensures 0 <= Stamp(elapsed, freq) == Milliseconds(t0, t, freq)
  {
    DivMonotone(elapsed * 1000, (last - t0) * 1000, freq);
    StampIsMilliseconds(elapsed, freq);
  }

  /** Each stamp is the number of true elapsed milliseconds while that number fits 32 bits. */
  lemma StampAt(t0: nat, ticks: seq<nat>, first: nat, freq: nat, inputs: seq<Input>, i: nat)
    requires Clocked(t0, ticks, first, inputs) && NonDecreasing(t0, ticks) && ShortGaps(t0, ticks)
    requires Before(t0, ticks, |ticks|) - t0 < SUM_RANGE && i < |ticks|
    requires 0 < freq <= TICK_RANGE && Milliseconds(t0, Before(t0, ticks, |ticks|), freq) < TICK_RANGE
    ensures 0 <= Samples(first, freq, inputs)[i].stamp == Milliseconds(t0, ticks[i], freq)
  {
    SampleIsInput(first, freq, inputs, i);
    ElapsedAt(t0, ticks, first, inputs, i);
    StampFits(t0, ticks[i], Before(t0, ticks, |ticks|), freq, Elapsed(first, inputs[..i + 1]));
  }

  lemma MillisecondsGrow(t0: nat, t: nat, u: nat, freq: nat)
    requires t <= u && freq > 0
    ensures Milliseconds(t0, t, freq) <= Milliseconds(t0, u, freq)
  {
    DivMonotone((t - t0) * 1000, (u - t0) * 1000, freq);
  }

  lemma MillisecondsOrdered(t0: nat, ticks: seq<nat>, freq: nat, i: nat, j: nat)
    requires NonDecreasing(t0, ticks) && i <= j < |ticks| && freq > 0
    ensures Milliseconds(t0, ticks[i], freq) <= Milliseconds(t0, ticks[j], freq)
  {
    TicksAreOrdered(t0, ticks, i + 1, j + 1);
    MillisecondsGrow(t0, ticks[i], ticks[j], freq);
  }

  lemma StampsOrdered(t0: nat, ticks: seq<nat>, first: nat, freq: nat, inputs: seq<Input>, i: nat, j: nat)
    requires Clocked(t0, ticks, first, inputs) && NonDecreasing(t0, ticks) && ShortGaps(t0, ticks)
    requires Before(t0, ticks, |ticks|) - t0 < SUM_RANGE && i <= j < |ticks|
    requires 0 < freq <= TICK_RANGE && Milliseconds(t0, Before(t0, ticks, |ticks|), freq) < TICK_RANGE
    ensures 0 <= Samples(first, freq, inputs)[i].stamp <= Samples(first, freq, inputs)[j].stamp
  {
    StampAt(t0, ticks, first, freq, inputs, i);
    StampAt(t0, ticks, first, freq, inputs, j);
    MillisecondsOrdered(t0, ticks, freq, i, j);
  }

  /** While the elapsed milliseconds fit 32 bits, every window that a reader can copy is in order of
      time: its first and last stamps are its extremes. */
  lemma WindowIsSorted(t0: nat, ticks: seq<nat>, first: nat, freq: nat, inputs: seq<Input>, n: nat)
    requires Clocked(t0, ticks, first, inputs) && NonDecreasing(t0, ticks) && ShortGaps(t0, ticks)
    requires Before(t0, ticks, |ticks|) - t0 < SUM_RANGE
    requires 0 < freq <= TICK_RANGE && Milliseconds(t0, Before(t0, ticks, |ticks|), freq) < TICK_RANGE
    ensures StampsSorted(LastRecords(n, Samples(first, freq, inputs)))
  {
    var rs := Samples(first, freq, inputs);
    forall i, j | 0 <= i <= j < |rs|
      ensures 0 <= rs[i].stamp <= rs[j].stamp
    {
      StampsOrdered(t0, ticks, first, freq, inputs, i, j);
    }
    assert forall i | 0 <= i < |rs| :: rs[i].stamp >= 0;
    SortedWindow(n, rs);
  }

  lemma SortedWindow(n: nat, rs: seq<Record>)
    requires StampsSorted(rs) && forall i | 0 <= i < |rs| :: rs[i].stamp >= 0
    ensures StampsSorted(LastRecords(n, rs))
  {
    var w := LastRecords(n, rs);
    forall i, j | 0 <= i <= j < n
      ensures w[i].stamp <= w[j].stamp
    {
      LastRecordsAt(n, rs, |rs|, i);
      LastRecordsAt(n, rs, |rs|, j);
      assert rs[..|rs|] == rs;
    }
  }

  /** w is what the window shows after the given turns: the k-th of its records is what one of the last turns
      has read, or zero if there were not yet that many turns. */
  ghost predicate IsWindow(w: seq<Record>, first: nat, freq: nat, inputs: seq<Input>)
    requires freq > 0
  {
    forall k | 0 <= k < |w| ::
      var i := |inputs| - |w| + k;
      if i < 0 then w[k] == ZERO else IsSample(w[k], first, freq, inputs, i)
  }

  lemma WindowOfInputs(n: nat, first: nat, freq: nat, inputs: seq<Input>)
    requires freq > 0
    ensures IsWindow(LastRecords(n, Samples(first, freq, inputs)), first, freq, inputs)
  {
    var rs := Samples(first, freq, inputs);
    var w := LastRecords(n, rs);
    forall k | 0 <= k < n
      ensures var i := |inputs| - n + k; if i < 0 then w[k] == ZERO else IsSample(w[k], first, freq, inputs, i)
    {
      LastRecordsAt(n, rs, |rs|, k);
      assert rs[..|rs|] == rs;
      if |inputs| - n + k >= 0 {
        SampleIsInput(first, freq, inputs, |inputs| - n + k);
      }
    }
  }
}
