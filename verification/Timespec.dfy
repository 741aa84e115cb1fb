/** timespec arithmetic and the running maximum of lab 4. */
module Timespec {

  const NSEC: int := 1_000_000_000

  /** A clock value as a number of nanoseconds. */
  function Total(sec: int, nsec: int): int {
    sec * NSEC + nsec
  }

  class Time {
    var sec: int
    var nsec: int

    constructor (sec: int, nsec: int)
      ensures this.sec == sec && this.nsec == nsec
    {
      this.sec, this.nsec := sec, nsec;
    }

    ghost function Ns(): int
      reads this
    {
      Total(sec, nsec)
    }
  }

  /** The nanosecond part comes out as a full second instead of zero exactly for these inputs. */
  predicate FullSecond(xNsec: int, yNsec: int) {
    || xNsec - yNsec == NSEC
    || (yNsec > xNsec && (yNsec - xNsec) % NSEC == 0)
  }

  /** (sec, nsec) is the exact difference x - y in the form that timespec_subtract leaves it. */
  ghost predicate IsDifference(xs: int, xn: int, ys: int, yn: int, sec: int, nsec: int) {
    && Total(sec, nsec) == Total(xs, xn) - Total(ys, yn)
    && 0 <= nsec <= NSEC
    && (nsec == NSEC <==> FullSecond(xn, yn))
  }

  /** The same, with the flag that is returned if the result is a struct of its own. */
  ghost predicate Difference(xs: int, xn: int, ys: int, yn: int, sec: int, nsec: int, negative: bool) {
    IsDifference(xs, xn, ys, yn, sec, nsec) && (negative <==> sec < 0)
  }

  /** timespec_subtract: y is normalised in place so that y.nsec <= x.nsec <= y.nsec + 10^9. Both
      divisions of the C code have non-negative operands. The three structs may be the same. */
  method Subtract(result: Time, x: Time, y: Time) returns (negative: bool)
    modifies result, y
    ensures IsDifference(old(x.sec), old(x.nsec), old(y.sec), old(y.nsec), result.sec, result.nsec)
    ensures result != x && result != y ==> y.Ns() == old(y.Ns()) && (negative <==> result.sec < 0)
    ensures negative <==> x.sec < y.sec
    ensures x != y && x != result ==> x.sec == old(x.sec) && x.nsec == old(x.nsec)
  {
    if x.nsec < y.nsec {
      var numSec := (y.nsec - x.nsec) / NSEC + 1;
      y.nsec := y.nsec - NSEC * numSec;
      y.sec := y.sec + numSec;
    }
    if x.nsec - y.nsec > NSEC {
      var numSec := (x.nsec - y.nsec) / NSEC;
      y.nsec := y.nsec + NSEC * numSec;
      y.sec := y.sec - numSec;
    }
    result.sec := x.sec - y.sec;
    result.nsec := x.nsec - y.nsec;
    negative := x.sec < y.sec;
  }

  /** utils.h promises a flag that is 1 exactly if the difference is negative. The returned flag is
      wrong for two representations of the same instant of which y's needs a carry that leaves a full
      second, and right for every other input. */
  lemma FlagExactness(xs: int, xn: int, ys: int, yn: int, sec: int, nsec: int, negative: bool)
    requires Difference(xs, xn, ys, yn, sec, nsec, negative)
    ensures (negative <==> Total(xs, xn) < Total(ys, yn))
            <==> !(Total(xs, xn) == Total(ys, yn) && (yn > xn || xn - yn == NSEC))
  {
    if Total(xs, xn) == Total(ys, yn) {
      assert yn - xn == (xs - ys) * NSEC;
    }
  }

  /** For normalised inputs the result is normalised and the flag is exact. */
  lemma NormalisedDifference(xs: int, xn: int, ys: int, yn: int, sec: int, nsec: int, negative: bool)
    requires Difference(xs, xn, ys, yn, sec, nsec, negative)
    requires 0 <= xn < NSEC && 0 <= yn < NSEC
    ensures nsec < NSEC
    ensures negative <==> Total(xs, xn) < Total(ys, yn)
  {
    FlagExactness(xs, xn, ys, yn, sec, nsec, negative);
    if Total(xs, xn) == Total(ys, yn) {
      assert yn - xn == (xs - ys) * NSEC;
    }
  }

  /** A call for which the flag says negative although the difference is zero. */
  method FlagCounterexample() returns (negative: bool, difference: int)
    ensures negative && difference == 0
  {
    var x := new Time(0, 0);
    var y := new Time(-1, NSEC);
    var result := new Time(0, 0);
    negative := Subtract(result, x, y);
    difference := result.sec * NSEC + result.nsec;
  }

  /** time_to_ms */
  function ToMs(sec: int, nsec: int): int
    requires nsec >= 0
  {
    sec * 1000 + nsec / 1_000_000
  }

  lemma ToMsIsFloor(sec: int, nsec: int)
    requires nsec >= 0
    ensures ToMs(sec, nsec) == Total(sec, nsec) / 1_000_000
    ensures ToMs(sec, nsec) * 1_000_000 <= Total(sec, nsec) < (ToMs(sec, nsec) + 1) * 1_000_000
  {
    assert Total(sec, nsec) == (sec * 1000) * 1_000_000 + nsec;
  }

  // ---------------------------------------------------------------- tHPrio

  /** The two clock readings around one semTake. */
  datatype Measurement = Measurement(startSec: int, startNsec: int, endSec: int, endNsec: int) {
    function Ms(): int {
      (Total(endSec, endNsec) - Total(startSec, startNsec)) / 1_000_000
    }
  }

  /** One measurement of the loop of tHPrio. */
  method Measure(m: Measurement) returns (current: int)
    ensures current == m.Ms()
  {
    var tstart := new Time(m.startSec, m.startNsec);
    var tend := new Time(m.endSec, m.endNsec);
    var result := new Time(0, 0);
    var negative := Subtract(result, tend, tstart);
    current := ToMs(result.sec, result.nsec);
    ToMsIsFloor(result.sec, result.nsec);
  }

  /** The numbers printed for the given measurements; the first is the 0 of the heading. */
  function Printed(ms: seq<Measurement>): (p: seq<int>)
    ensures p != []
  {
    if ms == [] then [0]
    else
      var m := |ms| - 1;
      var before := Printed(ms[..m]);
      if ms[m].Ms() > before[|before| - 1] then before + [ms[m].Ms()] else before
  }

  /** tHPrio */
  method HighPriority(ms: seq<Measurement>) returns (printed: seq<int>)
    ensures printed == Printed(ms)
  {
    printed := [0];
    var maxTime := 0;
    for i := 0 to |ms|
      invariant printed == Printed(ms[..i])
      invariant maxTime == printed[|printed| - 1]
    {
      var current := Measure(ms[i]);
      assert ms[..i + 1][..i] == ms[..i];
      if current > maxTime {
        printed := printed + [current];
        maxTime := current;
      }
    }
    assert ms[..|ms|] == ms;
  }

  /** The printed sequence is strictly increasing, and its last number is the maximum of 0 and all
      measured times. */
  lemma {:induction false} PrintedEndsInMaximum(ms: seq<Measurement>)
    ensures var p := Printed(ms);
            && (forall i, j | 0 <= i < j < |p| :: p[i] < p[j])
            && p[0] == 0
            && (forall i | 0 <= i < |ms| :: ms[i].Ms() <= p[|p| - 1])
            && (|p| > 1 ==> exists i :: 0 <= i < |ms| && ms[i].Ms() == p[|p| - 1])
  {
    if ms != [] {
      var m := |ms| - 1;
      PrintedEndsInMaximum(ms[..m]);
      var p, before := Printed(ms), Printed(ms[..m]);
      forall i | 0 <= i < |ms|
        ensures ms[i].Ms() <= p[|p| - 1]
      {
        if i < m {
          assert ms[..m][i] == ms[i];
        }
      }
      if |before| > 1 {
        var w :| 0 <= w < m && ms[..m][w].Ms() == before[|before| - 1];
        assert ms[w] == ms[..m][w];
      }
      assert |p| > |before| ==> ms[m].Ms() == p[|p| - 1];
    }
  }

  /** Measurement i exceeds 0 and all measurements before it. */
  ghost predicate IsRecord(ms: seq<Measurement>, i: nat)
    requires i < |ms|
  {
    ms[i].Ms() > 0 && forall j | 0 <= j < i :: ms[j].Ms() < ms[i].Ms()
  }

  lemma RecordInPrefix(ms: seq<Measurement>, k: nat, i: nat)
    requires i < k <= |ms|
    ensures IsRecord(ms[..k], i) <==> IsRecord(ms, i)
  {
    assert forall j | 0 <= j <= i :: ms[..k][j] == ms[j];
  }

  /** After the heading's 0, exactly the records are printed: every new maximum, and nothing that was not
      measured. With the order that PrintedEndsInMaximum states this determines what is printed. */
  lemma {:induction false} PrintedAreRecords(ms: seq<Measurement>, v: int)
    ensures (v in Printed(ms) && v != 0) <==> exists i :: 0 <= i < |ms| && ms[i].Ms() == v && IsRecord(ms, i)
  {
    if ms != [] {
      var m := |ms| - 1;
      var before := ms[..m];
      PrintedAreRecords(before, v);
      LastIsRecord(ms);
      assert v in Printed(ms) <==> v in Printed(before) || (IsRecord(ms, m) && v == ms[m].Ms());
      if i :| 0 <= i < |ms| && ms[i].Ms() == v && IsRecord(ms, i) {
        if i < m {
          RecordInPrefix(ms, m, i);
          assert before[i].Ms() == v && IsRecord(before, i);
        }
      }
      if i :| 0 <= i < m && before[i].Ms() == v && IsRecord(before, i) {
        RecordInPrefix(ms, m, i);
        assert ms[i].Ms() == v && IsRecord(ms, i);
      }
    }
  }

  /** The last measurement is printed if and only if it is a record. */
  lemma LastIsRecord(ms: seq<Measurement>)
    requires ms != []
    ensures var m := |ms| - 1;
            Printed(ms) == if IsRecord(ms, m) then Printed(ms[..m]) + [ms[m].Ms()] else Printed(ms[..m])
  {
    var m := |ms| - 1;
    PrintedEndsInMaximum(ms[..m]);
    var before := Printed(ms[..m]);
    var top := before[|before| - 1];
    if ms[m].Ms() > top {
      forall j | 0 <= j < m
        ensures ms[j].Ms() < ms[m].Ms()
      {
        assert ms[..m][j] == ms[j];
      }
      assert before[0] <= top;
      assert IsRecord(ms, m);
    } else if |before| > 1 {
      var i :| 0 <= i < m && ms[..m][i].Ms() == top;
      assert ms[..m][i] == ms[i];
      assert !IsRecord(ms, m);
    }
  }
}
