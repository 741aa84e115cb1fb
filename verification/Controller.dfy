/** The controller of the motor driver and the packed PWM register. */
module Controller {
  import opened Bits
  import opened Division

  const PWM_PERIOD: int := 5000
  const MIN_PWM_DUTY: int := 3
  const DUTY_DIR_R: nat := 31
  const DUTY_DIR_F: nat := 30

  // ---------------------------------------------------------------- the controller

  function Min(a: int, b: int): int {
    if a < b then a else b
  }

  function Max(a: int, b: int): int {
    if a > b then a else b
  }

  function Abs(a: int): nat {
    if a < 0 then -a else a
  }

  /** get_pwm */
  function GetPwm(distance: int): int {
    var d := Max(Min(distance, 200), -200);
    var pwm := Min(Max(Shr(d * Abs(d), 8), -100), 100);
    if d < 0 && pwm > -MIN_PWM_DUTY then -MIN_PWM_DUTY
    else if d > 0 && pwm < MIN_PWM_DUTY then MIN_PWM_DUTY
    else pwm
  }

  /** The same controller without the clamp to +-200, the shift written as a division that rounds down. */
  function Unclamped(d: int): int {
    var pwm := Min(Max(d * Abs(d) / 256, -100), 100);
    if d < 0 then Min(pwm, -MIN_PWM_DUTY) else if d > 0 then Max(pwm, MIN_PWM_DUTY) else 0
  }

  lemma SquareGrows(a: nat, b: nat)
    requires a <= b
    ensures a * a <= b * b
  {
    assert b * b - a * a == (b - a) * (b + a);
  }

  lemma SquareMonotone(d: int, e: int)
    ensures d <= e ==> d * Abs(d) <= e * Abs(e)
  {
    if 0 <= d <= e {
      SquareGrows(d, e);
    } else if d <= e <= 0 {
      SquareGrows(-e, -d);
      assert d * Abs(d) == -((-d) * (-d)) && e * Abs(e) == -((-e) * (-e));
    } else if d < 0 < e {
      assert d * Abs(d) == -((-d) * (-d));
    }
  }

  /** Clamping the distance first changes nothing. */
  lemma ClampIsRedundant(d: int)
    ensures GetPwm(d) == Unclamped(d)
  {
    SquareMonotone(d, -200);
    SquareMonotone(200, d);
    var e := Max(Min(d, 200), -200);
    ShrByEight(e * Abs(e));
  }

  lemma PwmIsMonotone(d: int, e: int)
    requires d <= e
    ensures GetPwm(d) <= GetPwm(e)
  {
    ClampIsRedundant(d);
    ClampIsRedundant(e);
    SquareMonotone(d, e);
    SquareMonotone(d, 0);
    SquareMonotone(0, e);
  }

  /** The duty lies in +-100, has the sign of the distance, is 0 only at 0 and otherwise at least the
      minimal duty, and is saturated exactly from 160 steps on. */
  lemma PwmShape(d: int)
    ensures -100 <= GetPwm(d) <= 100
    ensures d > 0 <==> GetPwm(d) > 0
    ensures d < 0 <==> GetPwm(d) < 0
    ensures d != 0 ==> Abs(GetPwm(d)) >= MIN_PWM_DUTY
    ensures GetPwm(d) == 100 <==> d >= 160
    ensures GetPwm(d) == -100 <==> d <= -160
  {
    PwmIsMonotone(if d <= 0 then d else 0, 0);
    PwmIsMonotone(0, if d >= 0 then d else 0);
    if d >= 160 {
      PwmIsMonotone(160, d);
    } else {
      SquareMonotone(d, 159);
    }
    if d <= -160 {
      PwmIsMonotone(d, -160);
    } else {
      SquareMonotone(-159, d);
    }
  }

  /** Between the minimal duty and saturation the duty is the square of the distance over 256, rounded down. */
  lemma PwmIsSquare(d: int)
    requires 28 <= d <= 159
    ensures 256 * GetPwm(d) <= d * d < 256 * (GetPwm(d) + 1)
  {
    ClampIsRedundant(d);
    UnclampedPair(d, d * d);
    SquareBounds(d, d * d);
  }

  lemma SquareExpand(q: nat, r: nat)
    ensures (16 * q + r) * (16 * q + r) == 256 * (q * q) + (32 * (r * q) + r * r)
  {
  }

  lemma DropMultiple(x: int, y: int)
    ensures (256 * x + y) % 256 == y % 256
  {
  }

  lemma SixteenDivides(d: nat)
    ensures d * d % 256 == 0 <==> d % 16 == 0
  {
    var q, r := d / 16, d % 16;
    SquareExpand(q, r);
    DropMultiple(q * q, 32 * (r * q) + r * r);
    ResidueTable(q, r);
  }

  lemma ResidueTable(q: nat, r: nat)
    requires r < 16
    ensures (32 * (r * q) + r * r) % 256 == 0 <==> r == 0
  {
    match r {
      case 0 => case 1 => case 2 => case 3 => case 4 => case 5 => case 6 => case 7 =>
      case 8 => case 9 => case 10 => case 11 => case 12 => case 13 => case 14 => case 15 =>
    }
  }

  /** With x the square of the distance. */
  lemma UnclampedPair(d: int, x: int)
    requires d > 0 && x == d * d
    ensures Unclamped(d) == Max(Min(x / 256, 100), MIN_PWM_DUTY)
    ensures Unclamped(-d) == Min(Max((-x) / 256, -100), -MIN_PWM_DUTY)
  {
    assert (-d) * Abs(-d) == -x;
    SquareGrows(1, d);
  }

  lemma SquareBounds(d: int, x: int)
    requires d > 0 && x == d * d
    ensures d <= 27 ==> x <= 729
    ensures d >= 28 ==> x >= 784
    ensures d <= 159 ==> x <= 25281
    ensures d >= 160 ==> x >= 25600
  {
    SquareGrows(Min(d, 27), 27);
    SquareGrows(28, Max(d, 28));
    SquareGrows(Min(d, 159), 159);
    SquareGrows(160, Max(d, 160));
  }

  /** The shift rounds negative products down, so the motor is driven one percent harder backwards than
      forwards, except for the distances listed here. */
  lemma PwmIsAlmostOdd(d: int)
    requires d >= 0
    ensures GetPwm(-d) == -GetPwm(d) || GetPwm(-d) == -GetPwm(d) - 1
    ensures GetPwm(-d) == -GetPwm(d) <==> d <= 27 || d >= 160 || d % 16 == 0
  {
    ClampIsRedundant(d);
    ClampIsRedundant(-d);
    UnclampedIsAlmostOdd(d);
  }

  lemma UnclampedIsAlmostOdd(d: int)
    requires d >= 0
    ensures Unclamped(-d) == -Unclamped(d) || Unclamped(-d) == -Unclamped(d) - 1
    ensures Unclamped(-d) == -Unclamped(d) <==> d <= 27 || d >= 160 || d % 16 == 0
  {
    if d > 0 {
      var x := d * d;
      UnclampedPair(d, x);
      SquareBounds(d, x);
      SixteenDivides(d);
      RoundedPair(d, x);
    }
  }

  lemma RoundedPair(d: int, x: int)
    requires d > 0 && (x % 256 == 0 <==> d % 16 == 0)
    requires (d <= 27 ==> 0 < x <= 729) && (d >= 28 ==> x >= 784)
    requires (d <= 159 ==> x <= 25281) && (d >= 160 ==> x >= 25600)
    ensures var p, m := Max(Min(x / 256, 100), MIN_PWM_DUTY), Min(Max((-x) / 256, -100), -MIN_PWM_DUTY);
            && (m == -p || m == -p - 1)
            && (m == -p <==> d <= 27 || d >= 160 || d % 16 == 0)
  {
  }

  // ---------------------------------------------------------------- the PWM register

  /** The word that set_motor_dutycycle writes for an accepted percentage. */
  function Encode(percent: int): nat
    requires -100 <= percent <= 100
  {
    if percent < 0 then Or(PWM_PERIOD * -percent / 100, Shl(1, DUTY_DIR_R))
    else Or(PWM_PERIOD * percent / 100, Shl(1, DUTY_DIR_F))
  }

  /** The two direction bits. */
  predicate Backward(word: nat) {
    word / 0x8000_0000 % 2 == 1
  }

  predicate Forward(word: nat) {
    word / 0x4000_0000 % 2 == 1
  }

  /** The duty in clock ticks, without the direction bits. */
  function Ticks(word: nat): nat {
    word % 0x4000_0000
  }

  /** The percentage that a register word stands for. */
  function Decode(word: nat): int {
    var percent := Ticks(word) * 100 / PWM_PERIOD;
    if Backward(word) then -percent else percent
  }

  lemma EncodedWord(percent: int)
    requires -100 <= percent <= 100
    ensures Encode(percent) == if percent < 0 then 0x8000_0000 - 50 * percent else 0x4000_0000 + 50 * percent
  {
    ShiftValues(1);
    OrDisjoint(50 * Abs(percent), 1, if percent < 0 then DUTY_DIR_R else DUTY_DIR_F);
  }

  lemma ReadWord(ticks: nat, backward: bool)
    requires ticks <= PWM_PERIOD
    ensures var w := ticks + if backward then 0x8000_0000 else 0x4000_0000;
            (Backward(w) <==> backward) && (Forward(w) <==> !backward) && Ticks(w) == ticks
  {
    if backward {
      ModUnique(ticks + 0x8000_0000, 1, ticks, 0x8000_0000);
      ModUnique(ticks + 0x8000_0000, 2, ticks, 0x4000_0000);
    } else {
      ModUnique(ticks + 0x4000_0000, 0, ticks + 0x4000_0000, 0x8000_0000);
      ModUnique(ticks + 0x4000_0000, 1, ticks, 0x4000_0000);
    }
  }

  /** An accepted percentage is readable from the register, which has exactly one direction bit set and
      a duty no longer than the period. */
  lemma EncodeRoundTrip(percent: int)
    requires -100 <= percent <= 100
    ensures Decode(Encode(percent)) == percent
    ensures Backward(Encode(percent)) <==> percent < 0
    ensures Forward(Encode(percent)) <==> percent >= 0
    ensures Ticks(Encode(percent)) <= PWM_PERIOD && Encode(percent) < 0x1_0000_0000
  {
    EncodedWord(percent);
    ReadWord(50 * Abs(percent), percent < 0);
    assert 50 * Abs(percent) * 100 / PWM_PERIOD == Abs(percent);
  }

  /** set_motor_dutycycle leaves the register alone for a percentage out of range. */
  function SetDuty(register: nat, percent: int): nat {
    if percent < -100 || percent > 100 then register else Encode(percent)
  }

  /** What get_pwm computes is never rejected. */
  lemma ControllerIsAccepted(register: nat, d: int)
    ensures SetDuty(register, GetPwm(d)) == Encode(GetPwm(d))
    ensures Decode(SetDuty(register, GetPwm(d))) == GetPwm(d)
  {
    PwmShape(d);
    EncodeRoundTrip(GetPwm(d));
  }
}
