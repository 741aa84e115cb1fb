/** The motor driver: its shared variables, the interrupt handler and the initialisation. */
module StepperMotor {
  import opened Bits
  import opened Quadrature
  import opened Controller

  const COUNT_RANGE: nat := 0x1_0000_0000

  /** int32_t subtraction, with the wrap-around of two's complement. */
  function Distance(desired: int, position: int): int {
    (desired - position + 0x8000_0000) % 0x1_0000_0000 - 0x8000_0000
  }

  /** The distance lies in the range of int32_t and differs from desired - position by a multiple of 2^32; so
      it is that difference whenever the difference fits. */
  lemma DistanceIsWrapped(desired: int, position: int)
    ensures -0x8000_0000 <= Distance(desired, position) < 0x8000_0000
    ensures (desired - position - Distance(desired, position)) % COUNT_RANGE == 0
    ensures Fits(desired - position) ==> Distance(desired, position) == desired - position
  {
  }

  /** A difference of less than half the range of the subtraction. */
  predicate Fits(difference: int) {
    -0x8000_0000 < difference < 0x8000_0000
  }

  /** The controller drives towards the set-point. */
  lemma DrivesTowards(desired: int, position: int)
    requires Fits(desired - position)
    ensures GetPwm(Distance(desired, position)) > 0 <==> desired > position
    ensures GetPwm(Distance(desired, position)) < 0 <==> desired < position
  {
    DistanceIsWrapped(desired, position);
    PwmShape(desired - position);
  }

  /** The shared variables of the driver, the last encoder state and the PWM register. */
  datatype Driver = Driver(position: int, irqCount: nat, desired: int, duty: int, encoder: Encoder, register: nat)

  /** The first half of an interrupt with encoder state e: count the movement. */
  function Counted(d: Driver, e: Encoder): Driver {
    d.(position := d.position + Transition(d.encoder, e), irqCount := (d.irqCount + 1) % COUNT_RANGE, encoder := e)
  }

  /** The duty for the set-point and the position at hand, in force. */
  function Driven(d: Driver): Driver {
    var duty := GetPwm(Distance(d.desired, d.position));
    d.(duty := duty, register := SetDuty(d.register, duty))
  }

  /** One interrupt; follow says whether the board drives its motor. */
  function Interrupted(d: Driver, e: Encoder, follow: bool): Driver {
    if follow then Driven(Counted(d, e)) else Counted(d, e)
  }

  class MotorDriver {
    var position: int
    var irqCount: nat
    var desiredPosition: int
    var pwmDuty: int
    var motorState: Encoder
    var prevMotorState: Encoder
    var pwmDutyCr: nat
    const setPositionToDesired: bool

    function Value(): Driver
      reads this
    {
      Driver(position, irqCount, desiredPosition, pwmDuty, motorState, pwmDutyCr)
    }

    /** The driver after motor_init; the encoder bits are a and b. */
    constructor (setDesired: bool, desired: int, a: bool, b: bool)
      ensures setPositionToDesired == setDesired
      ensures Value() == Driver(0, 0, desired, 0, EncoderOf(a, b), 0)
      ensures Decode(pwmDutyCr) == pwmDuty == 0
    {
      setPositionToDesired := setDesired;
      position, irqCount, desiredPosition, pwmDuty := 0, 0, desired, 0;
      pwmDutyCr := 0;
      prevMotorState := 0;
      motorState := EncoderOf(a, b);
    }

    method SetMotorDutycycle(dutyCyclePercent: int)
      modifies this`pwmDutyCr
      ensures pwmDutyCr == SetDuty(old(pwmDutyCr), dutyCyclePercent)
      ensures if -100 <= dutyCyclePercent <= 100 then Decode(pwmDutyCr) == dutyCyclePercent
              else pwmDutyCr == old(pwmDutyCr)
    {
      if -100 <= dutyCyclePercent <= 100 {
        EncodeRoundTrip(dutyCyclePercent);
      }
      if dutyCyclePercent < -100 || dutyCyclePercent > 100 {
        return;
      }
      if dutyCyclePercent < 0 {
        pwmDutyCr := Or(PWM_PERIOD * -dutyCyclePercent / 100, Shl(1, DUTY_DIR_R));
      } else {
        pwmDutyCr := Or(PWM_PERIOD * dutyCyclePercent / 100, Shl(1, DUTY_DIR_F));
      }
    }

    method CountMovement(a: bool, b: bool)
      modifies this`prevMotorState, this`motorState, this`position, this`irqCount
      ensures Value() == Counted(old(Value()), EncoderOf(a, b))
    {
      prevMotorState := motorState;
      motorState := EncoderOf(a, b);
      TableIsTransition(prevMotorState, motorState);
      position := position + TRANSITION_TABLE[TransitionIndex(prevMotorState, motorState)];
      irqCount := (irqCount + 1) % COUNT_RANGE;
    }

    method FollowDesired()
      modifies this`pwmDutyCr, this`pwmDuty
      ensures Value() == Driven(old(Value()))
      ensures Fits(desiredPosition - position) ==>
                && (pwmDuty > 0 <==> desiredPosition > position)
                && (pwmDuty < 0 <==> desiredPosition < position)
      ensures Decode(pwmDutyCr) == pwmDuty
    {
      PwmShape(Distance(desiredPosition, position));
      if Fits(desiredPosition - position) {
        DrivesTowards(desiredPosition, position);
      }
      var duty := GetPwm(Distance(desiredPosition, position));
      SetMotorDutycycle(duty);
      pwmDuty := duty;
    }

    /** motor_isr; a and b are the two encoder bits as read from the status register. */
    method MotorIsr(a: bool, b: bool)
      modifies this
      ensures Value() == Interrupted(old(Value()), EncoderOf(a, b), setPositionToDesired)
      ensures desiredPosition == old(desiredPosition)
      ensures !setPositionToDesired ==> pwmDuty == old(pwmDuty) && pwmDutyCr == old(pwmDutyCr)
      ensures setPositionToDesired ==>
                && Decode(pwmDutyCr) == pwmDuty
                && (Fits(desiredPosition - position) ==>
                      && (pwmDuty > 0 <==> desiredPosition > position)
                      && (pwmDuty < 0 <==> desiredPosition < position))
    {
      CountMovement(a, b);
      if setPositionToDesired {
        FollowDesired();
      }
    }
  }

  /** After an interrupt of a board that drives its motor, the duty in force is the one for the new
      position, and the register stands for it. */
  lemma InterruptedIsConsistent(d: Driver, e: Encoder)
    ensures var t := Interrupted(d, e, true);
            && t.duty == GetPwm(Distance(d.desired, t.position)) == Decode(t.register)
            && (Forward(t.register) <==> !Backward(t.register)) && Ticks(t.register) <= PWM_PERIOD
            && -1 <= t.position - d.position <= 1
            && t.desired == d.desired
            && (Fits(t.desired - t.position) ==>
                  (t.duty > 0 <==> t.desired > t.position) && (t.duty < 0 <==> t.desired < t.position))
  {
    var t := Interrupted(d, e, true);
    ControllerIsAccepted(d.register, Distance(d.desired, t.position));
    PwmShape(Distance(d.desired, t.position));
    EncodeRoundTrip(t.duty);
    if Fits(t.desired - t.position) {
      DrivesTowards(t.desired, t.position);
    }
  }

  function EncoderOf(a: bool, b: bool): Encoder {
    (if a then 1 else 0) + (if b then 2 else 0)
  }

  /** The shaft turns forwards when bit a rises before bit b: one turn of the encoder with a leading counts
      four steps up, one with b leading four steps down, and every one of these steps counts. */
  lemma LeadingBitCountsUp()
    ensures var o, a := EncoderOf(false, false), EncoderOf(true, false);
            var ab, b := EncoderOf(true, true), EncoderOf(false, true);
            && Transition(o, a) == Transition(a, ab) == Transition(ab, b) == Transition(b, o) == 1
            && Transition(o, b) == Transition(b, ab) == Transition(ab, a) == Transition(a, o) == -1
            && TRANSITION_TABLE[TransitionIndex(o, a)] == 1 && TRANSITION_TABLE[TransitionIndex(o, b)] == -1
  {
    var o, a := EncoderOf(false, false), EncoderOf(true, false);
    var ab, b := EncoderOf(true, true), EncoderOf(false, true);
    assert Phase(o) == 0 && Phase(a) == 1 && Phase(ab) == 2 && Phase(b) == 3;
    TableIsTransition(o, a);
    TableIsTransition(o, b);
  }

  /** The driver after a run of interrupts. */
  function AfterInterrupts(d: Driver, samples: seq<Encoder>, follow: bool): Driver
    decreases |samples|
  {
    if samples == [] then d
    else AfterInterrupts(Interrupted(d, samples[0], follow), samples[1..], follow)
  }

  lemma InterruptedCounts(d: Driver, e: Encoder, follow: bool)
    ensures var t := Interrupted(d, e, follow);
            t.position == Counted(d, e).position && t.encoder == e && t.irqCount == (d.irqCount + 1) % COUNT_RANGE
  {
  }

  lemma CountWraps(c: nat, k: nat)
    requires c < COUNT_RANGE
    ensures ((c + 1) % COUNT_RANGE + k) % COUNT_RANGE == (c + 1 + k) % COUNT_RANGE
  {
  }

  /** Whatever the interrupts sample, the position they leave is where the decoder's travel takes it, and
      the 32-bit counter counts them. */
  lemma {:induction false} PositionIsTravel(d: Driver, samples: seq<Encoder>, follow: bool)
    requires d.irqCount < COUNT_RANGE
    ensures var t := AfterInterrupts(d, samples, follow);
            && t.position == d.position + Travel(d.encoder, samples)
            && t.encoder == Last(d.encoder, samples)
            && t.irqCount == (d.irqCount + |samples|) % COUNT_RANGE
    decreases |samples|
  {
    if samples != [] {
      var u := Interrupted(d, samples[0], follow);
      InterruptedCounts(d, samples[0], follow);
      CountWraps(d.irqCount, |samples| - 1);
      PositionIsTravel(u, samples[1..], follow);
      TravelStep(d.encoder, samples);
      assert Last(u.encoder, samples[1..]) == Last(d.encoder, samples);
    }
  }
}
