/** The motor task, its interrupt handler and the UDP receiver of a board that drives its motor, as a
    state machine. An interrupt is one step and comes only while interrupts are enabled; every access to
    a shared 32-bit variable is one step. */
module MotorProtocol {
  import opened Options
  import opened Quadrature
  import opened Controller
  import opened StepperMotor

  /** Some interrupts: how many, and the net movement that they have counted. */
  datatype Window = Window(count: nat, net: int)

  const NO_INTERRUPT := Window(0, 0)

  /** The motor task: before the end of motor_init; at semTake; reading the two operands of the
      subtraction, in either order; and in its critical section. moved is a history variable: what the
      interrupts since the reading of the position have moved. */
  datatype Motor =
    | Starting
    | Waiting
    | Reading(target: Option<int>, place: Option<int>, moved: Window)
    | Masked(desired: int, position: int, moved: Window)    // interrupts disabled
    | Written(desired: int, position: int, moved: Window)   // register written
    | Stored(desired: int, position: int, moved: Window)    // pwm_duty written

  /** The receiver is in recvfrom, or has written the set-point and not yet given the semaphore. */
  datatype Receiver = Receiving | Received

  /** usedDesired and drift are history variables: the set-point from which the duty in force was computed,
      and the interrupts between the reading of the position for it and the disabling of interrupts, none
      if the interrupt handler has computed it. */
  datatype State = State(driver: Driver, interrupts: bool, sem: nat, motor: Motor, receiver: Receiver,
                         usedDesired: int, drift: Window)

  datatype Event =
    | Interrupt(e: Encoder)
    | ReadDesired             // the motor task reads desired_position
    | ReadPosition            // it reads position
    | Proceed(e: Encoder)     // it makes its next step; e is the encoder state that motor_init reads
    | Receive(desired: int)   // recvfrom returns; a failed call leaves the old set-point
    | Give                    // the receiver gives the semaphore

  /** The arithmetic of a board: the controller, the writing and the reading of the PWM register, what the
      register may hold once it was written, and the movement decoded from two encoder states. The
      protocol is proved for every sound board, and OurBoard below is one. */
  datatype Board = Board(duty: (int, int) -> int, write: (nat, int) -> nat, read: nat -> int,
                         ready: nat -> bool, decode: (Encoder, Encoder) -> int)

  /** The duty has the sign of the way to the set-point, if that is shorter than half the range of int32_t. */
  predicate DrivesTo(b: Board, d: int, p: int) {
    Fits(d - p) ==> (b.duty(d, p) > 0 <==> d > p) && (b.duty(d, p) < 0 <==> d < p)
  }

  /** What the register reads back is what was written. */
  ghost predicate ReadsBack(b: Board) {
    forall r: nat, d: int, p: int ::
      b.read(b.write(r, b.duty(d, p))) == b.duty(d, p) && b.ready(b.write(r, b.duty(d, p)))
  }

  /** The duty is zero exactly at the set-point, and drives towards it. */
  ghost predicate Drives(b: Board) {
    && (forall d: int, p: int :: b.duty(d, p) == 0 <==> (d - p) % COUNT_RANGE == 0)
    && (forall d: int, p: int :: DrivesTo(b, d, p))
  }

  ghost predicate Sound(b: Board) {
    && b.read(0) == 0 && b.ready(0)
    && Drives(b) && ReadsBack(b)
    && (forall x: Encoder, y: Encoder :: -1 <= b.decode(x, y) <= 1)
  }

  function Init(register: nat): State {
    State(Driver(0, 0, 0, 0, 0, register), false, 0, Starting, Receiving, 0, NO_INTERRUPT)
  }

  predicate Enabled(s: State, e: Event) {
    match e
    case Interrupt(_) => s.interrupts
    case ReadDesired => s.motor.Reading? && s.motor.target.None?
    case ReadPosition => s.motor.Reading? && s.motor.place.None?
    case Proceed(_) =>
      && (s.motor.Waiting? ==> s.sem > 0)
      && (s.motor.Reading? ==> s.motor.target.Some? && s.motor.place.Some?)
    case Receive(_) => s.receiver.Receiving?
    case Give => s.receiver.Received?
  }

  /** One more interrupt, which counts the movement `step`. */
  function Moved(m: Motor, step: int): Motor {
    if m.Reading? && m.place.Some? then
      Reading(m.target, m.place, Window(m.moved.count + 1, m.moved.net + step))
    else m
  }

  /** motor_isr on a board that drives its motor. */
  function Handled(b: Board, d: Driver, e: Encoder): Driver {
    var position := d.position + b.decode(d.encoder, e);
    var duty := b.duty(d.desired, position);
    Driver(position, (d.irqCount + 1) % COUNT_RANGE, d.desired, duty, e, b.write(d.register, duty))
  }

  function ProceedStep(b: Board, s: State, e: Encoder): State
    requires Enabled(s, Proceed(e))
  {
    match s.motor
    case Starting =>
      s.(driver := s.driver.(position := 0, irqCount := 0, encoder := e, register := 0),
         interrupts := true, motor := Waiting)
    case Waiting => s.(sem := s.sem - 1, motor := Reading(None, None, NO_INTERRUPT))
    case Reading(d, p, moved) => s.(interrupts := false, motor := Masked(d.value, p.value, moved))
    case Masked(d, p, moved) =>
      s.(driver := s.driver.(register := b.write(s.driver.register, b.duty(d, p))),
         motor := Written(d, p, moved))
    case Written(d, p, moved) =>
      s.(driver := s.driver.(duty := b.duty(d, p)), motor := Stored(d, p, moved),
         usedDesired := d, drift := moved)
    case Stored(_, _, _) => s.(interrupts := true, motor := Waiting)
  }

  function Apply(b: Board, s: State, e: Event): State
    requires Enabled(s, e)
  {
    match e
    case Interrupt(x) =>
      var d := Handled(b, s.driver, x);
      s.(driver := d, motor := Moved(s.motor, b.decode(s.driver.encoder, x)),
         usedDesired := d.desired, drift := NO_INTERRUPT)
    case ReadDesired => s.(motor := s.motor.(target := Some(s.driver.desired)))
    case ReadPosition => s.(motor := s.motor.(place := Some(s.driver.position)))
    case Proceed(x) => ProceedStep(b, s, x)
    case Receive(d) => s.(driver := s.driver.(desired := d), receiver := Received)
    case Give => s.(sem := s.sem + 1, receiver := Receiving)
  }

  // ---------------------------------------------------------------- the invariant

  /** Some future pass of the motor task will read the set-point anew. */
  predicate PassAhead(s: State) {
    s.sem > 0 || s.receiver.Received?
  }

  /** A set-point that the motor task has already read is current, or will be read again. */
  predicate ReadIsCurrent(s: State) {
    match s.motor
    case Reading(Some(d), _, _) => d == s.driver.desired || PassAhead(s)
    case Masked(d, _, _) => d == s.driver.desired || PassAhead(s)
    case Written(d, _, _) => d == s.driver.desired || PassAhead(s)
    case Stored(d, _, _) => d == s.driver.desired || PassAhead(s)
    case _ => true
  }

  /** The shaft has moved from position p to position q, at most one step an interrupt. */
  predicate MovedBy(p: int, q: int, w: Window) {
    q == p + w.net && Abs(w.net) <= w.count
  }

  /** A position that the motor task has read is off by what the interrupts since have moved. */
  predicate ReadIsNear(s: State) {
    match s.motor
    case Reading(_, Some(p), moved) => MovedBy(p, s.driver.position, moved)
    case Reading(_, None, moved) => moved == NO_INTERRUPT
    case Masked(_, p, moved) => MovedBy(p, s.driver.position, moved)
    case Written(_, p, moved) => MovedBy(p, s.driver.position, moved)
    case Stored(_, p, moved) => MovedBy(p, s.driver.position, moved) && moved == s.drift
    case _ => true
  }

  /** The position from which the duty in force was computed. */
  function Used(s: State): int {
    s.driver.position - s.drift.net
  }

  predicate ForceIsCurrent(s: State) {
    (s.motor.Starting? || s.motor.Waiting? || s.motor.Stored?) ==>
      s.usedDesired == s.driver.desired || PassAhead(s)
  }

  predicate ForceIsExplained(b: Board, s: State) {
    && s.driver.duty == b.duty(s.usedDesired, Used(s))
    && MovedBy(Used(s), s.driver.position, s.drift)
    && (s.motor.Stored? ==> s.usedDesired == s.motor.desired)
  }

  predicate RegisterOk(b: Board, s: State) {
    && (s.motor.Written? ==> b.read(s.driver.register) == b.duty(s.motor.desired, s.motor.position))
    && (!s.motor.Written? && !s.motor.Starting? ==> b.read(s.driver.register) == s.driver.duty)
    && (!s.motor.Starting? ==> b.ready(s.driver.register))
  }

  predicate Inv(b: Board, s: State) {
    && ReadIsCurrent(s) && ReadIsNear(s) && ForceIsCurrent(s) && ForceIsExplained(b, s) && RegisterOk(b, s)
    && (s.interrupts <==> s.motor.Waiting? || s.motor.Reading?)
    && (s.motor.Starting? ==> s.usedDesired == s.driver.position == s.driver.duty == 0 && s.drift == NO_INTERRUPT)
  }

  lemma InitKeeps(b: Board, register: nat)
    requires Sound(b)
    ensures Inv(b, Init(register))
  {
  }

  lemma InterruptKeeps(b: Board, s: State, x: Encoder)
    requires Sound(b) && Inv(b, s) && s.interrupts
    ensures Inv(b, Apply(b, s, Interrupt(x)))
  {
    assert -1 <= b.decode(s.driver.encoder, x) <= 1;
  }

  lemma ProceedKeeps(b: Board, s: State, x: Encoder)
    requires Sound(b) && Inv(b, s) && Enabled(s, Proceed(x))
    ensures Inv(b, Apply(b, s, Proceed(x)))
  {
  }

  lemma TaskStepKeeps(b: Board, s: State, e: Event)
    requires Inv(b, s) && Enabled(s, e) && (e.ReadDesired? || e.ReadPosition? || e.Receive? || e.Give?)
    ensures Inv(b, Apply(b, s, e))
  {
  }

  lemma StepKeeps(b: Board, s: State, e: Event)
    requires Sound(b) && Inv(b, s) && Enabled(s, e)
    ensures Inv(b, Apply(b, s, e))
  {
    if e.Interrupt? {
      InterruptKeeps(b, s, e.e);
    } else if e.Proceed? {
      ProceedKeeps(b, s, e.e);
    } else {
      TaskStepKeeps(b, s, e);
    }
  }

  // ---------------------------------------------------------------- runs

  /** The state after any interleaving; an event that is not enabled changes nothing. register is what the
      hardware register holds at power-up. */
  ghost function After(b: Board, register: nat, es: seq<Event>): State {
    if es == [] then Init(register)
    else
      var s := After(b, register, es[..|es| - 1]);
      var e := es[|es| - 1];
      if Enabled(s, e) then Apply(b, s, e) else s
  }

  lemma {:induction false} AfterKeeps(b: Board, register: nat, es: seq<Event>)
    requires Sound(b)
    ensures Inv(b, After(b, register, es))
  {
    if es == [] {
      InitKeeps(b, register);
    } else {
      var s := After(b, register, es[..|es| - 1]);
      AfterKeeps(b, register, es[..|es| - 1]);
      if Enabled(s, es[|es| - 1]) {
        StepKeeps(b, s, es[|es| - 1]);
      }
    }
  }

  /** drift is empty after every interrupt, and a completed pass sets it to the interrupts that came between
      the reading of the position and the disabling of interrupts, each with the movement that the decoder
      counted for it; nothing else changes it. */
  lemma DriftIsWindow(b: Board, s: State, e: Event)
    requires Inv(b, s) && Enabled(s, e)
    ensures var t := Apply(b, s, e);
            && t.drift == (if e.Interrupt? then NO_INTERRUPT
                           else if e.Proceed? && s.motor.Written? then s.motor.moved
                           else s.drift)
            && (e.Interrupt? && s.motor.Reading? && s.motor.place.Some? ==>
                  && t.motor.Reading? && t.motor.moved.count == s.motor.moved.count + 1
                  && t.motor.moved.net - s.motor.moved.net == t.driver.position - s.driver.position)
            && (e.ReadPosition? ==> t.motor.Reading? && t.motor.moved == NO_INTERRUPT)
            && (s.motor.Reading? && t.motor.Masked? ==> t.motor.moved == s.motor.moved && !t.interrupts)
            && (s.motor.Masked? && t.motor.Written? ==> t.motor.moved == s.motor.moved && !t.interrupts)
  {
  }

  /** The motor task waits at an empty semaphore, and the receiver is not between its write and its give. */
  predicate AtRest(s: State) {
    s.motor.Waiting? && s.sem == 0 && s.receiver.Receiving?
  }

  /** No set-point is lost: whenever the motor task waits at an empty semaphore and the receiver is not
      between its write and its give, the duty in force is the controller's answer for the current
      set-point and the position before the net movement in the window of the last pass; that movement is at
      most one step for each interrupt in the window, and none after any later interrupt. */
  lemma NoSetPointIsLost(b: Board, register: nat, es: seq<Event>)
    requires Sound(b)
    ensures var s := After(b, register, es);
            AtRest(s) ==>
              && s.driver.duty == b.duty(s.driver.desired, s.driver.position - s.drift.net)
              && s.driver.duty == b.read(s.driver.register)
              && Abs(s.drift.net) <= s.drift.count
  {
    AfterKeeps(b, register, es);
  }

  /** At rest the motor stands still if and only if the set-point lies the net movement in the window before
      the current position, modulo the range of the subtraction. So it stands still off its set-point exactly
      if, besides, that movement is not a multiple of the range. */
  lemma RestsAtSetPoint(b: Board, register: nat, es: seq<Event>)
    requires Sound(b)
    ensures var s := After(b, register, es);
            var off := s.driver.desired - s.driver.position;
            AtRest(s) ==>
              && (s.driver.duty == 0 <==> (off + s.drift.net) % COUNT_RANGE == 0)
              && (s.driver.duty == 0 && off % COUNT_RANGE != 0 <==>
                    (off + s.drift.net) % COUNT_RANGE == 0 && s.drift.net % COUNT_RANGE != 0)
  {
    var s := After(b, register, es);
    if AtRest(s) {
      NoSetPointIsLost(b, register, es);
      var used := s.driver.position - s.drift.net;
      assert b.duty(s.driver.desired, used) == 0 <==> (s.driver.desired - used) % COUNT_RANGE == 0;
      ZeroSum(s.driver.desired - s.driver.position, s.drift.net);
    }
  }

  lemma ZeroSum(x: int, y: int)
    ensures (x + y) % COUNT_RANGE == 0 ==> (x % COUNT_RANGE == 0 <==> y % COUNT_RANGE == 0)
  {
  }

  /** Outside the two critical sections the register stands for pwm_duty, and from the end of motor_init
      it never holds anything but 0 or what the controller may write. */
  lemma RegisterStandsForDuty(b: Board, register: nat, es: seq<Event>)
    requires Sound(b)
    ensures var s := After(b, register, es);
            && (!s.motor.Starting? && !s.motor.Written? ==> b.read(s.driver.register) == s.driver.duty)
            && (!s.motor.Starting? ==> b.ready(s.driver.register))
  {
    AfterKeeps(b, register, es);
  }

  // ---------------------------------------------------------------- a set-point takes effect

  /** The step with which the receiver and the motor task come to rest. */
  function NextStep(s: State): Event {
    if s.receiver.Received? then Give
    else if s.motor.Reading? && s.motor.target.None? then ReadDesired
    else if s.motor.Reading? && s.motor.place.None? then ReadPosition
    else Proceed(0)
  }

  function StepsOfPass(m: Motor): nat {
    match m
    case Reading(d, p, _) => 4 + (if d.None? then 1 else 0) + if p.None? then 1 else 0
    case Masked(_, _, _) => 3
    case Written(_, _, _) => 2
    case Stored(_, _, _) => 1
    case _ => 0
  }

  /** The number of steps until they are at rest. */
  function StepsToRest(s: State): nat {
    7 * s.sem + (if s.receiver.Received? then 8 else 0) + StepsOfPass(s.motor)
  }

  /** The drift that they will leave. */
  function DriftAtRest(s: State): Window {
    if PassAhead(s) then NO_INTERRUPT
    else
      match s.motor
      case Reading(_, _, moved) => moved
      case Masked(_, _, moved) => moved
      case Written(_, _, moved) => moved
      case _ => s.drift
  }

  lemma OneStepToRest(b: Board, s: State)
    requires !s.motor.Starting? && !AtRest(s)
    ensures Enabled(s, NextStep(s))
    ensures var t := Apply(b, s, NextStep(s));
            && !t.motor.Starting? && StepsToRest(t) == StepsToRest(s) - 1 && DriftAtRest(t) == DriftAtRest(s)
            && t.driver.desired == s.driver.desired && t.driver.position == s.driver.position
  {
  }

  /** The steps es, all enabled, lead from s to t. */
  ghost predicate LeadsTo(b: Board, s: State, es: seq<Event>, t: State)
    decreases |es|
  {
    if es == [] then s == t
    else Enabled(s, es[0]) && LeadsTo(b, Apply(b, s, es[0]), es[1..], t)
  }

  lemma Prepend(b: Board, s: State, e: Event, es: seq<Event>, t: State)
    requires Enabled(s, e) && LeadsTo(b, Apply(b, s, e), es, t)
    ensures LeadsTo(b, s, [e] + es, t)
  {
    assert ([e] + es)[1..] == es;
  }

  lemma {:induction false} LeadsOn(b: Board, s: State, es: seq<Event>, t: State, fs: seq<Event>, u: State)
    requires LeadsTo(b, s, es, t) && LeadsTo(b, t, fs, u)
    ensures LeadsTo(b, s, es + fs, u)
    decreases |es|
  {
    if es == [] {
      assert es + fs == fs;
    } else {
      LeadsOn(b, Apply(b, s, es[0]), es[1..], t, fs, u);
      assert (es + fs)[1..] == es[1..] + fs;
    }
  }

  lemma {:induction false} LeadsToKeeps(b: Board, s: State, es: seq<Event>, t: State)
    requires Sound(b) && Inv(b, s) && LeadsTo(b, s, es, t)
    ensures Inv(b, t)
    decreases |es|
  {
    if es != [] {
      StepKeeps(b, s, es[0]);
      LeadsToKeeps(b, Apply(b, s, es[0]), es[1..], t);
    }
  }

  lemma AfterSnoc(b: Board, register: nat, history: seq<Event>, e: Event)
    requires Enabled(After(b, register, history), e)
    ensures After(b, register, history + [e]) == Apply(b, After(b, register, history), e)
  {
    assert (history + [e])[..|history|] == history;
  }

  /** Such steps continue a run. */
  lemma {:induction false} AfterLeadsTo(b: Board, register: nat, history: seq<Event>, es: seq<Event>, t: State)
    requires LeadsTo(b, After(b, register, history), es, t)
    ensures After(b, register, history + es) == t
    decreases |es|
  {
    if es == [] {
      assert history + es == history;
    } else {
      AfterSnoc(b, register, history, es[0]);
      AfterLeadsTo(b, register, history + [es[0]], es[1..], t);
      assert history + es == history + [es[0]] + es[1..];
    }
  }

  /** Neither an interrupt nor a new set-point. */
  predicate Undisturbed(es: seq<Event>) {
    forall i | 0 <= i < |es| :: !es[i].Interrupt? && !es[i].Receive?
  }

  /** Left alone, receiver and motor task come to rest. */
  lemma {:induction false} ComesToRest(b: Board, s: State) returns (es: seq<Event>, t: State)
    requires !s.motor.Starting?
    ensures LeadsTo(b, s, es, t) && Undisturbed(es)
    ensures |es| == StepsToRest(s) && AtRest(t) && t.drift == DriftAtRest(s)
    ensures t.driver.desired == s.driver.desired && t.driver.position == s.driver.position
    decreases StepsToRest(s)
  {
    if AtRest(s) {
      es, t := [], s;
    } else {
      OneStepToRest(b, s);
      var rest;
      rest, t := ComesToRest(b, Apply(b, s, NextStep(s)));
      Prepend(b, s, NextStep(s), rest, t);
      es := [NextStep(s)] + rest;
    }
  }

  lemma SettlesOn(b: Board, s: State) returns (es: seq<Event>, t: State)
    requires Sound(b) && Inv(b, s) && !s.motor.Starting? && s.receiver.Received?
    ensures LeadsTo(b, s, es, t) && Undisturbed(es) && AtRest(t) && |es| == StepsToRest(s)
    ensures t.driver.desired == s.driver.desired && t.driver.position == s.driver.position
    ensures t.driver.duty == b.duty(t.driver.desired, t.driver.position) == b.read(t.driver.register)
  {
    es, t := ComesToRest(b, s);
    LeadsToKeeps(b, s, es, t);
  }

  /** Whatever happened before, a set-point that arrives takes effect: with no interrupt and no other
      set-point in between, receiver and motor task come to rest after as many steps as stated, and then
      the duty in force, in the variable and in the register, is exactly the controller's answer for the
      new set-point and the current position. */
  lemma SetPointTakesEffect(b: Board, register: nat, history: seq<Event>, d: int)
    returns (es: seq<Event>, t: State)
    requires Sound(b)
    requires var s := After(b, register, history); !s.motor.Starting? && s.receiver.Receiving?
    ensures var s := After(b, register, history);
            && LeadsTo(b, Apply(b, s, Receive(d)), es, t) && Undisturbed(es) && AtRest(t)
            && |es| == 7 * s.sem + 8 + StepsOfPass(s.motor)
            && t.driver.desired == d && t.driver.position == s.driver.position
            && t.driver.duty == b.duty(d, t.driver.position) == b.read(t.driver.register)
            && (Fits(d - t.driver.position) ==>
                  && (b.read(t.driver.register) > 0 <==> d > t.driver.position)
                  && (b.read(t.driver.register) < 0 <==> d < t.driver.position))
  {
    AfterKeeps(b, register, history);
    StepKeeps(b, After(b, register, history), Receive(d));
    es, t := SettlesOn(b, Apply(b, After(b, register, history), Receive(d)));
    assert DrivesTo(b, d, t.driver.position);
  }

  // ---------------------------------------------------------------- interrupts in the window

  function Interrupts(xs: seq<Encoder>): (es: seq<Event>)
    ensures |es| == |xs|
  {
    seq(|xs|, i requires 0 <= i < |xs| => Interrupt(xs[i]))
  }

  /** How far the board counts the shaft to move while interrupts sample xs. */
  function Moves(b: Board, first: Encoder, xs: seq<Encoder>): int
    decreases |xs|
  {
    if xs == [] then 0 else b.decode(first, xs[0]) + Moves(b, xs[0], xs[1..])
  }

  /** Interrupts between the reading of the position and intDisable. */
  lemma {:induction false} InterruptsCount(b: Board, s: State, xs: seq<Encoder>) returns (t: State)
    requires s.interrupts && s.motor.Reading? && s.motor.place.Some?
    ensures LeadsTo(b, s, Interrupts(xs), t)
    ensures t.motor.Reading? && t.motor.target == s.motor.target && t.motor.place == s.motor.place
    ensures t.sem == s.sem && t.receiver == s.receiver && t.driver.desired == s.driver.desired
    ensures t.driver.position == s.driver.position + Moves(b, s.driver.encoder, xs)
    ensures t.motor.moved
            == Window(s.motor.moved.count + |xs|, s.motor.moved.net + Moves(b, s.driver.encoder, xs))
    decreases |xs|
  {
    if xs == [] {
      t := s;
    } else {
      t := InterruptsCount(b, Apply(b, s, Interrupt(xs[0])), xs[1..]);
      Prepend(b, s, Interrupt(xs[0]), Interrupts(xs[1..]), t);
      assert Interrupts(xs) == [Interrupt(xs[0])] + Interrupts(xs[1..]);
    }
  }

  /** The end of a pass. */
  const FINISH: seq<Event> := [Proceed(0), Proceed(0), Proceed(0), Proceed(0)]

  lemma PassFinishes(b: Board, s: State) returns (t: State)
    requires s.motor.Reading? && s.motor.target.Some? && s.motor.place.Some?
    ensures LeadsTo(b, s, FINISH, t) && t.motor.Waiting? && t.sem == s.sem && t.receiver == s.receiver
    ensures t.driver.desired == s.driver.desired && t.driver.position == s.driver.position
    ensures t.driver.duty == b.duty(s.motor.target.value, s.motor.place.value) && t.drift == s.motor.moved
  {
    var p := Proceed(0);
    var s1 := Apply(b, s, p);
    var s2 := Apply(b, s1, p);
    var s3 := Apply(b, s2, p);
    t := Apply(b, s3, p);
    assert LeadsTo(b, t, [], t);
    Prepend(b, s3, p, [], t);
    Prepend(b, s2, p, [p], t);
    Prepend(b, s1, p, [p, p], t);
    Prepend(b, s, p, [p, p, p], t);
    assert FINISH == [p] + [p, p, p] && [p] + [p, p] == [p, p, p] && [p] + [p] == [p, p] && [p] + [] == [p];
  }

  lemma StaleRun(b: Board, s: State, xs: seq<Encoder>) returns (t: State)
    requires Inv(b, s) && s.motor.Reading? && s.motor.target.Some? && s.motor.place.None?
    requires s.sem == 0 && s.receiver.Receiving?
    ensures LeadsTo(b, s, [ReadPosition] + (Interrupts(xs) + FINISH), t)
    ensures AtRest(t) && t.driver.desired == s.driver.desired
    ensures t.driver.duty == b.duty(s.driver.desired, s.driver.position)
    ensures t.driver.position == s.driver.position + Moves(b, s.driver.encoder, xs)
    ensures t.drift == Window(|xs|, Moves(b, s.driver.encoder, xs))
  {
    assert s.motor.target.value == s.driver.desired && s.motor.moved == NO_INTERRUPT;
    var s1 := Apply(b, s, ReadPosition);
    var s2 := InterruptsCount(b, s1, xs);
    t := PassFinishes(b, s2);
    LeadsOn(b, s1, Interrupts(xs), s2, FINISH, t);
    Prepend(b, s, ReadPosition, Interrupts(xs) + FINISH, t);
  }

  /** The task reads the position, interrupts with samples xs come, and the task disables interrupts and
      overwrites what the handler has just set: it comes to rest with the duty for the position before xs,
      which is wrong for the current position whenever the controller tells the two positions apart. */
  lemma StaleDuty(b: Board, register: nat, history: seq<Event>, xs: seq<Encoder>)
    requires Sound(b)
    requires var s := After(b, register, history);
             s.motor.Reading? && s.motor.target.Some? && s.motor.place.None? && s.sem == 0 && s.receiver.Receiving?
    ensures var s := After(b, register, history);
            var t := After(b, register, history + ([ReadPosition] + (Interrupts(xs) + FINISH)));
            var p, d := s.driver.position, s.driver.desired;
            && AtRest(t) && t.driver.desired == d && t.driver.duty == b.duty(d, p)
            && t.driver.position == p + Moves(b, s.driver.encoder, xs)
            && t.drift == Window(|xs|, Moves(b, s.driver.encoder, xs))
  {
    AfterKeeps(b, register, history);
    var t := StaleRun(b, After(b, register, history), xs);
    AfterLeadsTo(b, register, history, [ReadPosition] + (Interrupts(xs) + FINISH), t);
  }

  // ---------------------------------------------------------------- the board of the repository

  function DutyFor(desired: int, position: int): int {
    GetPwm(Distance(desired, position))
  }

  /** No direction bit is set, or exactly one is and the duty is no longer than the period. */
  predicate WordOk(word: nat) {
    word == 0 || ((Forward(word) <==> !Backward(word)) && Ticks(word) <= PWM_PERIOD)
  }

  function OurBoard(): Board {
    Board(DutyFor, SetDuty, Decode, WordOk, Transition)
  }

  lemma WrittenRegister(register: nat, d: int, p: int)
    ensures Decode(SetDuty(register, DutyFor(d, p))) == DutyFor(d, p)
    ensures WordOk(SetDuty(register, DutyFor(d, p)))
  {
    ControllerIsAccepted(register, Distance(d, p));
    PwmShape(Distance(d, p));
    EncodeRoundTrip(DutyFor(d, p));
  }

  lemma StandsStill(desired: int, position: int)
    ensures DutyFor(desired, position) == 0 <==> (desired - position) % COUNT_RANGE == 0
  {
    ZeroDistance(desired - position);
    PwmShape(Distance(desired, position));
  }

  lemma ZeroDistance(y: int)
    ensures (y + 0x8000_0000) % 0x1_0000_0000 == 0x8000_0000 <==> y % COUNT_RANGE == 0
  {
  }

  lemma OurBoardReadsBack()
    ensures ReadsBack(OurBoard())
  {
    var b := OurBoard();
    forall r: nat, d: int, p: int
      ensures b.read(b.write(r, b.duty(d, p))) == b.duty(d, p) && b.ready(b.write(r, b.duty(d, p)))
    {
      WrittenRegister(r, d, p);
    }
  }

  lemma OurBoardDrives()
    ensures Drives(OurBoard())
  {
    var b := OurBoard();
    forall d: int, p: int
      ensures (b.duty(d, p) == 0 <==> (d - p) % COUNT_RANGE == 0) && DrivesTo(b, d, p)
    {
      StandsStill(d, p);
      if Fits(d - p) {
        DrivesTowards(d, p);
      }
    }
  }

  /** The board of this repository is sound, so everything above holds for it. */
  lemma OurBoardIsSound()
    ensures Sound(OurBoard())
  {
    OurBoardReadsBack();
    OurBoardDrives();
  }

  lemma {:induction false} MovesAreTravel(first: Encoder, xs: seq<Encoder>)
    ensures Moves(OurBoard(), first, xs) == Travel(first, xs)
    decreases |xs|
  {
    if xs != [] {
      MovesAreTravel(xs[0], xs[1..]);
      TravelStep(first, xs);
    }
  }

  /** The start of a first pass for set-point 0, up to the reading of the position. */
  const FIRST_PASS: seq<Event> := [Proceed(0), Receive(0), Give, Proceed(0), ReadDesired]

  lemma FirstPass(b: Board, register: nat)
    ensures var s := After(b, register, FIRST_PASS);
            && s.motor == Reading(Some(0), None, NO_INTERRUPT) && s.sem == 0 && s.receiver.Receiving?
            && s.driver.position == 0 && s.driver.desired == 0 && s.driver.encoder == 0
  {
    var s0 := Init(register);
    var s1 := Apply(b, s0, Proceed(0));
    var s2 := Apply(b, s1, Receive(0));
    var s3 := Apply(b, s2, Give);
    var s4 := Apply(b, s3, Proceed(0));
    var t := Apply(b, s4, ReadDesired);
    assert LeadsTo(b, t, [], t);
    Prepend(b, s4, ReadDesired, [], t);
    Prepend(b, s3, Proceed(0), [ReadDesired], t);
    Prepend(b, s2, Give, [Proceed(0), ReadDesired], t);
    Prepend(b, s1, Receive(0), [Give, Proceed(0), ReadDesired], t);
    Prepend(b, s0, Proceed(0), [Receive(0), Give, Proceed(0), ReadDesired], t);
    AfterLeadsTo(b, register, [], FIRST_PASS, t);
    assert [] + FIRST_PASS == FIRST_PASS;
  }

  /** On a board that counts one step for the encoder states 0 and x, a run ends at rest with the shaft one
      step off its set-point and the motor off. */
  lemma RestsOffByOne(b: Board, register: nat, x: Encoder) returns (es: seq<Event>)
    requires Sound(b) && b.decode(0, x) == 1
    ensures var s := After(b, register, es);
            && AtRest(s) && s.driver.desired == 0 && s.driver.position == 1
            && s.driver.duty == 0 && b.duty(0, 1) != 0
  {
    FirstPass(b, register);
    StaleDuty(b, register, FIRST_PASS, [x]);
    assert Moves(b, 0, [x]) == b.decode(0, x) + Moves(b, x, []);
    assert b.duty(0, 0) == 0 && b.duty(0, 1) != 0;
    es := FIRST_PASS + ([ReadPosition] + (Interrupts([x]) + FINISH));
  }

  /** The board of this repository has such a run. */
  lemma RestsOffSetPoint(register: nat) returns (es: seq<Event>)
    ensures Sound(OurBoard())
    ensures var s := After(OurBoard(), register, es);
            && AtRest(s) && s.driver.desired == 0 && s.driver.position == 1
            && s.driver.duty == 0 && DutyFor(0, 1) != 0
  {
    OurBoardIsSound();
    assert Transition(0, 1) == 1;
    es := RestsOffByOne(OurBoard(), register, 1);
  }

  /** The end of motor_init leaves the driver as the constructor of MotorDriver does, with the set-point and
      the duty that were there before; a new driver's duty is 0. */
  lemma StartIsInit(b: Board, s: State, e: Encoder)
    requires Inv(b, s) && s.motor.Starting?
    ensures Enabled(s, Proceed(e))
    ensures Apply(b, s, Proceed(e)).driver == Driver(0, 0, s.driver.desired, 0, e, 0)
    ensures Apply(b, s, Proceed(e)).interrupts && Apply(b, s, Proceed(e)).motor.Waiting?
  {
  }

  /** Its interrupt handler is that of the driver. */
  lemma HandlerAgrees(d: Driver, e: Encoder)
    ensures Handled(OurBoard(), d, e) == Interrupted(d, e, true)
  {
    var b := OurBoard();
    var position := d.position + Transition(d.encoder, e);
    assert b.decode(d.encoder, e) == Transition(d.encoder, e);
    assert b.duty(d.desired, position) == DutyFor(d.desired, position);
    assert b.write(d.register, DutyFor(d.desired, position))
           == SetDuty(d.register, DutyFor(d.desired, position));
  }
}
