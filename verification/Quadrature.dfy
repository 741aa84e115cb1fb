/** Decoding of the two-bit quadrature encoder. */
module Quadrature {

  type Encoder = s: nat | s < 4

  /** The place of an encoder state in the Gray code 0, 1, 3, 2. */
  function Phase(s: Encoder): (p: int)
    ensures 0 <= p < 4
  {
    match s
    case 0 => 0
    case 1 => 1
    case 3 => 2
    case _ => 3
  }

  /** The movement that two successive encoder states stand for: one phase on, one phase back, or
      none; if both bits have changed the direction is lost and nothing is counted. */
  function Transition(from: Encoder, next: Encoder): (t: int)
    ensures -1 <= t <= 1
  {
    var step := (Phase(next) - Phase(from)) % 4;
    if step == 1 then 1 else if step == 3 then -1 else 0
  }

  /** TRANSITION_TABLE; entries that the initialiser does not name are 0. */
  const TRANSITION_TABLE: seq<int> :=
    [0, 1, -1, 0,
     -1, 0, 0, 1,
     1, 0, 0, -1,
     0, -1, 1, 0]

  /** TRANSITION(old, new) */
  function TransitionIndex(from: Encoder, next: Encoder): (i: nat)
    ensures i < |TRANSITION_TABLE|
  {
    from * 4 + next
  }

  /** The table holds these movements. */
  lemma TableIsTransition(from: Encoder, next: Encoder)
    ensures TRANSITION_TABLE[TransitionIndex(from, next)] == Transition(from, next)
  {
    match (from, next) {
      case (0, 0) => case (0, 1) => case (0, 2) => case (0, _) =>
      case (1, 0) => case (1, 1) => case (1, 2) => case (1, _) =>
      case (2, 0) => case (2, 1) => case (2, 2) => case (2, _) =>
      case (_, 0) => case (_, 1) => case (_, 2) => case (_, _) =>
    }
  }

  /** The encoder state of a shaft that has turned x steps from phase 0. */
  function Shaft(x: int): (s: Encoder)
    ensures Phase(s) == x % 4
  {
    if x % 4 == 0 then 0 else if x % 4 == 1 then 1 else if x % 4 == 2 then 3 else 2
  }

  /** Both encoder bits change: the direction is lost and the table says 0. */
  predicate IsSkip(from: Encoder, next: Encoder) {
    (Phase(next) - Phase(from)) % 4 == 2
  }

  /** What the interrupts with the given samples add to the position, starting from state first. */
  function Travel(first: Encoder, samples: seq<Encoder>): int
    decreases |samples|
  {
    if samples == [] then 0
    else Transition(first, samples[0]) + Travel(samples[0], samples[1..])
  }

  function Skips(first: Encoder, samples: seq<Encoder>): nat
    decreases |samples|
  {
    if samples == [] then 0
    else (if IsSkip(first, samples[0]) then 1 else 0) + Skips(samples[0], samples[1..])
  }

  function Last(first: Encoder, samples: seq<Encoder>): Encoder {
    if samples == [] then first else samples[|samples| - 1]
  }

  /** turns says how often the phase wraps around. */
  lemma TransitionIsPhaseStep(from: Encoder, next: Encoder) returns (turns: int)
    ensures Transition(from, next) + (if IsSkip(from, next) then 2 else 0) == Phase(next) - Phase(from) + 4 * turns
    ensures Transition(next, from) == -Transition(from, next)
  {
    var p: int, q: int := Phase(from), Phase(next);
    var d := q - p;
    assert d == -3 || d == -2 || d == -1 || d == 0 || d == 1 || d == 2 || d == 3;
    turns := if d <= -2 then 1 else if d == 3 then -1 else 0;
  }

  /** Over any samples, the position plus twice the number of skips equals the change of phase up to
      whole turns of four steps, and the position moves by at most one step an interrupt. */
  lemma {:induction false} TravelFollowsPhase(first: Encoder, samples: seq<Encoder>) returns (turns: int)
    ensures Travel(first, samples) + 2 * Skips(first, samples)
            == Phase(Last(first, samples)) - Phase(first) + 4 * turns
    ensures -|samples| <= Travel(first, samples) <= |samples|
    decreases |samples|
  {
    turns := 0;
    if samples != [] {
      var x := samples[0];
      var one := TransitionIsPhaseStep(first, x);
      var rest := TravelFollowsPhase(x, samples[1..]);
      assert Last(first, samples) == Last(x, samples[1..]);
      turns := one + rest;
    }
  }

  lemma ModDifference(x: int, y: int)
    ensures (y % 4 - x % 4) % 4 == (y - x) % 4
  {
    var a, b := x / 4, y / 4;
    assert y - x == 4 * (b - a) + (y % 4 - x % 4);
  }

  /** One interrupt reports the true movement of the shaft exactly if it is at most one step. */
  lemma TransitionIsMovement(x: int, y: int)
    ensures Transition(Shaft(x), Shaft(y)) == y - x <==> -1 <= y - x <= 1
  {
    ModDifference(x, y);
    assert (Phase(Shaft(y)) - Phase(Shaft(x))) % 4 == (y - x) % 4;
  }

  function Sampled(xs: seq<int>): (s: seq<Encoder>)
    decreases |xs|
    ensures |s| == |xs| && forall i | 0 <= i < |xs| :: s[i] == Shaft(xs[i])
  {
    if xs == [] then [] else [Shaft(xs[0])] + Sampled(xs[1..])
  }

  lemma SampledParts(xs: seq<int>)
    requires xs != []
    ensures Sampled(xs)[0] == Shaft(xs[0]) && Sampled(xs)[1..] == Sampled(xs[1..])
  {
  }

  /** Each shaft angle is at most one step from the one before it. */
  predicate Slow(x: int, xs: seq<int>)
    decreases |xs|
  {
    xs == [] || (-1 <= xs[0] - x <= 1 && Slow(xs[0], xs[1..]))
  }

  lemma TravelStep(first: Encoder, samples: seq<Encoder>)
    requires samples != []
    ensures Travel(first, samples) == Transition(first, samples[0]) + Travel(samples[0], samples[1..])
  {
  }

  lemma ShaftStep(x: int, xs: seq<int>)
    requires xs != []
    ensures Travel(Shaft(x), Sampled(xs))
            == Transition(Shaft(x), Shaft(xs[0])) + Travel(Shaft(xs[0]), Sampled(xs[1..]))
  {
    SampledParts(xs);
    TravelStep(Shaft(x), Sampled(xs));
  }

  /** If the shaft turns at most one step between interrupts, the position is its true displacement. */
  lemma {:induction false} TravelIsDisplacement(x: int, xs: seq<int>)
    requires Slow(x, xs)
    ensures Travel(Shaft(x), Sampled(xs)) == (if xs == [] then x else xs[|xs| - 1]) - x
    decreases |xs|
  {
    if xs != [] {
      TransitionIsMovement(x, xs[0]);
      TravelIsDisplacement(xs[0], xs[1..]);
      ShaftStep(x, xs);
    }
  }

  lemma {:induction false} TravelAppend(first: Encoder, a: seq<Encoder>, b: seq<Encoder>)
    ensures Travel(first, a + b) == Travel(first, a) + Travel(Last(first, a), b)
    decreases |a|
  {
    if a == [] {
      assert a + b == b;
    } else {
      TravelAppend(a[0], a[1..], b);
      assert (a + b)[1..] == a[1..] + b;
      assert Last(a[0], a[1..]) == Last(first, a);
    }
  }

  /** The samples on the way back along first, samples. */
  function Back(first: Encoder, samples: seq<Encoder>): seq<Encoder>
    decreases |samples|
  {
    if samples == [] then [] else Back(samples[0], samples[1..]) + [first]
  }

  /** A path followed by its reverse returns the position to where it was, skips included. */
  lemma {:induction false} ThereAndBack(first: Encoder, samples: seq<Encoder>)
    ensures Travel(first, samples + Back(first, samples)) == 0
    ensures Last(Last(first, samples), Back(first, samples)) == first
    decreases |samples|
  {
    if samples == [] {
      assert samples + Back(first, samples) == [];
    } else {
      var x, rest := samples[0], samples[1..];
      var back := Back(x, rest);
      ThereAndBack(x, rest);
      assert samples + Back(first, samples) == [x] + ((rest + back) + [first]);
      TravelAppend(x, rest + back, [first]);
      assert Last(x, rest + back) == x by {
        if rest == [] {
          assert rest + back == [];
        } else {
          assert back != [];
          assert Last(Last(x, rest), back) == back[|back| - 1] == (rest + back)[|rest + back| - 1];
        }
      }
      assert ([x] + ((rest + back) + [first]))[1..] == (rest + back) + [first];
      var turns := TransitionIsPhaseStep(first, x);
      assert Travel(x, [first]) == Transition(x, first) by {
        assert Travel(first, [first][1..]) == 0;
      }
    }
  }
}
