/**
 * The source draws every random quantity with `Math.random()`. The model replaces it
 * by an injected stream of natural numbers read from a cursor: the draw
 * `Math.floor(Math.random() * n)` is the next value modulo n, and the test
 * `Math.random() > t / 10` is "the next value modulo 10 is at least t". Both have
 * exactly the outcomes of the original draws; their probabilities are not modelled.
 */
module Oracle {

  /** The injected source of randomness: the value of the draw at each cursor position. */
  type Stream = nat -> nat

  /** `Math.floor(Math.random() * n)`: a value in [0, n). */
  function Draw(o: Stream, pos: nat, n: nat): (d: nat)
    requires n > 0
    ensures d < n
  {
    o(pos) % n
  }

  /** `Math.random() > tenths / 10`, up to the measure-zero boundary value. */
  predicate Chance(o: Stream, pos: nat, tenths: nat) {
    Draw(o, pos, 10) >= tenths
  }

  /** Value v turns up as a draw modulo n at some position at or after pos. */
  ghost predicate Recurs(o: Stream, n: nat, pos: nat, v: nat)
    requires n > 0
  {
    exists k: nat :: k >= pos && Draw(o, k, n) == v
  }

  /** Every value below n keeps turning up: the assumption under which a
      rejection-sampling loop over draws modulo n terminates. */
  ghost predicate Fair(o: Stream, n: nat)
    requires n > 0
  {
    forall pos: nat, v: nat :: v < n ==> Recurs(o, n, pos, v)
  }
}
