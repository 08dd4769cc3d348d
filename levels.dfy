/** The clamp every level actuator applies, `max(0, min(100, level))`, and
    what one of the commands it runs did. */
module Levels {

  /** What one `subprocess.run` call did: it raised (the program is missing,
      or `check=True` saw a failure), or it exited with a return code. */
  datatype Call = Raises | Exits(code: int)

  const MinLevel := 0
  const MaxLevel := 100

  predicate InRange(x: int) {
    MinLevel <= x <= MaxLevel
  }

  /** `max(0, min(100, x))` */
  function Clamp(x: int): (r: int)
    ensures InRange(r)
    ensures InRange(x) ==> r == x
    ensures x < MinLevel ==> r == MinLevel
    ensures x > MaxLevel ==> r == MaxLevel
  {
    if x < MinLevel then MinLevel else if x > MaxLevel then MaxLevel else x
  }

  /** Clamping an already clamped value changes nothing. */
  lemma ClampIdempotent(x: int)
    ensures Clamp(Clamp(x)) == Clamp(x)
  {
  }

  /** Clamping keeps the order of its arguments. */
  lemma ClampMonotone(x: int, y: int)
    requires x <= y
    ensures Clamp(x) <= Clamp(y)
  {
  }
}
