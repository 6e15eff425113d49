/** The 32-bit millisecond clock of the firmware, and what its comparisons say about real time. */
module Clock {
  const WRAP := 0x1_0000_0000
  const HALF := 0x8000_0000

  type U32 = x: nat | x < 0x1_0000_0000 witness 0

  /** What the clock shows `t` milliseconds after it started. */
  function Tick(t: nat): U32 {
    t % WRAP
  }

  /** `(int32_t)(now - deadline) >= 0`. */
  predicate Reached(now: U32, deadline: U32) {
    (now - deadline) % WRAP < HALF
  }

  /** `now - start`, in unsigned arithmetic. */
  function Since(now: U32, start: U32): U32 {
    (now - start) % WRAP
  }

  function Plus(t: U32, d: nat): U32 {
    (t + d) % WRAP
  }

  lemma {:induction false} ModShift(a: int, k: int)
    ensures (a + k * WRAP) % WRAP == a % WRAP
  {
    var q, r := a / WRAP, a % WRAP;
    assert a + k * WRAP == (q + k) * WRAP + r;
    ModUnique(a + k * WRAP, q + k, r);
  }

  lemma {:induction false} ModUnique(a: int, q: int, r: int)
    requires 0 <= r < WRAP && a == q * WRAP + r
    ensures a % WRAP == r
  {
  }

  lemma {:induction false} Difference(a: nat, b: nat)
    ensures (Tick(a) - Tick(b)) % WRAP == (a - b) % WRAP
  {
    var k := b / WRAP - a / WRAP;
    assert Tick(a) - Tick(b) == (a - b) + k * WRAP;
    ModShift(a - b, k);
  }

  /** A deadline counted on from a clock reading is the reading at the later time. */
  lemma {:induction false} PlusIsLater(t: nat, d: nat)
    ensures Plus(Tick(t), d) == Tick(t + d)
  {
    assert t + d == Tick(t) + d + (t / WRAP) * WRAP;
    ModShift(Tick(t) + d, t / WRAP);
  }

  /** The signed comparison agrees with real time exactly while the two times are within half a turn. */
  lemma {:induction false} ReachedAgrees(now: nat, deadline: nat)
    requires -0x8000_0000 <= now - deadline < 0x8000_0000
    ensures Reached(Tick(now), Tick(deadline)) <==> now >= deadline
  {
    Difference(now, deadline);
    if now < deadline {
      ModShift(now - deadline, 1);
    }
  }

  /** Outside that range it does not: half a turn after the deadline the comparison calls it unreached. */
  lemma {:induction false} ReachedTurnsOver(deadline: nat)
    ensures !Reached(Tick(deadline + 0x8000_0000), Tick(deadline))
  {
    Difference(deadline + HALF, deadline);
  }

  /** The unsigned difference never overstates the time gone by, and states it until the clock is back. */
  lemma {:induction false} SinceNeverMore(now: nat, start: nat)
    requires start <= now
    ensures Since(Tick(now), Tick(start)) <= now - start
    ensures Since(Tick(now), Tick(start)) == now - start <==> now - start < 0x1_0000_0000
  {
    Difference(now, start);
  }
}
