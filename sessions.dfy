/** The round-robin pool of HTTP sessions behind `get_session` (three sessions in the
    optimised and the final crawler, five in the bypass crawler). A session is identified by
    its index in the pool; its headers and connection state are not modelled. */
module Sessions {

  /** The index that follows `i` in a pool of `size` sessions: the next one, and the first
      after the last. */
  function Step(i: nat, size: nat): (r: nat)
    requires i < size
    ensures r < size
    ensures r == if i + 1 < size then i + 1 else 0
  {
    (i + 1) % size
  }

  /** The index `get_session` hands out after `k` further calls, starting from `start`. */
  function After(start: nat, size: nat, k: nat): (r: nat)
    requires start < size
    ensures r < size
  {
    if k == 0 then start else Step(After(start, size, k - 1), size)
  }

  class SessionPool {
    /** `len(self.sessions)`. */
    const size: nat
    /** `self.current_session`. */
    var current: nat

    ghost predicate Valid()
      reads this
    {
      0 < size && current < size
    }

    /** A pool of `n` sessions; the first call hands out session 0. */
    constructor (n: nat)
      requires n > 0
      ensures Valid() && size == n && current == 0
    {
      size := n;
      current := 0;
    }

    /** `get_session`: hand out the current session and advance the index by one, modulo
        the pool size. */
    method Next() returns (s: nat)
      requires Valid()
      modifies this
      ensures Valid()
      ensures s == old(current)
      ensures current == Step(old(current), size)
    {
      s := current;
      current := (current + 1) % size;
    }
  }

  /** Within one turn of the pool, `k` calls after `start` land on `start + k`, wrapped once. */
  lemma {:induction false} AfterWithinTurn(start: nat, size: nat, k: nat)
    requires start < size && k < size
    ensures After(start, size, k) == if start + k < size then start + k else start + k - size
  {
    if k > 0 {
      AfterWithinTurn(start, size, k - 1);
    }
  }

  /** Within `size` consecutive calls the pool hands out every session exactly once, from
      whichever index it starts. */
  lemma {:induction false} RoundRobinCovers(start: nat, size: nat, j: nat)
    requires start < size && j < size
    ensures exists k: nat | k < size :: After(start, size, k) == j
    ensures forall k1: nat, k2: nat | k1 < k2 < size :: After(start, size, k1) != After(start, size, k2)
  {
    var k: nat := if start <= j then j - start else j + size - start;
    AfterWithinTurn(start, size, k);
    forall k1: nat, k2: nat | k1 < k2 < size
      ensures After(start, size, k1) != After(start, size, k2)
    {
      AfterWithinTurn(start, size, k1);
      AfterWithinTurn(start, size, k2);
    }
  }
}
