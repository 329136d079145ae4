/** The 16-bit tag counter: it wraps, skips 0, and so repeats every 65535 allocations. */
module Tags {
  import opened Protocol

  const PERIOD: nat := 0xFFFF

  /** Tag of the n-th allocation, counting from 0. */
  function NthTag(n: nat): u16 {
    1 + n % PERIOD
  }

  /** The counter update: a wrapping 16-bit increment that steps over 0. */
  function NextTag(t: u16): u16 {
    var bumped := (t + 1) % 0x1_0000;
    if bumped == 0 then 1 else bumped
  }

  lemma NextTagIsNth(n: nat)
    ensures NextTag(NthTag(n)) == NthTag(n + 1)
  {
    if n % PERIOD == PERIOD - 1 {
      assert (n + 1) % PERIOD == 0;
    } else {
      assert (n + 1) % PERIOD == n % PERIOD + 1;
    }
  }

  /** Two allocations share a tag exactly when they are a multiple of 65535 apart. */
  lemma SameTagIff(i: nat, j: nat)
    requires i <= j
    ensures NthTag(i) == NthTag(j) <==> (j - i) % PERIOD == 0
  {
    var a, b := i / PERIOD, j / PERIOD;
    assert j - i == (b - a) * PERIOD + (j % PERIOD - i % PERIOD);
  }

  /** Any 65535 consecutive allocations carry pairwise distinct tags. */
  lemma WindowDistinct(i: nat, j: nat)
    requires i <= j < i + PERIOD
    ensures NthTag(i) == NthTag(j) ==> i == j
  {
    SameTagIff(i, j);
  }

  /** The counter behind its mutex. `issued` counts the allocations made so far. */
  class TagCounter {
    var nextTag: u16
    ghost var issued: nat

    ghost predicate Valid()
      reads this
    {
      nextTag == NthTag(issued)
    }

    constructor ()
      ensures Valid() && issued == 0
    {
      nextTag, issued := 1, 0;
    }

    method AllocTag() returns (tag: u16)
      requires Valid()
      modifies this
      ensures Valid() && issued == old(issued) + 1
      ensures tag == NthTag(old(issued)) && tag != 0
    {
      NextTagIsNth(issued);
      tag := nextTag;
      nextTag := (nextTag + 1) % 0x1_0000;
      if nextTag == 0 {
        nextTag := 1;
      }
      issued := issued + 1;
    }
  }
}
