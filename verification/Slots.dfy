/** Slots of a ring: frame k lives in slot k % B. */
module Slots {

  function SlotOf(B: nat, k: int): (i: int)
    requires B >= 1
    ensures 0 <= i < B
  {
    k % B
  }

  /** Frames less than a ring apart live in different slots. */
  lemma Distinct(B: nat, a: int, b: int)
    requires B >= 1 && a < b < a + B
    ensures SlotOf(B, a) != SlotOf(B, b)
  {
    if SlotOf(B, a) == SlotOf(B, b) {
      Apart(B, b / B - a / B, b - a);
    }
  }

  lemma Apart(B: nat, n: int, d: int)
    requires B >= 1 && d == n * B
    ensures !(0 < d < B)
  {
    if n >= 1 {
      assert n * B >= B;
    } else {
      assert n * B <= 0;
    }
  }

  lemma SameSlot(B: nat, k: int, n: nat)
    requires B >= 1
    ensures SlotOf(B, k + n * B) == SlotOf(B, k)
  {
    var q, r := k / B, k % B;
    assert (q + n) * B == q * B + n * B;
    QuotientUnique(B, k + n * B, q + n, r);
  }

  lemma QuotientUnique(B: nat, k: int, q: int, r: int)
    requires B >= 1 && 0 <= r < B && k == q * B + r
    ensures k % B == r
  {
    var q', r' := k / B, k % B;
    assert r' - r == (q - q') * B by { assert q * B - q' * B == (q - q') * B; }
    if r' > r {
      Apart(B, q - q', r' - r);
    } else if r' < r {
      assert r - r' == (q' - q) * B;
      Apart(B, q' - q, r - r');
    }
  }
}
