/** getNextTid: the ONU's two 16-bit OMCI transaction-id counters. */
module Tids {
  import opened Types

  const TidStart: uint16 := 1
  const HpTidStart: uint16 := 0x8000

  /** A uint16 increment, wrapping at 2^16 as Go's `+= 1` does. */
  function Inc16(t: uint16): (r: uint16)
    ensures t < 0xFFFF ==> r == t + 1
    ensures t == 0xFFFF ==> r == 0
  {
    (t + 1) % 0x1_0000
  }

  /** The normal-priority counter after one call: incremented, back to 1 once it reaches 0x8000. */
  function NextTid(t: uint16): (r: uint16)
    ensures 1 <= t < 0x8000 ==> 1 <= r < 0x8000
    ensures 1 <= t < 0x8000 ==> (r == 1 <==> t == 0x7FFF)
    ensures 1 <= t < 0x7FFF ==> r == t + 1
  {
    var n := Inc16(t);
    if n >= 0x8000 then 1 else n
  }

  /** The high-priority counter after one call: incremented, reset to 0x8000 when the increment wraps. */
  function NextHpTid(t: uint16): (r: uint16)
    ensures r >= 0x8000
    ensures t >= 0x8000 ==> (r == 0x8000 <==> t == 0xFFFF)
    ensures 0x8000 <= t < 0xFFFF ==> r == t + 1
  {
    var n := Inc16(t);
    if n < 0x8000 then 0x8000 else n
  }

  /** The normal-priority counter after `n` calls on a fresh ONU. */
  function TidAfter(n: nat): (t: uint16)
  {
    if n == 0 then TidStart else NextTid(TidAfter(n - 1))
  }

  /** The high-priority counter after `n` calls on a fresh ONU. */
  function HpTidAfter(n: nat): (t: uint16)
  {
    if n == 0 then HpTidStart else NextHpTid(HpTidAfter(n - 1))
  }

  /** One more step of a counter modulo `k`, for the two periods the counters have. */
  lemma ModSucc(m: nat, k: nat)
    requires k == 0x7FFF || k == 0x8000
    ensures (m + 1) % k == if m % k == k - 1 then 0 else m % k + 1
  {
    var q, r := m / k, m % k;
    assert m == q * k + r && 0 <= r < k;
    if r == k - 1 {
      assert m + 1 == (q + 1) * k;
    } else {
      assert m + 1 == q * k + (r + 1);
    }
  }

  /** The normal counter cycles through 1 .. 0x7FFF: it is never 0 and never reaches 0x8000. */
  lemma {:induction false} TidAfterCycles(n: nat)
    ensures TidAfter(n) == n % 0x7FFF + 1
  {
    if n > 0 {
      var m := n - 1;
      TidAfterCycles(m);
      ModSucc(m, 0x7FFF);
      var t := TidAfter(m);
      var r0, r1 := m % 0x7FFF, n % 0x7FFF;
      assert t == r0 + 1 && TidAfter(n) == NextTid(t);
      if r0 == 0x7FFE {
        assert r1 == 0 && NextTid(t) == 1;
      } else {
        assert r1 == r0 + 1 && NextTid(t) == t + 1;
      }
    }
  }

  /** The high-priority counter cycles through 0x8000 .. 0xFFFF and never falls below 0x8000. */
  lemma {:induction false} HpTidAfterCycles(n: nat)
    ensures HpTidAfter(n) == 0x8000 + n % 0x8000
  {
    if n > 0 {
      var m := n - 1;
      HpTidAfterCycles(m);
      ModSucc(m, 0x8000);
      var t := HpTidAfter(m);
      var r0, r1 := m % 0x8000, n % 0x8000;
      assert t == 0x8000 + r0 && HpTidAfter(n) == NextHpTid(t);
      if r0 == 0x7FFF {
        assert r1 == 0 && NextHpTid(t) == 0x8000;
      } else {
        assert r1 == r0 + 1 && NextHpTid(t) == t + 1;
      }
    }
  }
}
