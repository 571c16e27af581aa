/** Environment ids: how env_alloc derives the next id of a slot from its last,
    and for how long a stale id is told apart from the live one. */
module EnvIds {

  const NENV := 1024
  const GENERATIONS := 524287

  function EnvX(id: nat): (i: nat)
    ensures i < NENV
  {
    id % 1024
  }

  /** A 32-bit sum as a signed integer. */
  function Wrap32(x: int): (r: int)
    requires -0x8000_0000 <= x < 0x1_0000_0000
    ensures -0x8000_0000 <= r < 0x8000_0000
  {
    if x < 0x8000_0000 then x else x - 0x1_0000_0000
  }

  /** (id + (1 << ENVGENSHIFT)) & ~(NENV - 1) */
  function Generation(id: int): int
    requires 0 <= id < 0x8000_0000
  {
    var x := Wrap32(id + 4096);
    x - x % 1024
  }

  function NextId(id: int, slot: nat): (r: int)
    requires 0 <= id < 0x8000_0000 && slot < NENV
    ensures 0 < r < 0x8000_0000
  {
    (if Generation(id) <= 0 then 4096 else Generation(id)) + slot
  }

  /** The id that slot gets at its n-th allocation; env_init sets it to 0. */
  function NthId(slot: nat, n: nat): (r: int)
    requires slot < NENV
    ensures 0 <= r < 0x8000_0000
  {
    if n == 0 then 0 else NextId(NthId(slot, n - 1), slot)
  }

  /** Where the n-th allocation stands in the cycle of generations. */
  function Phase(n: nat): (g: nat)
    requires n >= 1
    ensures g < GENERATIONS
  {
    (n - 1) % 524287
  }

  lemma PhaseNext(n: nat)
    requires n >= 1
    ensures Phase(n + 1) == if Phase(n) + 1 == GENERATIONS then 0 else Phase(n) + 1
  {
    var q := (n - 1) / 524287;
    if Phase(n) + 1 == GENERATIONS {
      assert n == 524287 * (q + 1);
    } else {
      assert n == 524287 * q + (Phase(n) + 1);
    }
  }

  lemma RoundDown(k: int, slot: nat)
    requires slot < NENV
    ensures (1024 * k + slot) % 1024 == slot
  {
  }

  lemma NextIdAt(g: nat, slot: nat)
    requires g < GENERATIONS && slot < NENV
    ensures NextId((g + 1) * 4096 + slot, slot) ==
            (if g + 1 == GENERATIONS then 4096 else (g + 2) * 4096) + slot
  {
    var id := (g + 1) * 4096 + slot;
    if g + 1 < GENERATIONS {
      var k := (g + 2) * 4;
      RoundDown(k, slot);
      assert Generation(id) == 1024 * k;
    } else {
      RoundDown(-2097152, slot);
      assert Generation(id) == -0x8000_0000;
    }
  }

  lemma SlotOf(g: nat, slot: nat)
    requires slot < NENV
    ensures EnvX((g + 1) * 4096 + slot) == slot
  {
    RoundDown((g + 1) * 4, slot);
  }

  /** The generations run from 1 to 524287 and start again, so ids stay positive
      and keep their slot in the low bits. */
  lemma {:induction false} NthIdClosed(slot: nat, n: nat)
    requires slot < NENV && n >= 1
    ensures NthId(slot, n) == (Phase(n) + 1) * 4096 + slot
    ensures NthId(slot, n) > 0 && EnvX(NthId(slot, n)) == slot
  {
    SlotOf(Phase(n), slot);
    if n == 1 {
      FirstId(slot);
    } else {
      NthIdClosed(slot, n - 1);
      NextIdAt(Phase(n - 1), slot);
      PhaseNext(n - 1);
    }
  }

  lemma FirstId(slot: nat)
    requires slot < NENV
    ensures NthId(slot, 1) == 4096 + slot && Phase(1) == 0
  {
    assert NthId(slot, 0) == 0;
    assert Generation(0) == 4096;
  }

  /** An id comes back exactly after a multiple of 524287 further allocations of
      its slot. */
  lemma SameIdIff(i: nat, n: nat, j: nat, m: nat)
    requires i < NENV && j < NENV && 1 <= n <= m
    ensures NthId(i, n) == NthId(j, m) <==> i == j && (m - n) % 524287 == 0
  {
    NthIdClosed(i, n);
    NthIdClosed(j, m);
    PhaseEqualIff(n, m);
    if NthId(i, n) == NthId(j, m) {
      assert EnvX(NthId(i, n)) == EnvX(NthId(j, m));
    }
  }

  lemma PhaseEqualIff(n: nat, m: nat)
    requires 1 <= n <= m
    ensures Phase(n) == Phase(m) <==> (m - n) % 524287 == 0
  {
    var p, q := (n - 1) / 524287, (m - 1) / 524287;
    assert m - n == 524287 * (q - p) + (Phase(m) - Phase(n));
    if Phase(n) == Phase(m) {
      assert m - n == 524287 * (q - p);
    }
    if (m - n) % 524287 == 0 {
      var d := (m - n) / 524287;
      assert Phase(m) - Phase(n) == 524287 * (d - (q - p));
    }
  }
}
