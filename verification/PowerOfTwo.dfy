/** The rounding of queue sizes: 32-bit bit-smearing, storage in 16 bits, and the masks it makes valid. */
module PowerOfTwo {
  predicate IsPower(r: bv32) {
    r != 0 && r & (r - 1) == 0
  }

  /** Powers of two are spaced: nothing lies strictly between one and its half. */
  lemma PowersAreSpaced(p: bv32, r: bv32)
    requires IsPower(p) && IsPower(r) && p > r >> 1
    ensures p >= r
  {
  }

  /** next_power_of_2, assignment by assignment. */
  method NextPowerOf2(n: bv32) returns (v: bv32)
    ensures IsPower(v)
    ensures 1 <= n <= 0x8000_0000 ==> n <= v && forall p :: IsPower(p) && n <= p ==> v <= p
    ensures !(1 <= n <= 0x8000_0000) ==> v == 1
  {
    v := n;
    v := v - 1;
    v := v | (v >> 1);
    v := v | (v >> 2);
    v := v | (v >> 4);
    v := v | (v >> 8);
    v := v | (v >> 16);
    v := v + 1;
    v := if v == 0 then 1 else v;
    if 1 <= n <= 0x8000_0000 {
      assert v == 1 || n > v >> 1;
      forall p | IsPower(p) && n <= p ensures v <= p {
        if v != 1 { PowersAreSpaced(p, v); }
      }
    }
  }

  /** The rounded size as the configuration stores it, in an unsigned 16-bit field. */
  function Stored(v: bv32): bv16 {
    (v & 0xFFFF) as bv16
  }

  lemma StoredWidens(v: bv32)
    ensures Stored(v) as bv32 == v & 0xFFFF
  {
  }

  lemma LargeSizesVanish(n: bv32, v: bv32)
    requires 0x8000 < n <= 0xFFFF && IsPower(v) && n <= v <= 0x1_0000
    ensures v & 0xFFFF == 0
  {
  }

  lemma SmallSizesFit(v: bv32)
    requires v <= 0x8000
    ensures v & 0xFFFF == v
  {
  }

  /** For a configured size of at most 32768 (0 counts as 1) the stored size is the least power of two that
      is large enough; any larger configured size is stored as 0. */
  method RoundQueueSize(configured: bv32) returns (size: bv32)
    requires configured <= 0xFFFF
    ensures size == 0 <==> configured > 0x8000
    ensures size != 0 ==> IsPower(size) && configured <= size <= 0x8000
    ensures size != 0 ==> forall p :: IsPower(p) && configured <= p ==> size <= p
  {
    var v := NextPowerOf2(configured);
    size := Stored(v) as bv32;
    StoredWidens(v);
    assert IsPower(0x1_0000) && IsPower(0x8000);
    if configured > 0x8000 {
      LargeSizesVanish(configured, v);
    } else {
      SmallSizesFit(v);
    }
  }

  // ---- The same sizes as numbers

  function Pow2(k: nat): (p: nat)
    ensures p > 0
  {
    if k == 0 then 1 else 2 * Pow2(k - 1)
  }

  /** Bitwise and of two non-negative C ints. */
  function BitAnd(a: nat, b: nat): nat {
    if a == 0 || b == 0 then 0
    else 2 * BitAnd(a / 2, b / 2) + (if a % 2 == 1 && b % 2 == 1 then 1 else 0)
  }

  lemma DoubleRemainder(x: nat, half: nat)
    requires half > 0
    ensures x % (2 * half) == 2 * ((x / 2) % half) + x % 2
  {
    var q, r := (x / 2) / half, (x / 2) % half;
    assert x / 2 == q * half + r;
    assert 2 * (q * half) == q * (2 * half);
    RemainderIs(x, q, 2 * r + x % 2, 2 * half);
  }

  lemma MaskStep(x: nat, half: nat)
    requires half > 0
    ensures BitAnd(x, 2 * half - 1) == 2 * BitAnd(x / 2, half - 1) + x % 2
  {
    assert (2 * half - 1) / 2 == half - 1 && (2 * half - 1) % 2 == 1;
  }

  lemma MaskDoubles(x: nat, half: nat)
    requires half > 0 && BitAnd(x / 2, half - 1) == (x / 2) % half
    ensures BitAnd(x, 2 * half - 1) == x % (2 * half)
  {
    MaskStep(x, half);
    DoubleRemainder(x, half);
  }

  /** Masking with size - 1 is the remainder modulo size when the size is a power of two. */
  lemma {:induction false} MaskIsModulo(x: nat, k: nat)
    ensures BitAnd(x, Pow2(k) - 1) == x % Pow2(k)
  {
    if k == 0 {
      assert x % 1 == 0;
    } else {
      MaskIsModulo(x / 2, k - 1);
      MaskDoubles(x, Pow2(k - 1));
    }
  }

  lemma RemainderIs(x: nat, q: nat, r: nat, m: nat)
    requires r < m && x == q * m + r
    ensures x % m == r
  {
    var q': int, r': int := x / m, x % m;
    var m: int := m;
    assert (q - q') * m == r' - r;
    assert q - q' >= 1 ==> (q - q') * m >= m;
    assert q - q' <= -1 ==> (q - q') * m <= -m;
  }

  /** Every stored size other than 0 is Pow2(k) for some k < 16, so its mask steps through the ring. */
  lemma StoredSizeIsPow2(size: bv32) returns (k: nat)
    requires IsPower(size) && size <= 0x8000
    ensures k < 16 && size as nat == Pow2(k)
  {
    assert Pow2(4) == 16 && Pow2(8) == 256 && Pow2(12) == 4096;
    k := if size == 1 then 0 else if size == 2 then 1 else if size == 4 then 2 else if size == 8 then 3
         else if size == 0x10 then 4 else if size == 0x20 then 5 else if size == 0x40 then 6
         else if size == 0x80 then 7 else if size == 0x100 then 8 else if size == 0x200 then 9
         else if size == 0x400 then 10 else if size == 0x800 then 11 else if size == 0x1000 then 12
         else if size == 0x2000 then 13 else if size == 0x4000 then 14 else 15;
    assert k == 15 ==> size == 0x8000;
  }
}
