/** Address ranges: the mask and shift tests, and the addresses that count as public. */
module Cidr {

  function Pow2(n: nat): (p: nat)
    ensures p >= 1
  {
    if n == 0 then 1 else 2 * Pow2(n - 1)
  }

  /** Bitwise conjunction of two bit patterns. */
  function And(a: nat, b: nat): (r: nat)
  {
    if a == 0 || b == 0 then 0 else (a % 2) * (b % 2) + 2 * And(a / 2, b / 2)
  }

  /** The 32-bit pattern of `0xffffffff << shift`, read as an unsigned number; the shift count is taken modulo 32. */
  function Mask32(shift: nat): (m: nat)
  {
    (0xFFFF_FFFF * Pow2(shift % 32)) % 0x1_0000_0000
  }

  /** `ipv4InCidr`. */
  predicate InCidr4(address: nat, network: nat, prefix: nat)
    requires prefix <= 32
  {
    prefix == 0 || And(address, Mask32(32 - prefix)) == And(network, Mask32(32 - prefix))
  }

  /** `ipv6InCidr`: a right shift is a division. */
  predicate InCidr6(address: nat, network: nat, prefix: nat)
    requires prefix <= 128
  {
    prefix == 0 || address / Pow2(128 - prefix) == network / Pow2(128 - prefix)
  }

  /** The block of `2^free` addresses around the network. */
  predicate InBlock(address: nat, network: nat, free: nat)
  {
    network - network % Pow2(free) <= address < network - network % Pow2(free) + Pow2(free)
  }

  // ---------------------------------------------------------------- the tests are interval membership

  lemma Doubles(n: nat)
    requires n > 0
    ensures Pow2(n) == 2 * Pow2(n - 1)
  {
  }

  lemma {:induction false} Pow2Add(a: nat, b: nat)
    ensures Pow2(a + b) == Pow2(a) * Pow2(b)
  {
    if a > 0 {
      Pow2Add(a - 1, b);
      Doubles(a);
      Doubles(a + b);
      hide Pow2;
      assert 2 * Pow2(a - 1) * Pow2(b) == 2 * (Pow2(a - 1) * Pow2(b));
    }
  }

  lemma Pow2Monotone(a: nat, b: nat)
    requires a <= b
    ensures Pow2(a) <= Pow2(b)
  {
    hide Pow2;
    Pow2Add(a, b - a);
    assert Pow2(a) * Pow2(b - a) >= Pow2(a) * 1;
  }

  lemma Pow32()
    ensures Pow2(32) == 0x1_0000_0000
  {
    assert Pow2(4) == 16;
    hide Pow2;
    Pow2Add(4, 4);
    Pow2Add(8, 8);
    Pow2Add(16, 16);
  }

  lemma HalfRemainder(a: nat, m: nat)
    requires m >= 1
    ensures a % (2 * m) == a % 2 + 2 * (a / 2 % m)
  {
    var half := a / 2;
    var r := a % 2 + 2 * (half % m);
    var q := half / m;
    assert half == m * q + half % m;
    assert a == 2 * half + a % 2;
    assert a == q * (2 * m) + r && 0 <= r < 2 * m;
    Remainder(a, 2 * m, q, r);
  }

  lemma Remainder(a: nat, m: nat, q: nat, r: nat)
    requires m >= 1 && a == q * m + r && r < m
    ensures a % m == r && a / m == q
  {
    var d := a / m - q;
    assert a == (a / m) * m + a % m;
    assert d * m == r - a % m;
    assert d >= 1 ==> d * m >= m;
    assert d <= -1 ==> d * m + m <= 0;
  }

  lemma AndOdd(a: nat, half: nat)
    ensures And(a, 2 * half + 1) == a % 2 + 2 * And(a / 2, half)
  {
    assert (2 * half + 1) % 2 == 1 && (2 * half + 1) / 2 == half;
  }

  lemma AndEven(a: nat, half: nat)
    ensures And(a, 2 * half) == 2 * And(a / 2, half)
  {
    assert (2 * half) % 2 == 0 && (2 * half) / 2 == half;
  }

  /** Keeping the high bits clears the remainder. */
  lemma {:induction false} AndMask(a: nat, width: nat, low: nat)
    requires low <= width && a < Pow2(width)
    ensures Pow2(low) <= Pow2(width) && And(a, Pow2(width) - Pow2(low)) == a - a % Pow2(low)
    decreases width
  {
    assert Pow2(0) == 1;
    hide Pow2;
    Pow2Monotone(low, width);
    if a == 0 || low == width {
      Remainder(a, Pow2(low), 0, a);
    } else if low == 0 {
      Doubles(width);
      AndMask(a / 2, width - 1, 0);
      var half := Pow2(width - 1) - 1;
      assert Pow2(width) - 1 == 2 * half + 1;
      AndOdd(a, half);
    } else {
      Doubles(width);
      Doubles(low);
      AndMask(a / 2, width - 1, low - 1);
      var half := Pow2(width - 1) - Pow2(low - 1);
      assert Pow2(width) - Pow2(low) == 2 * half;
      AndEven(a, half);
      HalfRemainder(a, Pow2(low - 1));
    }
  }

  lemma Mask32Value(shift: nat)
    requires shift < 32
    ensures Mask32(shift) == Pow2(32) - Pow2(shift)
  {
    hide Pow2;
    Pow32();
    Pow2Monotone(shift, 32);
    var p := Pow2(shift);
    var pattern := 0xFFFF_FFFF * p;
    assert pattern == (p - 1) * 0x1_0000_0000 + (0x1_0000_0000 - p);
    Remainder(pattern, 0x1_0000_0000, p - 1, 0x1_0000_0000 - p);
  }

  lemma SameBlock(a: nat, n: nat, m: nat)
    requires m >= 1
    ensures a - a % m == n - n % m <==> a / m == n / m
    ensures a / m == n / m <==> n - n % m <= a < n - n % m + m
  {
    assert a == (a / m) * m + a % m && n == (n / m) * m + n % m;
    var d := a / m - n / m;
    assert d * m == (a - a % m) - (n - n % m);
    assert d >= 1 ==> d * m >= m;
    assert d <= -1 ==> d * m + m <= 0;
  }

  /** The 32-bit mask test is membership of the block, for every address, network and prefix. */
  lemma MaskIsInterval(address: nat, network: nat, prefix: nat)
    requires prefix <= 32 && address < Pow2(32) && network < Pow2(32)
    ensures InCidr4(address, network, prefix) <==> InBlock(address, network, 32 - prefix)
  {
    hide Pow2, And, Mask32;
    if prefix == 0 {
      Remainder(network, Pow2(32), 0, network);
    } else {
      Mask32Value(32 - prefix);
      AndMask(address, 32, 32 - prefix);
      AndMask(network, 32, 32 - prefix);
      SameBlock(address, network, Pow2(32 - prefix));
    }
  }

  /** The 128-bit shift test is membership of the block, for every address, network and prefix. */
  lemma ShiftIsInterval(address: nat, network: nat, prefix: nat)
    requires prefix <= 128 && address < Pow2(128) && network < Pow2(128)
    ensures InCidr6(address, network, prefix) <==> InBlock(address, network, 128 - prefix)
  {
    hide Pow2;
    if prefix == 0 {
      Remainder(network, Pow2(128), 0, network);
    } else {
      SameBlock(address, network, Pow2(128 - prefix));
    }
  }

  // ---------------------------------------------------------------- public IPv4 addresses

  function Quad(a: nat, b: nat, c: nat, d: nat): (v: nat)
    requires a < 256 && b < 256 && c < 256 && d < 256
    ensures v < 0x1_0000_0000
  {
    ((a * 256 + b) * 256 + c) * 256 + d
  }

  /** The networks `isPublicIpv4` refuses, with their prefix lengths. */
  function Blocked4(): (networks: seq<(nat, nat)>)
    ensures |networks| == 15 && forall i :: 0 <= i < 15 ==> networks[i].1 <= 32
  {
    [(Quad(0, 0, 0, 0), 8),
     (Quad(10, 0, 0, 0), 8),
     (Quad(100, 64, 0, 0), 10),
     (Quad(127, 0, 0, 0), 8),
     (Quad(169, 254, 0, 0), 16),
     (Quad(172, 16, 0, 0), 12),
     (Quad(192, 0, 0, 0), 24),
     (Quad(192, 0, 2, 0), 24),
     (Quad(192, 88, 99, 0), 24),
     (Quad(192, 168, 0, 0), 16),
     (Quad(198, 18, 0, 0), 15),
     (Quad(198, 51, 100, 0), 24),
     (Quad(203, 0, 113, 0), 24),
     (Quad(224, 0, 0, 0), 4),
     (Quad(240, 0, 0, 0), 4)]
  }

  predicate IsPublic4(value: nat)
  {
    !exists i :: 0 <= i < |Blocked4()| && InCidr4(value, Blocked4()[i].0, Blocked4()[i].1)
  }

  /** The special-purpose ranges, first and last address. */
  function Ranges4(): (ranges: seq<(nat, nat)>)
    ensures |ranges| == 15
  {
    [(Quad(0, 0, 0, 0), Quad(0, 255, 255, 255)),
     (Quad(10, 0, 0, 0), Quad(10, 255, 255, 255)),
     (Quad(100, 64, 0, 0), Quad(100, 127, 255, 255)),
     (Quad(127, 0, 0, 0), Quad(127, 255, 255, 255)),
     (Quad(169, 254, 0, 0), Quad(169, 254, 255, 255)),
     (Quad(172, 16, 0, 0), Quad(172, 31, 255, 255)),
     (Quad(192, 0, 0, 0), Quad(192, 0, 0, 255)),
     (Quad(192, 0, 2, 0), Quad(192, 0, 2, 255)),
     (Quad(192, 88, 99, 0), Quad(192, 88, 99, 255)),
     (Quad(192, 168, 0, 0), Quad(192, 168, 255, 255)),
     (Quad(198, 18, 0, 0), Quad(198, 19, 255, 255)),
     (Quad(198, 51, 100, 0), Quad(198, 51, 100, 255)),
     (Quad(203, 0, 113, 0), Quad(203, 0, 113, 255)),
     (Quad(224, 0, 0, 0), Quad(239, 255, 255, 255)),
     (Quad(240, 0, 0, 0), Quad(255, 255, 255, 255))]
  }

  lemma SmallPowers()
    ensures Pow2(8) == 0x100 && Pow2(16) == 0x1_0000 && Pow2(17) == 0x2_0000 && Pow2(20) == 0x10_0000
    ensures Pow2(22) == 0x40_0000 && Pow2(24) == 0x100_0000 && Pow2(28) == 0x1000_0000
  {
    assert Pow2(1) == 2 && Pow2(4) == 16;
    hide Pow2;
    Pow2Add(4, 4);
    Pow2Add(8, 8);
    Pow2Add(16, 1);
    Pow2Add(16, 4);
    Pow2Add(16, 8);
    Pow2Add(24, 4);
    Pow2Add(1, 1);
    Pow2Add(20, 2);
  }

  lemma RangeOfBlock4(i: nat)
    requires i < 15
    ensures var n, free := Blocked4()[i].0, 32 - Blocked4()[i].1;
      n < 0x1_0000_0000 && n % Pow2(free) == 0 && Ranges4()[i] == (n, n + Pow2(free) - 1)
  {
    SmallPowers();
    hide Pow2;
    var free := 32 - Blocked4()[i].1;
    assert free in {8, 16, 17, 20, 22, 24, 28};
  }

  /** An IPv4 address is public exactly when it lies in none of the listed ranges. */
  lemma Public4IsComplement(value: nat)
    requires value < 0x1_0000_0000
    ensures IsPublic4(value) <==> forall i :: 0 <= i < 15 ==> value < Ranges4()[i].0 || Ranges4()[i].1 < value
  {
    Pow32();
    hide Pow2, Blocked4, Ranges4, InCidr4;
    forall i | 0 <= i < 15
      ensures InCidr4(value, Blocked4()[i].0, Blocked4()[i].1) <==> Ranges4()[i].0 <= value <= Ranges4()[i].1
    {
      RangeOfBlock4(i);
      MaskIsInterval(value, Blocked4()[i].0, Blocked4()[i].1);
    }
  }
}
